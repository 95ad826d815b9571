/** What the progress endpoint reports about an upload (get_upload_progress in src/file_manager.cpp,
    handle_file_upload_progress in src/http_handler.cpp). */
module ProgressReports {
  import opened Common
  import opened Chunking
  import opened UploadModel
  import opened UploadInvariants
  import opened UploadClient
  import opened EndToEnd

  lemma {:induction false} SumOfNothing<K, V>(m: map<K, V>, weight: (K, V) -> int)
    requires forall k | k in m :: weight(k, m[k]) == 0
    ensures SumOver(m, weight) == 0
    decreases |m|
  {
    if exists k :: k in m {
      var k :| k in m;
      SumOverTakesOut(m, weight, k);
      SumOfNothing(m - {k}, weight);
    }
  }

  /** The recorded chunks below m together have at most the bytes of the first m slices, and exactly
      those if all of them are recorded. */
  lemma {:induction false} SizesAddUp(t: Task, chunks: map<ChunkKey, ChunkRow>, id: string, m: nat)
    requires TaskOk(t) && m <= Pieces(t) && RowsFit(t, chunks, id)
    requires forall i :: (id, i) in chunks ==> i < m
    ensures var all := if m * t.chunk < t.size then m * t.chunk else t.size;
            && 0 <= UploadedSize(chunks, id) <= all
            && (UploadedSize(chunks, id) == all <==> forall i | 0 <= i < m :: (id, i) in chunks)
  {
    if m == 0 {
      forall k | k in chunks ensures SizeIn(id)(k, chunks[k]) == 0 {
        assert k == (k.0, k.1);
        assert (id, k.1) in chunks ==> 0 <= k.1 < m;
      }
      SumOfNothing(chunks, SizeIn(id));
    } else {
      var key := (id, m - 1);
      SliceBounds(t.size, t.chunk, m - 1);
      if key in chunks {
        SumOverTakesOut(chunks, SizeIn(id), key);
        assert forall i :: i != m - 1 ==> ((id, i) in chunks <==> (id, i) in chunks - {key});
        SizesAddUp(t, chunks - {key}, id, m - 1);
      } else {
        assert forall i :: (id, i) in chunks ==> i != m - 1;
        SizesAddUp(t, chunks, id, m - 1);
      }
    }
  }

  lemma RecordedSizes(t: Task, s: State, id: string)
    requires TaskOk(t) && Declares(t, s, id) && RowsFit(t, s.db.chunks, id)
    ensures 0 <= UploadedSize(s.db.chunks, id) <= t.size
    ensures UploadedSize(s.db.chunks, id) == t.size <==> EveryChunkRecorded(s, id)
  {
    CeilDivBounds(t.size, t.chunk);
    SizesAddUp(t, s.db.chunks, id, Pieces(t));
  }

  lemma FractionIsOneIff(completed: int, total: int)
    requires 0 <= completed <= total && total > 0
    ensures 0.0 <= Fraction(completed, total) <= 1.0
    ensures Fraction(completed, total) == 1.0 <==> completed == total
  {
    var f := Fraction(completed, total);
    assert f * total as real == completed as real;
    if f == 1.0 {
      assert completed as real == total as real;
    }
  }

  /** `shown` ten-thousandths are x rounded to four decimals, as setprecision(4) prints it. */
  predicate Prints(shown: int, x: real) {
    x * 10000.0 - 0.5 <= shown as real <= x * 10000.0 + 0.5
  }

  lemma FullPrintsAsOne(total: int, shown: int)
    requires total > 0
    ensures Prints(shown, Fraction(total, total)) <==> shown == 10000
  {
    FractionIsOneIff(total, total);
  }

  lemma FractionAtLeast(x: int, total: int, bound: real)
    requires total > 0
    ensures Fraction(x, total) >= bound <==> x as real >= bound * total as real
  {
    assert Fraction(x, total) * total as real == x as real;
    assert (Fraction(x, total) - bound) * total as real == x as real - bound * total as real;
  }

  /** One missing chunk shows in the four decimals unless there are too many chunks. */
  lemma MissingShows(completed: int, total: int)
    requires 0 <= completed < total < 20000
    ensures !Prints(10000, Fraction(completed, total))
  {
    FractionAtLeast(completed, total, 0.99995);
    assert completed as real <= total as real - 1.0;
  }

  lemma LastIsHidden(total: int)
    requires total >= 20000
    ensures Prints(10000, Fraction(total - 1, total))
  {
    FractionAtLeast(total - 1, total, 0.99995);
    FractionIsOneIff(total - 1, total);
    assert (total - 1) as real == total as real - 1.0;
  }

  /** The printed fraction can only be trusted up to 19999 chunks: exactly then "1.0000" is never printed
      while a chunk is missing. */
  lemma PrintedOneIsFullIff(total: int)
    requires total > 0
    ensures (forall completed | 0 <= completed <= total ::
               Prints(10000, Fraction(completed, total)) <==> completed == total)
            <==> total < 20000
  {
    FullPrintsAsOne(total, 10000);
    if total < 20000 {
      forall completed | 0 <= completed < total ensures !Prints(10000, Fraction(completed, total)) {
        MissingShows(completed, total);
      }
    } else {
      LastIsHidden(total);
      assert 0 <= total - 1 <= total;
    }
  }

  /** In every run a progress answer whose count and list queries succeeded is true: it lists the
      recorded chunks of the upload in ascending order, never reports more than the whole, and the count,
      the bytes, the fraction before it is printed, and the list are each full exactly when every chunk
      is recorded. */
  lemma ProgressIsTrue(t: Task, W0: World, actions: seq<Action>, W: World, ask: Call)
    requires TaskOk(t) && Untouched(W0) && Happens(t, W0, actions, W)
    requires ask.AskProgress? && ask.id in W.ours && ask.w.count && ask.w.list
    ensures ask.id in W.server.db.sessions
    ensures var r := HandleProgress(W.server, ask);
            r.ProgressOk? ==>
              && r.total == Pieces(t) && r.totalSize == t.size
              && (forall i :: i in r.indices <==> (ask.id, i) in W.server.db.chunks)
              && (forall i, j | 0 <= i < j < |r.indices| :: r.indices[i] < r.indices[j])
              && r.completed == |r.indices| <= r.total && 0 <= r.uploadedSize <= t.size && 0.0 <= r.fraction <= 1.0
              && (r.completed == r.total <==> EveryChunkRecorded(W.server, ask.id))
              && (r.uploadedSize == t.size <==> EveryChunkRecorded(W.server, ask.id))
              && (r.fraction == 1.0 <==> EveryChunkRecorded(W.server, ask.id))
              && (r.total < 20000 ==> (Prints(10000, r.fraction) <==> EveryChunkRecorded(W.server, ask.id)))
              && (AsSet(r.indices) == Below(r.total) <==> EveryChunkRecorded(W.server, ask.id))
  {
    EveryRunIsSound(t, W0, actions, W);
    ProgressOfOurs(t, W, ask);
    PrintedOneIsFullIff(Pieces(t));
  }

  lemma ProgressOfOurs(t: Task, W: World, ask: Call)
    requires TaskOk(t) && Sound(t, W) && ask.AskProgress? && ask.id in W.ours && ask.w.count && ask.w.list
    ensures ask.id in W.server.db.sessions && Pieces(t) > 0
    ensures var r := HandleProgress(W.server, ask);
            r.ProgressOk? ==>
              && r.total == Pieces(t) && r.totalSize == t.size
              && (forall i :: i in r.indices <==> (ask.id, i) in W.server.db.chunks)
              && (forall i, j | 0 <= i < j < |r.indices| :: r.indices[i] < r.indices[j])
              && r.completed == |r.indices| <= r.total && 0 <= r.uploadedSize <= t.size && 0.0 <= r.fraction <= 1.0
              && r.fraction == Fraction(r.completed, r.total)
              && (r.completed == r.total <==> EveryChunkRecorded(W.server, ask.id))
              && (r.uploadedSize == t.size <==> EveryChunkRecorded(W.server, ask.id))
              && (r.fraction == 1.0 <==> EveryChunkRecorded(W.server, ask.id))
              && (AsSet(r.indices) == Below(r.total) <==> EveryChunkRecorded(W.server, ask.id))
  {
    assert Declares(t, W.server, ask.id) && RowsFit(t, W.server.db.chunks, ask.id);
    RecordedSizes(t, W.server, ask.id);
    CountDecidesCompleteness(W.server, ask.id);
    var done := Indices(W.server.db.chunks, ask.id);
    FullCount(done, Pieces(t));
    InOrderAscends(done);
    InOrderIsSet(done);
    assert SessionSane(W.server, ask.id);
    FractionIsOneIff(|done|, Pieces(t));
  }

  /** The progress of an upload of which every chunk is recorded. */
  ghost function ListsAll(t: Task): Reply
    requires TaskOk(t)
  {
    ProgressOk(Pieces(t), Pieces(t), t.size, t.size, 1.0, InOrder(Below(Pieces(t))))
  }

  lemma ProgressListsAll(t: Task, s: State, ask: Call)
    requires TaskOk(t) && WellFormed(s) && ask.AskProgress? && ask.user == t.user
    requires Declares(t, s, ask.id) && RowsFit(t, s.db.chunks, ask.id) && EveryChunkRecorded(s, ask.id) && ask.now < s.db.sessions[ask.id].expiresAt
    requires ask.w.progress && ask.w.count && ask.w.list
    ensures HandleProgress(s, ask) == ListsAll(t)
  {
    CountDecidesCompleteness(s, ask.id);
    FullCount(Indices(s.db.chunks, ask.id), Pieces(t));
    assert SessionSane(s, ask.id);
    RecordedSizes(t, s, ask.id);
    FractionIsOneIff(Pieces(t), Pieces(t));
  }
}
