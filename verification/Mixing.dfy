/** Two files behind one resume key (getResumeKey in static/app.js): how one upload comes to store a
    mixture of both. */
module Mixing {
  import opened Common
  import opened Chunking
  import opened UploadModel
  import opened UploadInvariants
  import opened UploadClient
  import opened EndToEnd
  import opened Outcomes

  lemma {:induction false} AllRemain(n: nat)
    ensures Remaining(n, {}) == seq(n, i => i)
  {
    if n > 0 {
      AllRemain(n - 1);
    }
  }

  /** Two actions in a row. */
  lemma HappensNext(t: Task, W: World, a: Action, rest: seq<Action>, W': World)
    requires TaskOk(t) && Possible(t, W, a) && Happens(t, Act(t, W, a), rest, W')
    ensures Happens(t, W, [a] + rest, W')
  {
    assert ([a] + rest)[1..] == rest;
  }

  /** After opening, the first chunk can be sent alone. */
  lemma SendsFirstChunk(t: Task, W: World, f: seq<byte>, id: string, now: int, name: string)
      returns (actions: seq<Action>, W': World)
    requires TaskOk(t) && (forall x :: t.h(x) != "") && |f| == t.size
    requires W.attempts == [Start(f, id, Pieces(t), {})] && Promising(t, W, 0, now, name)
    requires Indices(W.server.db.chunks, id) == {}
    ensures Happens(t, W, actions, W') && Promising(t, W', 0, now, name) && W'.resume == W.resume
    ensures |W'.attempts| == 1 && W'.attempts[0].file == f && W'.attempts[0].uploadId == id
    ensures Indices(W'.server.db.chunks, id) == {0} && (id, 0) in W'.writer && W'.writer[(id, 0)] == f
  {
    TakesFirstChunk(t, f, id);
    var take := TakeNext(0, 0);
    TakingKeepsPromise(t, W, 0, 0, now, name);
    var post;
    post, W' := PostsFirstChunk(t, Act(t, W, take), f, id, now, name);
    actions := [take] + [post];
    HappensTwice(t, W, take, post, W');
  }

  lemma HappensTwice(t: Task, W: World, a: Action, b: Action, W': World)
    requires TaskOk(t) && Possible(t, W, a) && Possible(t, Act(t, W, a), b) && W' == Act(t, Act(t, W, a), b)
    ensures Happens(t, W, [a] + [b], W')
  {
    assert Happens(t, W', [], W');
    assert [b] + [] == [b];
    HappensNext(t, Act(t, W, a), b, [], W');
    HappensNext(t, W, a, [b], W');
  }

  lemma TakesFirstChunk(t: Task, f: seq<byte>, id: string)
    requires TaskOk(t)
    ensures var a := Start(f, id, Pieces(t), {});
            Enabled(a, Next(0)) && Advance(a, Next(0)).workers[0] == Sending(0)
  {
    CeilDivBounds(t.size, t.chunk);
    AllRemain(Pieces(t));
  }

  lemma PostsFirstChunk(t: Task, W: World, f: seq<byte>, id: string, now: int, name: string)
      returns (post: Action, W': World)
    requires TaskOk(t) && (forall x :: t.h(x) != "") && |f| == t.size && Promising(t, W, 0, now, name)
    requires |W.attempts| == 1 && W.attempts[0].file == f && W.attempts[0].uploadId == id
    requires W.attempts[0].workers != [] && W.attempts[0].workers[0] == Sending(0)
    requires Indices(W.server.db.chunks, id) == {}
    ensures Possible(t, W, post) && W' == Act(t, W, post) && Promising(t, W', 0, now, name) && W'.resume == W.resume
    ensures |W'.attempts| == 1 && W'.attempts[0].file == f && W'.attempts[0].uploadId == id
    ensures Indices(W'.server.db.chunks, id) == {0} && (id, 0) in W'.writer && W'.writer[(id, 0)] == f
  {
    IntactChunkIsTaken(t, W, 0, 0, now, name);
    var c := PostCall(t, W.attempts[0], 0, now);
    post := Post(0, 0, c, true);
    AcknowledgedWasWritten(t.h, W.server, c);
    FirstChunkIsRecorded(t.h, W.server, c);
    W' := Act(t, W, post);
  }

  lemma FirstChunkIsRecorded(h: Hash, s: State, c: Call)
    requires WellFormed(s) && c.Chunk? && c.index == 0 && HandleChunk(h, s, c).1.ChunkOk? && Indices(s.db.chunks, c.id) == {}
    ensures Indices(HandleChunk(h, s, c).0.db.chunks, c.id) == {0}
  {
    ChunkAcknowledgedIff(h, s, c);
    OneIndexMore(s.db.chunks, HandleChunk(h, s, c).0.db.chunks, c.id);
  }

  lemma OneIndexMore(chunks: map<ChunkKey, ChunkRow>, more: map<ChunkKey, ChunkRow>, id: string)
    requires Indices(chunks, id) == {} && more.Keys == chunks.Keys + {(id, 0)}
    ensures Indices(more, id) == {0}
  {
    forall i ensures i in Indices(more, id) <==> i == 0 {
      assert i in Indices(chunks, id) <==> (id, i) in chunks;
      assert i in Indices(more, id) <==> (id, i) in more.Keys;
    }
  }

  lemma NothingRecordedYet(t: Task, W: World, file: seq<byte>, filename: string, id: string, now: int)
    requires TaskOk(t) && WellFormed(W.server) && id !in W.server.db.sessions
    requires Possible(t, W, Open(OpenCall(t, filename, id, now), file, true))
    ensures Indices(Act(t, W, Open(OpenCall(t, filename, id, now), file, true)).server.db.chunks, id) == {}
  {
    forall k | k in W.server.db.chunks ensures k.0 != id {
      assert InRange(W.server.db.sessions, k);
    }
  }

  /** The world after an attempt for f that was interrupted when only its first chunk had been sent. */
  lemma InterruptedUpload(t: Task, W0: World, f: seq<byte>, filename: string, id: string, now: int, name: string)
      returns (actions: seq<Action>, W: World)
    requires TaskOk(t) && (forall x :: t.h(x) != "") && Untouched(W0)
    requires |f| == t.size && CanOpen(t, W0.server, filename, id, name)
    ensures Happens(t, W0, actions, W) && Promising(t, W, 0, now, name) && W.resume == Some(id)
    ensures |W.attempts| == 1 && W.attempts[0].file == f && W.attempts[0].uploadId == id
    ensures Indices(W.server.db.chunks, id) == {0} && (id, 0) in W.writer && W.writer[(id, 0)] == f
  {
    var open := Open(OpenCall(t, filename, id, now), f, true);
    OpenedIsPromising(t, W0, f, filename, id, now, name);
    NothingRecordedYet(t, W0, f, filename, id, now);
    assert [] + [Start(f, id, Pieces(t), {})] == [Start(f, id, Pieces(t), {})];
    var rest;
    rest, W := SendsFirstChunk(t, Act(t, W0, open), f, id, now, name);
    actions := [open] + rest;
    HappensNext(t, W0, open, rest, W);
  }

  /** A resumed attempt for g writes every chunk but the first from g. */
  lemma ResumeWritesTheRest(t: Task, W: World, W': World, g: seq<byte>, id: string)
    requires TaskOk(t) && Sound(t, W') && |W.attempts| == 2 && GoesOn(W, W', 1) && AllFinished(W'.attempts[1])
    requires W.attempts[1].file == g && W.attempts[1].uploadId == id
    requires W.attempts[1].already == {0} && W.attempts[1].acked == {}
    ensures SameWriter(W.writer, W'.writer, (id, 0))
    ensures forall i | 0 < i < Pieces(t) :: (id, i) in W'.writer && W'.writer[(id, i)] == g
  {
    var b := W'.attempts[1];
    assert 0 in W.attempts[1].already + W.attempts[1].acked;
    assert Informed(t, W', b);
    FinishedHasAll(b);
    forall i | 0 < i < Pieces(t) ensures (id, i) in W'.writer && W'.writer[(id, i)] == g {
      assert i in b.already + b.acked;
      assert i in b.acked - W.attempts[1].acked;
    }
  }

  lemma HeadFirst<T>(a: seq<T>, b: seq<T>)
    requires a != []
    ensures [a[0]] + (a[1..] + b) == a + b
  {
  }

  lemma HappensFirst(t: Task, W: World, actions: seq<Action>, W': World)
    requires TaskOk(t) && actions != [] && Happens(t, W, actions, W')
    ensures Possible(t, W, actions[0]) && Happens(t, Act(t, W, actions[0]), actions[1..], W')
  {
  }

  lemma {:induction false} HappensOn(t: Task, W: World, first: seq<Action>, W1: World, next: seq<Action>, W2: World)
    requires TaskOk(t) && Happens(t, W, first, W1) && Happens(t, W1, next, W2)
    ensures Happens(t, W, first + next, W2)
    decreases |first|
  {
    if first == [] {
      assert first + next == next;
    } else {
      HappensFirst(t, W, first, W1);
      HappensOn(t, Act(t, W, first[0]), first[1..], W1, next, W2);
      HappensNext(t, W, first[0], first[1..] + next, W2);
      HeadFirst(first, next);
    }
  }

  /** Neither file is what was stored, when chunk 0 stems from f, chunk i from g, and they differ in both. */
  lemma NeitherAgrees(t: Task, writer: map<ChunkKey, seq<byte>>, id: string, f: seq<byte>, g: seq<byte>, i: nat)
    requires TaskOk(t) && |f| == |g| == t.size && 0 < i < Pieces(t)
    requires Slice(f, t.chunk, 0) != Slice(g, t.chunk, 0) && Slice(f, t.chunk, i) != Slice(g, t.chunk, i)
    requires (id, 0) in writer && writer[(id, 0)] == f && (id, i) in writer && writer[(id, i)] == g
    ensures !WritersAgree(t, writer, id, f) && !WritersAgree(t, writer, id, g)
  {
    assert Written(t, writer, id, i) && Written(t, writer, id, 0);
  }

  /** For every chunk size and any two files of one size that differ in the first chunk and in another
      one: an attempt for f sends the first chunk and is interrupted, an attempt for g under the same
      resume key sends the rest, all its workers finish, and the completion succeeds; what is stored is
      neither file. */
  lemma SameNameAndSizeMix(t: Task, W0: World, f: seq<byte>, g: seq<byte>, i: nat,
                           filename: string, id: string, now: int, name: string)
      returns (actions: seq<Action>, W: World)
    requires TaskOk(t) && (forall x :: t.h(x) != "") && Untouched(W0) && CanOpen(t, W0.server, filename, id, name)
    requires |f| == |g| == t.size && 0 < i < Pieces(t)
    requires Slice(f, t.chunk, 0) != Slice(g, t.chunk, 0) && Slice(f, t.chunk, i) != Slice(g, t.chunk, i)
    ensures Happens(t, W0, actions, W)
    ensures |W.attempts| == 2 && W.attempts[0].file == f && W.attempts[1].file == g && AllFinished(W.attempts[1])
    ensures var c := Complete(t.user, id, now, now, name, AllWork);
            && Possible(t, W, Finish(1, c, true))
            && var (s', r) := HandleComplete(W.server, c);
               r.CompleteOk? && !StoredAs(s', r.fileId, t.user, f) && !StoredAs(s', r.fileId, t.user, g)
  {
    var first, W1 := InterruptedUpload(t, W0, f, filename, id, now, name);
    var resume := Resume(AskProgress(t.user, id, now, AllWork), g, true);
    ResumedIsPromising(t, W1, g, id, now, name);
    var W2 := Act(t, W1, resume);
    var rest;
    rest, W := CanAlwaysFinish(t, W2, 1, now, name);
    HappensNext(t, W1, resume, rest, W);
    HappensOn(t, W0, first, W1, [resume] + rest, W);
    actions := first + ([resume] + rest);
    EveryRunIsSound(t, W0, actions, W);
    ResumeWritesTheRest(t, W2, W, g, id);
    NeitherAgrees(t, W.writer, id, f, g, i);
    var c := Complete(t.user, id, now, now, name, AllWork);
    assert Informed(t, W, W.attempts[1]);
    CompletedUploadIsTheFileIff(t, f, W0, actions, W, c);
    CompletedUploadIsTheFileIff(t, g, W0, actions, W, c);
  }
}
