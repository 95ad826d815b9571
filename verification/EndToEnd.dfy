/** The whole protocol: any number of attempts of one client behind one resume key, over a network that
    loses, repeats, delays and damages requests, against a server that also serves everyone else. The
    key is a name and a size, so different attempts may send different files of that size. */
module EndToEnd {
  import opened Common
  import opened Chunking
  import opened UploadModel
  import opened UploadInvariants
  import opened UploadClient

  /** What a resume key fixes: the size of the file, the client's chunk size, the user who uploads. */
  datatype Task = Task(h: Hash, size: nat, chunk: nat, user: int)

  ghost predicate TaskOk(t: Task) {
    t.size > 0 && t.chunk > 0 && t.user > 0
  }

  function Pieces(t: Task): nat
    requires t.chunk > 0
  {
    CeilDiv(t.size, t.chunk)
  }

  /** `resume`: the localStorage entry; `ours`: the upload ids the server ever created for this key;
      `writer`: the file whose attempt last wrote a chunk file. */
  datatype World = World(server: State, resume: Option<string>, attempts: seq<Attempt>, ours: set<string>,
                         writer: map<ChunkKey, seq<byte>>)

  /** A chunk request made for a file, as the server sees it: the index and the hash are those of a
      slice of the file, the body may have been cut or damaged on the way. A damaged body that still
      hashes to the slice's hash is ruled out (SHA-256 is assumed free of such collisions). */
  ghost predicate FromClient(t: Task, file: seq<byte>, c: Call)
    requires TaskOk(t)
  {
    && |file| == t.size && c.Chunk? && 0 <= c.index < Pieces(t)
    && var slice := Slice(file, t.chunk, c.index);
    && c.hash == t.h(slice) && c.hash != ""
    && (t.h(c.body) == c.hash ==> c.body == slice)
  }

  datatype Action =
    | Foreign(c: Call)                          // any other request, by anyone
    | Stray(k: nat, c: Call)                    // a late or repeated chunk request, its answer unheard
    | Open(c: Call, file: seq<byte>, heard: bool)     // upload/init
    | Resume(c: Call, file: seq<byte>, heard: bool)   // upload/progress for the saved upload id
    | TakeNext(k: nat, w: nat)
    | Post(k: nat, w: nat, c: Call, heard: bool)
    | GiveUp(k: nat, w: nat)                    // aborted, cancelled, or the request never arrived
    | Finish(k: nat, c: Call, heard: bool)      // upload/complete after Promise.all
    | Abandon(c: Call)                          // upload/cancel

  ghost function CallOf(a: Action): Option<Call> {
    match a
    case Foreign(c) => Some(c)
    case Stray(_, c) => Some(c)
    case Open(c, _, _) => Some(c)
    case Resume(c, _, _) => Some(c)
    case Post(_, _, c, _) => Some(c)
    case Finish(_, c, _) => Some(c)
    case Abandon(c) => Some(c)
    case _ => None
  }

  ghost predicate Possible(t: Task, W: World, a: Action)
    requires TaskOk(t)
  {
    && (CallOf(a).Some? ==> Fresh(W.server, CallOf(a).value))
    && match a
       case Foreign(c) => !(c.Chunk? && c.user == t.user && c.id in W.ours)
       case Stray(k, c) =>
         k < |W.attempts| && FromClient(t, W.attempts[k].file, c) && c.user == t.user && c.id == W.attempts[k].uploadId
       case Open(c, file, _) =>
         |file| == t.size && c.Init? && c.user == t.user && c.size == t.size && c.chunks == Pieces(t)
       case Resume(c, file, _) => |file| == t.size && c.AskProgress? && c.user == t.user && W.resume == Some(c.id)
       case TakeNext(k, w) => k < |W.attempts| && Enabled(W.attempts[k], Next(w))
       case Post(k, w, c, _) =>
         && k < |W.attempts| && Enabled(W.attempts[k], Answer(w, true))
         && FromClient(t, W.attempts[k].file, c) && c.user == t.user
         && c.id == W.attempts[k].uploadId && c.index == W.attempts[k].workers[w].index
       case GiveUp(k, w) => k < |W.attempts| && Enabled(W.attempts[k], Answer(w, false))
       case Finish(k, c, _) =>
         k < |W.attempts| && AllFinished(W.attempts[k]) && c.Complete? && c.user == t.user && c.id == W.attempts[k].uploadId
       case Abandon(c) => c.Cancel? && c.user == t.user
  }

  /** The chunk file that the request writes, if it gets that far, now stems from this file. */
  ghost function Writers(h: Hash, W: World, file: seq<byte>, c: Call): map<ChunkKey, seq<byte>>
    requires c.Chunk?
  {
    if WritesChunk(h, W.server, c) then W.writer[(c.id, c.index) := file] else W.writer
  }

  ghost function Act(t: Task, W: World, a: Action): World
    requires TaskOk(t) && Possible(t, W, a)
  {
    match a
    case Foreign(c) => W.(server := Step(t.h, W.server, c).0)
    case Stray(k, c) => W.(server := Step(t.h, W.server, c).0, writer := Writers(t.h, W, W.attempts[k].file, c))
    case Open(c, file, heard) =>
      var (s', r) := Step(t.h, W.server, c);
      if !r.InitOk? then W.(server := s')
      else if !heard then W.(server := s', ours := W.ours + {c.id})
      else World(s', Some(c.id), W.attempts + [Start(file, c.id, Pieces(t), {})], W.ours + {c.id}, W.writer)
    case Resume(c, file, heard) =>
      var (s', r) := Step(t.h, W.server, c);
      if heard && r.ProgressOk? then W.(server := s', attempts := W.attempts + [Start(file, c.id, Pieces(t), AsSet(r.indices))])
      else W.(server := s', resume := None)
    case TakeNext(k, w) => W.(attempts := W.attempts[k := Advance(W.attempts[k], Next(w))])
    case Post(k, w, c, heard) =>
      var (s', r) := Step(t.h, W.server, c);
      W.(server := s', attempts := W.attempts[k := Advance(W.attempts[k], Answer(w, heard && r.ChunkOk?))],
         writer := Writers(t.h, W, W.attempts[k].file, c))
    case GiveUp(k, w) => W.(attempts := W.attempts[k := Advance(W.attempts[k], Answer(w, false))])
    case Finish(k, c, heard) =>
      var (s', r) := Step(t.h, W.server, c);
      W.(server := s', resume := if heard && r.CompleteOk? then None else W.resume)
    case Abandon(c) => W.(server := Step(t.h, W.server, c).0, resume := None)
  }

  // ---- the server holds slices ----

  /** A session of ours declares the key's size and chunk count. */
  ghost predicate Declares(t: Task, s: State, id: string)
    requires TaskOk(t)
  {
    && id in s.db.sessions
    && s.db.sessions[id].userId == t.user
    && s.db.sessions[id].totalChunks == Pieces(t)
    && s.db.sessions[id].fileSize == t.size
  }

  /** Chunk i of the upload was last written by an attempt for a file of the key's size. */
  ghost predicate Written(t: Task, writer: map<ChunkKey, seq<byte>>, id: string, i: int)
    requires TaskOk(t)
  {
    0 <= i < Pieces(t) && (id, i) in writer && |writer[(id, i)]| == t.size
  }

  /** Whatever chunk files a session of ours has are slices of the files they were last written for. */
  ghost predicate HoldsSlices(t: Task, temp: map<ChunkKey, seq<byte>>, writer: map<ChunkKey, seq<byte>>, id: string)
    requires TaskOk(t)
  {
    forall i :: (id, i) in temp ==>
      Written(t, writer, id, i) && temp[(id, i)] == Slice(writer[(id, i)], t.chunk, i)
  }

  /** How many bytes chunk i of the upload has. */
  function PieceSize(t: Task, i: nat): int {
    SliceEnd(t.size, t.chunk, i) - i * t.chunk
  }

  /** The recorded chunks have the sizes of the key's slices. */
  ghost predicate RowsFit(t: Task, chunks: map<ChunkKey, ChunkRow>, id: string)
    requires TaskOk(t)
  {
    forall i :: (id, i) in chunks ==> 0 <= i < Pieces(t) && chunks[(id, i)].size == PieceSize(t, i)
  }

  /** A chunk call gets as far as writing its chunk file. */
  ghost predicate WritesChunk(h: Hash, s: State, c: Call)
    requires c.Chunk?
  {
    && c.user != -1
    && var p := GetProgress(s, c.id, c.user, c.now, c.w.progress, c.w.count, c.w.list);
    && p.Found? && !p.expired && p.status == Uploading
    && c.w.lookup && c.w.open && ChunkAccepted(h, s, c.id, c.index, c.hash, c.body, c.later)
  }

  /** What a call may do to chunk files: write the one it sends, or drop some. */
  ghost predicate TempMoves(h: Hash, s: State, c: Call, s': State) {
    if c.Chunk? && WritesChunk(h, s, c) then s'.temp == s.temp[(c.id, c.index) := c.body]
    else forall k | k in s'.temp :: k in s.temp && s'.temp[k] == s.temp[k]
  }

  lemma ChunkMovesTemp(h: Hash, s: State, c: Call)
    requires c.Chunk?
    ensures TempMoves(h, s, c, HandleChunk(h, s, c).0)
  {
  }

  lemma StepMovesTemp(h: Hash, s: State, c: Call)
    requires WellFormed(s)
    ensures TempMoves(h, s, c, Step(h, s, c).0)
  {
    match c
    case Init(_, _, _, _, _, _, _, _) =>
    case Chunk(_, _, _, _, _, _, _, _) => ChunkMovesTemp(h, s, c);
    case AskProgress(_, _, _, _) =>
    case Complete(_, _, _, _, _, _) => CompleteIsAllOrNothing(s, c);
    case Cancel(_, _, _, _) =>
    case Upload(_, _, _, _, _) => DirectUploadFrame(s, c);
    case Delete(_, _, _) => DeleteFrame(s, c);
  }

  /** What a call may do to chunk rows: record the chunk it wrote. */
  ghost predicate RowsMove(h: Hash, s: State, c: Call, s': State) {
    || s'.db.chunks == s.db.chunks
    || (&& c.Chunk? && WritesChunk(h, s, c)
        && s'.db.chunks == s.db.chunks[(c.id, c.index) := ChunkRow(h(c.body), |c.body|)])
  }

  lemma ChunkMovesRows(h: Hash, s: State, c: Call)
    requires c.Chunk?
    ensures RowsMove(h, s, c, HandleChunk(h, s, c).0)
  {
  }

  lemma StepMovesRows(h: Hash, s: State, c: Call)
    requires WellFormed(s)
    ensures RowsMove(h, s, c, Step(h, s, c).0)
  {
    match c
    case Init(_, _, _, _, _, _, _, _) =>
    case Chunk(_, _, _, _, _, _, _, _) => ChunkMovesRows(h, s, c);
    case AskProgress(_, _, _, _) =>
    case Complete(_, _, _, _, _, _) => CompleteIsAllOrNothing(s, c);
    case Cancel(_, _, _, _) =>
    case Upload(_, _, _, _, _) => DirectUploadFrame(s, c);
    case Delete(_, _, _) => DeleteFrame(s, c);
  }

  lemma StepKeepsRowsFit(t: Task, s: State, c: Call, file: seq<byte>, id: string)
    requires TaskOk(t) && WellFormed(s) && RowsFit(t, s.db.chunks, id)
    requires c.Chunk? && c.id == id && WritesChunk(t.h, s, c) ==> FromClient(t, file, c)
    ensures RowsFit(t, Step(t.h, s, c).0.db.chunks, id)
  {
    StepMovesRows(t.h, s, c);
    if c.Chunk? && c.id == id && WritesChunk(t.h, s, c) {
      BodyIsSlice(t, s, file, c);
    }
    RecordingKeepsRowsFit(t, s, c, Step(t.h, s, c).0, id);
  }

  /** A body that passed the hash check is the slice, with its size. */
  lemma BodyIsSlice(t: Task, s: State, file: seq<byte>, c: Call)
    requires TaskOk(t) && FromClient(t, file, c) && WritesChunk(t.h, s, c)
    ensures 0 <= c.index < Pieces(t) && |c.body| == PieceSize(t, c.index)
  {
    SliceBounds(t.size, t.chunk, c.index);
  }

  lemma RecordingKeepsRowsFit(t: Task, s: State, c: Call, s': State, id: string)
    requires TaskOk(t) && RowsFit(t, s.db.chunks, id) && RowsMove(t.h, s, c, s')
    requires c.Chunk? && c.id == id && WritesChunk(t.h, s, c) ==> 0 <= c.index < Pieces(t) && |c.body| == PieceSize(t, c.index)
    ensures RowsFit(t, s'.db.chunks, id)
  {
  }

  /** A request of a stranger to the upload writes no chunk file of it. */
  lemma StrangerWritesNothing(t: Task, s: State, c: Call, id: string)
    requires TaskOk(t) && WellFormed(s) && Declares(t, s, id)
    requires c.Chunk? && c.id == id ==> c.user != t.user
    ensures c.Chunk? && c.id == id ==> !WritesChunk(t.h, s, c)
  {
  }

  /** A call that writes no chunk file of the upload keeps its slices. */
  lemma OthersKeepSlices(t: Task, s: State, c: Call, writer: map<ChunkKey, seq<byte>>, id: string)
    requires TaskOk(t) && WellFormed(s) && HoldsSlices(t, s.temp, writer, id)
    requires c.Chunk? && c.id == id ==> !WritesChunk(t.h, s, c)
    ensures HoldsSlices(t, Step(t.h, s, c).0.temp, writer, id)
  {
    StepMovesTemp(t.h, s, c);
  }

  /** A chunk request made for a file leaves a slice of that file. */
  lemma ChunkKeepsSlices(t: Task, W: World, file: seq<byte>, c: Call, id: string)
    requires TaskOk(t) && WellFormed(W.server) && HoldsSlices(t, W.server.temp, W.writer, id)
    requires FromClient(t, file, c)
    ensures HoldsSlices(t, Step(t.h, W.server, c).0.temp, Writers(t.h, W, file, c), id)
  {
    StepMovesTemp(t.h, W.server, c);
  }

  // ---- what the client knows is true ----

  /** An attempt's bookkeeping is sound, and every chunk it counts is recorded on the server. */
  ghost predicate Informed(t: Task, W: World, a: Attempt)
    requires TaskOk(t)
  {
    && |a.file| == t.size && a.uploadId in W.ours && a.total == Pieces(t) && Partitioned(a) && Tidy(a)
    && forall i | i in a.already + a.acked :: (a.uploadId, i) in W.server.db.chunks
  }

  /** Some attempt sends this file. */
  ghost predicate SentBySome(attempts: seq<Attempt>, file: seq<byte>) {
    exists k :: 0 <= k < |attempts| && attempts[k].file == file
  }

  ghost predicate WritersKnown(attempts: seq<Attempt>, writer: map<ChunkKey, seq<byte>>) {
    forall key | key in writer :: SentBySome(attempts, writer[key])
  }

  lemma WritersStayKnown(attempts: seq<Attempt>, more: seq<Attempt>, writer: map<ChunkKey, seq<byte>>)
    requires WritersKnown(attempts, writer) && |attempts| <= |more|
    requires forall k | 0 <= k < |attempts| :: more[k].file == attempts[k].file
    ensures WritersKnown(more, writer)
  {
    forall key | key in writer ensures SentBySome(more, writer[key]) {
      var k :| 0 <= k < |attempts| && attempts[k].file == writer[key];
      assert more[k].file == writer[key];
    }
  }

  ghost predicate Sound(t: Task, W: World)
    requires TaskOk(t)
  {
    && WellFormed(W.server)
    && (forall id | id in W.ours ::
          Declares(t, W.server, id) && RowsFit(t, W.server.db.chunks, id) && HoldsSlices(t, W.server.temp, W.writer, id))
    && (forall k | 0 <= k < |W.attempts| :: Informed(t, W, W.attempts[k]))
    && WritersKnown(W.attempts, W.writer)
    && (W.resume.Some? ==> W.resume.value in W.ours)
  }

  /** Whatever the server does, what the client counts stays recorded and its sessions keep slices. */
  lemma ServerStepKeepsSound(t: Task, W: World, c: Call)
    requires TaskOk(t) && Sound(t, W) && Fresh(W.server, c)
    requires !(c.Chunk? && c.user == t.user && c.id in W.ours)
    ensures Sound(t, W.(server := Step(t.h, W.server, c).0))
  {
    var W' := W.(server := Step(t.h, W.server, c).0);
    StepKeepsWellFormed(t.h, W.server, c);
    forall id | id in W.ours
      ensures Declares(t, W'.server, id) && RowsFit(t, W'.server.db.chunks, id) && HoldsSlices(t, W'.server.temp, W.writer, id)
    {
      StepMovesStatus(t.h, W.server, c, id);
      StrangerWritesNothing(t, W.server, c, id);
      OthersKeepSlices(t, W.server, c, W.writer, id);
      StepKeepsRowsFit(t, W.server, c, [], id);
    }
    ServerStepKeepsInformed(t, W, c, W.writer);
  }

  lemma ServerStepKeepsInformed(t: Task, W: World, c: Call, writer: map<ChunkKey, seq<byte>>)
    requires TaskOk(t) && Sound(t, W) && Fresh(W.server, c)
    ensures forall k | 0 <= k < |W.attempts| ::
              Informed(t, W.(server := Step(t.h, W.server, c).0, writer := writer), W.attempts[k])
  {
    forall k | 0 <= k < |W.attempts|
      ensures Informed(t, W.(server := Step(t.h, W.server, c).0, writer := writer), W.attempts[k])
    {
      assert Informed(t, W, W.attempts[k]);
      StepMovesStatus(t.h, W.server, c, W.attempts[k].uploadId);
    }
  }

  /** A chunk request of an attempt, too. */
  lemma ChunkStepKeepsSound(t: Task, W: World, k: nat, c: Call)
    requires TaskOk(t) && Sound(t, W) && k < |W.attempts| && FromClient(t, W.attempts[k].file, c)
    ensures Sound(t, W.(server := Step(t.h, W.server, c).0, writer := Writers(t.h, W, W.attempts[k].file, c)))
  {
    var writer := Writers(t.h, W, W.attempts[k].file, c);
    StepKeepsWellFormed(t.h, W.server, c);
    forall id | id in W.ours
      ensures Declares(t, Step(t.h, W.server, c).0, id) && RowsFit(t, Step(t.h, W.server, c).0.db.chunks, id)
      ensures HoldsSlices(t, Step(t.h, W.server, c).0.temp, writer, id)
    {
      StepMovesStatus(t.h, W.server, c, id);
      StepKeepsRowsFit(t, W.server, c, W.attempts[k].file, id);
      ChunkKeepsSlices(t, W, W.attempts[k].file, c, id);
    }
    ServerStepKeepsInformed(t, W, c, writer);
  }

  lemma NewAttemptKeepsSound(t: Task, W: World, file: seq<byte>, id: string, completed: set<int>, resume: Option<string>)
    requires TaskOk(t) && Sound(t, W) && |file| == t.size && id in W.ours && completed <= Below(Pieces(t))
    requires forall i | i in completed :: (id, i) in W.server.db.chunks
    requires resume.Some? ==> resume.value in W.ours
    ensures Sound(t, W.(resume := resume, attempts := W.attempts + [Start(file, id, Pieces(t), completed)]))
  {
    StartPartitions(file, id, Pieces(t), completed);
    var W' := W.(resume := resume, attempts := W.attempts + [Start(file, id, Pieces(t), completed)]);
    WritersStayKnown(W.attempts, W'.attempts, W.writer);
    forall k | 0 <= k < |W'.attempts| ensures Informed(t, W', W'.attempts[k]) {
      if k < |W.attempts| {
        assert Informed(t, W, W.attempts[k]);
      }
    }
  }

  lemma AdvanceKeepsInformed(t: Task, W: World, W': World, a: Attempt, e: Event)
    requires TaskOk(t) && Informed(t, W, a) && Enabled(a, e)
    requires W'.server == W.server && W'.ours == W.ours
    requires e.Answer? && e.ok ==> (a.uploadId, a.workers[e.w].index) in W.server.db.chunks
    ensures Informed(t, W', Advance(a, e))
  {
    AdvanceKeepsPartition(a, e);
    AdvanceKeepsTidy(a, e);
  }

  lemma AdvanceKeepsSound(t: Task, W: World, k: nat, e: Event)
    requires TaskOk(t) && Sound(t, W) && k < |W.attempts| && Enabled(W.attempts[k], e)
    requires e.Answer? && e.ok ==> (W.attempts[k].uploadId, W.attempts[k].workers[e.w].index) in W.server.db.chunks
    ensures Sound(t, W.(attempts := W.attempts[k := Advance(W.attempts[k], e)]))
  {
    assert Informed(t, W, W.attempts[k]);
    var W' := W.(attempts := W.attempts[k := Advance(W.attempts[k], e)]);
    AdvanceKeepsInformed(t, W, W', W.attempts[k], e);
    WritersStayKnown(W.attempts, W'.attempts, W.writer);
    forall j | 0 <= j < |W'.attempts| ensures Informed(t, W', W'.attempts[j]) {
      if j != k {
        assert Informed(t, W, W.attempts[j]);
      }
    }
  }

  /** A session that was just opened has no chunk row and no chunk file. */
  lemma OpenedIsOurs(t: Task, W: World, c: Call)
    requires TaskOk(t) && Sound(t, W) && Fresh(W.server, c)
    requires c.Init? && c.user == t.user && c.size == t.size && c.chunks == Pieces(t)
    requires HandleInit(W.server, c).1.InitOk?
    ensures Sound(t, W.(server := HandleInit(W.server, c).0, ours := W.ours + {c.id}))
  {
    ServerStepKeepsSound(t, W, c);
    var s' := HandleInit(W.server, c).0;
    var W' := W.(server := s', ours := W.ours + {c.id});
    forall key | key in W.server.temp ensures key.0 != c.id {
      assert InRange(W.server.db.sessions, key);
    }
    forall key | key in W.server.db.chunks ensures key.0 != c.id {
      assert InRange(W.server.db.sessions, key);
    }
    assert s'.temp == W.server.temp && s'.db.chunks == W.server.db.chunks;
    assert Declares(t, s', c.id) && HoldsSlices(t, s'.temp, W.writer, c.id);
    forall k | 0 <= k < |W.attempts| ensures Informed(t, W', W.attempts[k]) {
      assert Informed(t, W.(server := s'), W.attempts[k]);
    }
  }

  lemma OpenKeepsSound(t: Task, W: World, c: Call, file: seq<byte>, heard: bool)
    requires TaskOk(t) && Sound(t, W) && Possible(t, W, Open(c, file, heard))
    ensures Sound(t, Act(t, W, Open(c, file, heard)))
  {
    var (s', r) := Step(t.h, W.server, c);
    if r.InitOk? {
      OpenedIsOurs(t, W, c);
      NewAttemptKeepsSound(t, W.(server := s', ours := W.ours + {c.id}), file, c.id, {}, Some(c.id));
    } else {
      ServerStepKeepsSound(t, W, c);
    }
  }

  lemma ProgressListsRecorded(t: Task, W: World, c: Call)
    requires TaskOk(t) && Sound(t, W) && c.AskProgress? && c.id in W.ours
    ensures var r := HandleProgress(W.server, c);
            r.ProgressOk? ==> AsSet(r.indices) <= Below(Pieces(t)) && forall i | i in AsSet(r.indices) :: (c.id, i) in W.server.db.chunks
  {
    assert Declares(t, W.server, c.id);
    CountDecidesCompleteness(W.server, c.id);
    ProgressListsIndices(W.server, c);
  }

  lemma ProgressListsIndices(s: State, c: Call)
    requires c.AskProgress?
    ensures var r := HandleProgress(s, c);
            r.ProgressOk? ==> c.id in s.db.sessions && AsSet(r.indices) == if c.w.list then Indices(s.db.chunks, c.id) else {}
  {
    InOrderIsSet(Indices(s.db.chunks, c.id));
  }

  lemma AcknowledgedIsRecorded(h: Hash, s: State, c: Call)
    requires WellFormed(s) && c.Chunk? && HandleChunk(h, s, c).1.ChunkOk?
    ensures (c.id, c.index) in HandleChunk(h, s, c).0.db.chunks
  {
    ChunkAcknowledgedIff(h, s, c);
  }

  lemma ResumeKeepsSound(t: Task, W: World, c: Call, file: seq<byte>, heard: bool)
    requires TaskOk(t) && Sound(t, W) && Possible(t, W, Resume(c, file, heard))
    ensures Sound(t, Act(t, W, Resume(c, file, heard)))
  {
    ProgressListsRecorded(t, W, c);
    var r := HandleProgress(W.server, c);
    if heard && r.ProgressOk? {
      NewAttemptKeepsSound(t, W, file, c.id, AsSet(r.indices), W.resume);
    }
  }

  lemma PostKeepsSound(t: Task, W: World, k: nat, w: nat, c: Call, heard: bool)
    requires TaskOk(t) && Sound(t, W) && Possible(t, W, Post(k, w, c, heard))
    ensures Sound(t, Act(t, W, Post(k, w, c, heard)))
  {
    ChunkStepKeepsSound(t, W, k, c);
    var (s', r) := Step(t.h, W.server, c);
    if r.ChunkOk? {
      AcknowledgedIsRecorded(t.h, W.server, c);
    }
    AdvanceKeepsSound(t, W.(server := s', writer := Writers(t.h, W, W.attempts[k].file, c)), k, Answer(w, heard && r.ChunkOk?));
  }

  lemma RequestKeepsSound(t: Task, W: World, a: Action)
    requires TaskOk(t) && Sound(t, W) && Possible(t, W, a)
    requires a.Foreign? || a.Finish? || a.Abandon?
    ensures Sound(t, Act(t, W, a))
  {
    ServerStepKeepsSound(t, W, a.c);
    ForgettingKeepsSound(t, W.(server := Step(t.h, W.server, a.c).0));
    if a.Foreign? {
      assert Act(t, W, a) == W.(server := Step(t.h, W.server, a.c).0);
    }
  }

  lemma ForgettingKeepsSound(t: Task, W: World)
    requires TaskOk(t) && Sound(t, W)
    ensures Sound(t, W.(resume := None))
  {
    forall k | 0 <= k < |W.attempts| ensures Informed(t, W.(resume := None), W.attempts[k]) {
      assert Informed(t, W, W.attempts[k]);
    }
  }

  lemma ActKeepsSound(t: Task, W: World, a: Action)
    requires TaskOk(t) && Sound(t, W) && Possible(t, W, a)
    ensures Sound(t, Act(t, W, a))
  {
    match a
    case Stray(k, c) => ChunkStepKeepsSound(t, W, k, c);
    case Open(c, file, heard) => OpenKeepsSound(t, W, c, file, heard);
    case Resume(c, file, heard) => ResumeKeepsSound(t, W, c, file, heard);
    case TakeNext(k, w) => AdvanceKeepsSound(t, W, k, Next(w));
    case Post(k, w, c, heard) => PostKeepsSound(t, W, k, w, c, heard);
    case GiveUp(k, w) => AdvanceKeepsSound(t, W, k, Answer(w, false));
    case _ => RequestKeepsSound(t, W, a);
  }

  ghost predicate Happens(t: Task, W: World, actions: seq<Action>, W': World)
    requires TaskOk(t)
    decreases |actions|
  {
    if actions == [] then W == W'
    else Possible(t, W, actions[0]) && Happens(t, Act(t, W, actions[0]), actions[1..], W')
  }

  /** Before the client ever used this key: the server may hold anything that is well formed. */
  ghost predicate Untouched(W: World) {
    WellFormed(W.server) && W.resume == None && W.attempts == [] && W.ours == {} && W.writer == map[]
  }

  lemma {:induction false} EveryRunIsSound(t: Task, W: World, actions: seq<Action>, W': World)
    requires TaskOk(t) && Sound(t, W) && Happens(t, W, actions, W')
    ensures Sound(t, W')
    decreases |actions|
  {
    if actions != [] {
      ActKeepsSound(t, W, actions[0]);
      EveryRunIsSound(t, Act(t, W, actions[0]), actions[1..], W');
    }
  }

  // ---- main theorems ----

  ghost predicate StoredAs(s: State, fileId: int, user: int, bytes: seq<byte>) {
    && fileId in s.db.files
    && s.db.files[fileId].userId == user
    && s.db.files[fileId].size == |bytes|
    && s.db.files[fileId].path in s.stored
    && s.stored[s.db.files[fileId].path] == bytes
  }

  // two sequences of pieces of the same lengths have the same concatenation only if they are equal
  lemma {:induction false} SamePartsIff(a: seq<seq<byte>>, b: seq<seq<byte>>)
    requires |a| == |b| && forall i | 0 <= i < |a| :: |a[i]| == |b[i]|
    ensures Concat(a) == Concat(b) <==> a == b
  {
    if a != [] {
      SamePartsIff(a[1..], b[1..]);
      assert a == [a[0]] + a[1..] && b == [b[0]] + b[1..];
      if Concat(a) == Concat(b) {
        assert Concat(a)[..|a[0]|] == a[0] && Concat(b)[..|a[0]|] == b[0];
        assert Concat(a)[|a[0]|..] == Concat(a[1..]) && Concat(b)[|a[0]|..] == Concat(b[1..]);
      }
    }
  }

  lemma SlicesAgreeInLength(file: seq<byte>, other: seq<byte>, chunk: nat, i: nat)
    requires chunk > 0 && |file| == |other| && i < CeilDiv(|file|, chunk)
    ensures |Slice(file, chunk, i)| == |Slice(other, chunk, i)|
  {
    SliceBounds(|file|, chunk, i);
  }

  /** Wherever a chunk was last written by an attempt for another file, that file has the same slice. */
  ghost predicate WritersAgree(t: Task, writer: map<ChunkKey, seq<byte>>, id: string, file: seq<byte>)
    requires TaskOk(t) && |file| == t.size
  {
    forall i | 0 <= i < Pieces(t) ::
      Written(t, writer, id, i) && (writer[(id, i)] != file ==> Slice(writer[(id, i)], t.chunk, i) == Slice(file, t.chunk, i))
  }

  /** The merge of a session that holds slices is a file exactly when the files it was written for
      agree with it there. */
  lemma MergedSlicesAreTheFileIff(t: Task, W: World, id: string, file: seq<byte>)
    requires TaskOk(t) && |file| == t.size && HoldsSlices(t, W.server.temp, W.writer, id)
    requires Merge(W.server.temp, id, 0, Pieces(t)).1
    ensures Merge(W.server.temp, id, 0, Pieces(t)).0 == file <==> WritersAgree(t, W.writer, id, file)
  {
    var n := Pieces(t);
    MergeIsConcat(W.server.temp, id, 0, n);
    SlicesTileTheFile(file, t.chunk);
    var parts := ChunkFiles(W.server.temp, id, 0, n);
    var slices := Slices(file, t.chunk);
    forall i | 0 <= i < n ensures |parts[i]| == |slices[i]| && Written(t, W.writer, id, i) {
      assert (id, i) in W.server.temp;
      SlicesAgreeInLength(W.writer[(id, i)], file, t.chunk, i);
    }
    SamePartsIff(parts, slices);
    if WritersAgree(t, W.writer, id, file) {
      assert forall i | 0 <= i < n :: parts[i] == slices[i];
    }
    if parts == slices {
      forall i | 0 <= i < n ensures W.server.temp[(id, i)] == Slice(file, t.chunk, i) {
        assert parts[i] == slices[i];
      }
    }
  }

  /** A completion that succeeds merged all chunks and stored the result. */
  lemma CompletionStoresMerge(t: Task, s: State, c: Call, file: seq<byte>)
    requires TaskOk(t) && WellFormed(s) && c.Complete? && Declares(t, s, c.id) && |file| == t.size
    requires HandleComplete(s, c).1.CompleteOk?
    ensures var (s', r) := HandleComplete(s, c);
            && c.user == t.user && r.size == t.size && Merge(s.temp, c.id, 0, Pieces(t)).1
            && (StoredAs(s', r.fileId, t.user, file) <==> Merge(s.temp, c.id, 0, Pieces(t)).0 == file)
  {
    CompleteIsAllOrNothing(s, c);
  }

  /** End to end: in every reachable world, if a completion of an upload under this key succeeds, the
      recorded size is the key's, and what is stored is a given file of that size exactly when that file
      has the same slice wherever a chunk was last written by an attempt for another file. */
  lemma CompletedUploadIsTheFileIff(t: Task, file: seq<byte>, W0: World, actions: seq<Action>, W: World, c: Call)
    requires TaskOk(t) && |file| == t.size && Untouched(W0) && Happens(t, W0, actions, W)
    requires c.Complete? && c.id in W.ours && Fresh(W.server, c)
    ensures var (s', r) := Step(t.h, W.server, c);
            r.CompleteOk? ==>
              && c.user == t.user && r.size == t.size
              && (StoredAs(s', r.fileId, t.user, file) <==> WritersAgree(t, W.writer, c.id, file))
  {
    EveryRunIsSound(t, W0, actions, W);
    if Step(t.h, W.server, c).1.CompleteOk? {
      CompletionStoresMerge(t, W.server, c, file);
      MergedSlicesAreTheFileIff(t, W, c.id, file);
    }
  }

  /** In particular, when every attempt behind the key sends the same file, that file is what is stored. */
  lemma CompletedUploadIsTheFile(t: Task, file: seq<byte>, W0: World, actions: seq<Action>, W: World, c: Call)
    requires TaskOk(t) && |file| == t.size && Untouched(W0) && Happens(t, W0, actions, W)
    requires forall k | 0 <= k < |W.attempts| :: W.attempts[k].file == file
    requires c.Complete? && c.id in W.ours && Fresh(W.server, c)
    ensures var (s', r) := Step(t.h, W.server, c);
            r.CompleteOk? ==> c.user == t.user && r.size == |file| && StoredAs(s', r.fileId, t.user, file)
  {
    EveryRunIsSound(t, W0, actions, W);
    CompletedUploadIsTheFileIff(t, file, W0, actions, W, c);
    if Step(t.h, W.server, c).1.CompleteOk? {
      EveryChunkWasWritten(t, W, c);
      forall i | 0 <= i < Pieces(t) ensures W.writer[(c.id, i)] == file {
        assert Written(t, W.writer, c.id, i);
        assert SentBySome(W.attempts, W.writer[(c.id, i)]);
      }
    }
  }

  lemma EveryChunkWasWritten(t: Task, W: World, c: Call)
    requires TaskOk(t) && Sound(t, W) && c.Complete? && c.id in W.ours && HandleComplete(W.server, c).1.CompleteOk?
    ensures forall i | 0 <= i < Pieces(t) :: Written(t, W.writer, c.id, i)
  {
    CompletionStoresMerge(t, W.server, c, seq(t.size, _ => 0));
    MergeIsConcat(W.server.temp, c.id, 0, Pieces(t));
    assert HoldsSlices(t, W.server.temp, W.writer, c.id);
    forall i | 0 <= i < Pieces(t) ensures Written(t, W.writer, c.id, i) {
      assert (c.id, i) in W.server.temp;
    }
  }
}
