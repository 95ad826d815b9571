/** What every run of handler calls keeps: the tables fit together, the count check is sound, and a
    session's status only moves from uploading to one of two final states. */
module UploadInvariants {
  import opened Common
  import opened Chunking
  import opened UploadModel

  /** The names a call draws (upload_id, unique filename) have not been drawn before. */
  ghost predicate Fresh(s: State, c: Call) {
    match c
    case Init(_, _, _, _, _, id, _, _) => id != "" && id !in s.db.sessions
    case Complete(user, _, _, _, name, _) => PathUnused(s, (user, name))
    case Upload(user, _, _, name, _) => PathUnused(s, (user, name))
    case _ => true
  }

  ghost predicate PathUnused(s: State, path: Path) {
    path !in s.stored && forall f | f in s.db.files :: s.db.files[f].path != path
  }

  ghost predicate FreshRun(h: Hash, s: State, calls: seq<Call>)
    decreases |calls|
  {
    calls != [] ==> Fresh(s, calls[0]) && FreshRun(h, Step(h, s, calls[0]).0, calls[1..])
  }

  // ---- the tables fit together ----

  ghost predicate InRange(sessions: map<string, SessionRow>, k: ChunkKey) {
    k.0 in sessions && 0 <= k.1 < sessions[k.0].totalChunks
  }

  ghost predicate SessionSane(s: State, id: string)
    requires id in s.db.sessions
  {
    var row := s.db.sessions[id];
    id != "" && row.userId > 0 && row.userId in s.db.users && row.totalChunks > 0 && row.fileSize > 0
  }

  /** Foreign keys and range checks: every session has an owner and a positive size, every chunk row
      and every chunk file belongs to a session and has an index below its total. */
  ghost predicate WellFormed(s: State) {
    && (forall id | id in s.db.sessions :: SessionSane(s, id))
    && (forall k | k in s.db.chunks :: InRange(s.db.sessions, k))
    && (forall k | k in s.temp :: InRange(s.db.sessions, k))
  }

  /** A successful completion, in terms of the state before the call: the merged chunks are stored,
      a file row of the declared size is added and charged, the session is completed and its chunk
      files are gone. */
  ghost predicate Completed(s: State, c: Call, s': State, r: Reply)
    requires c.Complete?
  {
    && c.id in s.db.sessions
    && var session := s.db.sessions[c.id];
    && session.userId == c.user && session.status == Uploading && c.later < session.expiresAt
    && |Indices(s.db.chunks, c.id)| == session.totalChunks
    && Merge(s.temp, c.id, 0, session.totalChunks).1
    && c.user in s.db.users
    && r == CompleteOk(s.nextFileId, session.filename, session.fileSize)
    && s'.stored == s.stored[(c.user, c.name) := Merge(s.temp, c.id, 0, session.totalChunks).0]
    && s'.temp == DropTemp(s.temp, c.id)
    && s'.nextFileId == s.nextFileId + 1
    && s'.db == SetStatus(AddFile(s.db, s.nextFileId, CompletedRow(session, c.user, c.name)), c.id, UploadModel.Completed)
  }

  /** A failed completion: no table and no chunk file changes, whichever statement failed. When the
      merge had succeeded the merged file is unlinked too. */
  ghost predicate RolledBack(s: State, c: Call, s': State)
    requires c.Complete?
  {
    && s'.db == s.db && s'.temp == s.temp && s.nextFileId <= s'.nextFileId <= s.nextFileId + 1
    && s'.stored - {(c.user, c.name)} == s.stored - {(c.user, c.name)}
    && (c.id in s.db.sessions && Merge(s.temp, c.id, 0, s.db.sessions[c.id].totalChunks).1 && (c.user, c.name) !in s.stored
        ==> s'.stored == s.stored)
  }

  /** complete_upload is all or nothing, for every choice of failing statement. */
  lemma CompleteIsAllOrNothing(s: State, c: Call)
    requires c.Complete? && WellFormed(s)
    ensures var (s', r) := HandleComplete(s, c);
            if r.CompleteOk? then Completed(s, c, s', r) else RolledBack(s, c, s')
  {
    var p := GetProgress(s, c.id, c.user, c.now, c.w.progress, c.w.count, c.w.list);
    if c.user != -1 && c.id != "" && p.Found? && !p.expired && p.completedChunks == p.totalChunks {
      assert SessionSane(s, c.id);
      if ReadyToMerge(s, c.id, c.user, c.later, c.w) && c.w.open {
        var (bytes, whole) := Merge(s.temp, c.id, 0, s.db.sessions[c.id].totalChunks);
        if whole && !Commits(s, c.user, c.w) {
          assert s.stored[(c.user, c.name) := bytes] - {(c.user, c.name)} == s.stored - {(c.user, c.name)};
        }
      }
    }
  }

  lemma CompletedKeepsWellFormed(s: State, c: Call, s': State, r: Reply)
    requires WellFormed(s) && c.Complete? && Completed(s, c, s', r)
    ensures WellFormed(s')
  {
  }

  lemma InitKeepsWellFormed(s: State, c: Call)
    requires WellFormed(s) && c.Init? && Fresh(s, c)
    ensures WellFormed(HandleInit(s, c).0)
  {
  }

  lemma ChunkKeepsWellFormed(h: Hash, s: State, c: Call)
    requires WellFormed(s) && c.Chunk?
    ensures WellFormed(HandleChunk(h, s, c).0)
  {
  }

  lemma CancelKeepsWellFormed(s: State, c: Call)
    requires WellFormed(s) && c.Cancel?
    ensures WellFormed(HandleCancel(s, c).0)
  {
  }

  /** Direct uploads and deletions do not touch the tables and files of chunked uploads. */
  ghost predicate UploadsUntouched(s: State, s': State) {
    && s'.db.sessions == s.db.sessions && s'.db.chunks == s.db.chunks && s'.temp == s.temp
    && s'.db.users.Keys == s.db.users.Keys
  }

  lemma DirectUploadFrame(s: State, c: Call)
    requires c.Upload?
    ensures UploadsUntouched(s, HandleUpload(s, c).0)
  {
  }

  lemma DeleteFrame(s: State, c: Call)
    requires c.Delete?
    ensures UploadsUntouched(s, HandleDelete(s, c).0)
  {
  }

  lemma UntouchedKeepsWellFormed(s: State, s': State)
    requires WellFormed(s) && UploadsUntouched(s, s')
    ensures WellFormed(s')
  {
    forall id | id in s'.db.sessions ensures SessionSane(s', id) {
      assert SessionSane(s, id);
      assert s.db.sessions[id].userId in s.db.users.Keys;
    }
  }

  lemma StepKeepsWellFormed(h: Hash, s: State, c: Call)
    requires WellFormed(s) && Fresh(s, c)
    ensures WellFormed(Step(h, s, c).0)
  {
    match c
    case Init(_, _, _, _, _, _, _, _) => InitKeepsWellFormed(s, c);
    case Chunk(_, _, _, _, _, _, _, _) => ChunkKeepsWellFormed(h, s, c);
    case AskProgress(_, _, _, _) =>
    case Complete(_, _, _, _, _, _) =>
      CompleteIsAllOrNothing(s, c);
      var (s', r) := HandleComplete(s, c);
      if r.CompleteOk? {
        CompletedKeepsWellFormed(s, c, s', r);
      }
    case Cancel(_, _, _, _) => CancelKeepsWellFormed(s, c);
    case Upload(_, _, _, _, _) =>
      DirectUploadFrame(s, c);
      UntouchedKeepsWellFormed(s, HandleUpload(s, c).0);
    case Delete(_, _, _) =>
      DeleteFrame(s, c);
      UntouchedKeepsWellFormed(s, HandleDelete(s, c).0);
  }

  // ---- merging, and the count check ----

  ghost predicate AllPresent(temp: map<ChunkKey, seq<byte>>, id: string, i: int, n: int) {
    forall j | i <= j < n :: (id, j) in temp
  }

  ghost function ChunkFiles(temp: map<ChunkKey, seq<byte>>, id: string, i: nat, n: nat): (r: seq<seq<byte>>)
    requires i <= n && AllPresent(temp, id, i, n)
    ensures |r| == n - i && forall j | 0 <= j < n - i :: r[j] == temp[(id, i + j)]
    decreases n - i
  {
    if i == n then [] else [temp[(id, i)]] + ChunkFiles(temp, id, i + 1, n)
  }

  /** merge_chunks succeeds exactly when every chunk file is there, and then writes their
      concatenation in index order. */
  lemma {:induction false} MergeIsConcat(temp: map<ChunkKey, seq<byte>>, id: string, i: nat, n: nat)
    requires i <= n
    ensures Merge(temp, id, i, n).1 <==> AllPresent(temp, id, i, n)
    ensures AllPresent(temp, id, i, n) ==> Merge(temp, id, i, n).0 == Concat(ChunkFiles(temp, id, i, n))
    decreases n - i
  {
    if i < n {
      MergeIsConcat(temp, id, i + 1, n);
      if AllPresent(temp, id, i, n) {
        assert ChunkFiles(temp, id, i, n)[1..] == ChunkFiles(temp, id, i + 1, n);
      }
    }
  }

  ghost predicate EveryChunkRecorded(s: State, id: string)
    requires id in s.db.sessions
  {
    forall i | 0 <= i < s.db.sessions[id].totalChunks :: (id, i) in s.db.chunks
  }

  /** Comparing COUNT(*) with total_chunks decides whether every chunk is recorded. */
  lemma CountDecidesCompleteness(s: State, id: string)
    requires WellFormed(s) && id in s.db.sessions
    ensures Indices(s.db.chunks, id) <= Below(s.db.sessions[id].totalChunks)
    ensures |Indices(s.db.chunks, id)| <= s.db.sessions[id].totalChunks
    ensures |Indices(s.db.chunks, id)| == s.db.sessions[id].totalChunks <==> EveryChunkRecorded(s, id)
  {
    var done := Indices(s.db.chunks, id);
    var n := s.db.sessions[id].totalChunks;
    assert SessionSane(s, id);
    forall i | i in done ensures i in Below(n) {
      assert (id, i) in s.db.chunks && InRange(s.db.sessions, (id, i));
    }
    FullCount(done, n);
    assert forall i :: i in done <==> (id, i) in s.db.chunks;
  }

  /** If the session is still uploading, every recorded chunk of it has its chunk file. */
  ghost predicate FilesOf(s: State, id: string) {
    id in s.db.sessions && s.db.sessions[id].status == Uploading ==>
      forall i :: (id, i) in s.db.chunks ==> (id, i) in s.temp
  }

  /** A cancel whose UPDATE fails removes the chunk files of a session that stays live. */
  ghost predicate CancelTearsSession(s: State, c: Call)
    requires c.Cancel?
  {
    && !c.w.mark && c.w.progress && c.user > 0 && c.id != ""
    && c.id in s.db.sessions && s.db.sessions[c.id].userId == c.user
    && s.db.sessions[c.id].status == Uploading && c.now < s.db.sessions[c.id].expiresAt
    && Indices(s.db.chunks, c.id) != {}
  }

  /** The call is a cancel that tears this session. */
  ghost predicate Tears(s: State, c: Call, id: string) {
    c.Cancel? && c.id == id && CancelTearsSession(s, c)
  }

  lemma CancelKeepsFilesIff(s: State, c: Call, id: string)
    requires WellFormed(s) && FilesOf(s, id) && c.Cancel?
    ensures FilesOf(HandleCancel(s, c).0, id) <==> !Tears(s, c, id)
  {
    if Tears(s, c, id) {
      var i :| i in Indices(s.db.chunks, id);
      assert (id, i) in s.db.chunks && (id, i) !in HandleCancel(s, c).0.temp;
    } else if c.id == id && id in s.db.sessions && !c.w.mark {
      assert forall i :: (id, i) in s.db.chunks ==> i in Indices(s.db.chunks, id);
    }
  }

  lemma ChunkKeepsFiles(h: Hash, s: State, c: Call, id: string)
    requires FilesOf(s, id) && c.Chunk?
    ensures FilesOf(HandleChunk(h, s, c).0, id)
  {
  }

  lemma CompleteKeepsFiles(s: State, c: Call, id: string)
    requires WellFormed(s) && FilesOf(s, id) && c.Complete?
    ensures FilesOf(HandleComplete(s, c).0, id)
  {
    CompleteIsAllOrNothing(s, c);
  }

  /** A call keeps the chunk files of a session exactly unless it is a cancel that tears it. */
  lemma StepKeepsFilesIff(h: Hash, s: State, c: Call, id: string)
    requires WellFormed(s) && FilesOf(s, id) && Fresh(s, c)
    ensures FilesOf(Step(h, s, c).0, id) <==> !Tears(s, c, id)
  {
    match c
    case Init(_, _, _, _, _, _, _, _) =>
      forall k | k in s.db.chunks ensures k.0 in s.db.sessions {
        assert InRange(s.db.sessions, k);
      }
    case Chunk(_, _, _, _, _, _, _, _) => ChunkKeepsFiles(h, s, c, id);
    case AskProgress(_, _, _, _) =>
    case Complete(_, _, _, _, _, _) => CompleteKeepsFiles(s, c, id);
    case Cancel(_, _, _, _) => CancelKeepsFilesIff(s, c, id);
    case Upload(_, _, _, _, _) => DirectUploadFrame(s, c);
    case Delete(_, _, _) => DeleteFrame(s, c);
  }

  function OneChunk(h: Hash, temp: map<ChunkKey, seq<byte>>): State {
    State(Tables(map["id" := SessionRow(1, 1, 1, "f", "", LIFETIME, Uploading)], map[("id", 0) := ChunkRow(h([7]), 1)],
                 map[], map[1 := UserRow(0, 100)]), 1, temp, map[])
  }

  /** Such a cancel: its UPDATE fails, and the one chunk that was uploaded is lost to a live session. */
  lemma CancelCanTear(h: Hash)
    ensures var s := OneChunk(h, map[("id", 0) := [7]]);
            var c := Cancel(1, "id", 0, AllWork.(mark := false));
            && WellFormed(s) && FilesOf(s, "id")
            && HandleCancel(s, c) == (OneChunk(h, map[]), Error(500)) && !FilesOf(OneChunk(h, map[]), "id")
  {
    var s := OneChunk(h, map[("id", 0) := [7]]);
    assert DropTemp(s.temp, "id") == map[];
    assert ("id", 0) in s.db.chunks;
  }

  /** Every statement a completion runs succeeds. */
  ghost predicate CompletionWorks(w: Works) {
    && w.progress && w.count && w.lookup && w.recount && w.meta && w.directory && w.open
    && w.begin && w.insert && w.charge && w.mark && w.commit
  }

  /** Exactly when a completion succeeds: the session is the caller's, live at both clock readings,
      every chunk is recorded and has its file, and no statement fails. The files are there unless a
      cancel tore the session. */
  lemma CompletionSucceedsIff(s: State, c: Call)
    requires WellFormed(s) && c.Complete?
    ensures HandleComplete(s, c).1.CompleteOk? <==>
            && CompletionWorks(c.w)
            && c.id in s.db.sessions && s.db.sessions[c.id].userId == c.user
            && s.db.sessions[c.id].status == Uploading
            && c.now < s.db.sessions[c.id].expiresAt && c.later < s.db.sessions[c.id].expiresAt
            && EveryChunkRecorded(s, c.id) && AllPresent(s.temp, c.id, 0, s.db.sessions[c.id].totalChunks)
    ensures FilesOf(s, c.id) && c.id in s.db.sessions && s.db.sessions[c.id].status == Uploading && EveryChunkRecorded(s, c.id)
            ==> AllPresent(s.temp, c.id, 0, s.db.sessions[c.id].totalChunks)
  {
    if c.id in s.db.sessions {
      assert SessionSane(s, c.id);
      CountDecidesCompleteness(s, c.id);
      MergeIsConcat(s.temp, c.id, 0, s.db.sessions[c.id].totalChunks);
    }
  }

  // ---- what an answer means ----

  /** Exactly when a chunk is acknowledged: the caller's own live session, at both clock readings, an
      index below its total, a non-empty body that hashes as announced, and no failing statement. */
  lemma ChunkAcknowledgedIff(h: Hash, s: State, c: Call)
    requires WellFormed(s) && c.Chunk?
    ensures HandleChunk(h, s, c).1.ChunkOk? <==>
            && c.w.progress && c.w.lookup && c.w.open && c.w.insert
            && c.id in s.db.sessions && s.db.sessions[c.id].userId == c.user
            && s.db.sessions[c.id].status == Uploading
            && c.now < s.db.sessions[c.id].expiresAt && c.later < s.db.sessions[c.id].expiresAt
            && 0 <= c.index < s.db.sessions[c.id].totalChunks
            && c.body != [] && (c.hash == "" || h(c.body) == c.hash)
    ensures HandleChunk(h, s, c).1.ChunkOk? ==>
              var s' := HandleChunk(h, s, c).0;
              && s'.temp == s.temp[(c.id, c.index) := c.body]
              && s'.db == s.db.(chunks := s.db.chunks[(c.id, c.index) := ChunkRow(h(c.body), |c.body|)])
  {
    assert c.id in s.db.sessions ==> SessionSane(s, c.id);
  }

  /** Exactly when a session is opened, and for how long: the declared size must fit the quota on top of
      what is stored already. */
  lemma InitAcceptedIff(s: State, c: Call)
    requires WellFormed(s) && c.Init? && Fresh(s, c)
    ensures HandleInit(s, c).1.InitOk? <==>
            && c.w.account && c.w.lookup && c.w.insert
            && c.user > 0 && c.user in s.db.users && c.filename != "" && c.size > 0 && c.chunks > 0
            && s.db.users[c.user].storageUsed + c.size <= s.db.users[c.user].storageLimit
    ensures HandleInit(s, c).1.InitOk? ==>
              && HandleInit(s, c).1.uploadId == c.id && c.id in HandleInit(s, c).0.db.sessions
              && HandleInit(s, c).0.db.sessions[c.id].status == Uploading
              && HandleInit(s, c).0.db.sessions[c.id].expiresAt == c.now + 24 * 60 * 60
  {
  }

  /** What the answer to an opened session says: the id, the count, and a chunk size that is the least
      with which so many chunks cover the file. */
  lemma InitAnswerIs(s: State, c: Call)
    requires c.Init? && HandleInit(s, c).1.InitOk?
    ensures var r := HandleInit(s, c).1;
            && r.uploadId == c.id && r.totalChunks == c.chunks
            && (r.chunkSize - 1) * c.chunks < c.size <= r.chunkSize * c.chunks
  {
    CeilDivBounds(c.size, c.chunks);
  }

  /** When the client counted its chunks by its own chunk size, the size it is told is at most that, and
      cuts the file into exactly the chunks it counted, none of them empty. */
  lemma AdvertisedSizeFits(s: State, c: Call, chunk: nat)
    requires c.Init? && HandleInit(s, c).1.InitOk? && chunk > 0 && c.chunks == CeilDiv(c.size, chunk)
    ensures var told := HandleInit(s, c).1.chunkSize;
            && 0 < told <= chunk && CeilDiv(c.size, told) == c.chunks
            && forall i: nat | i < c.chunks :: i * told < SliceEnd(c.size, told, i)
  {
    AdvertisedChunkSize(c.size, chunk);
  }

  // ---- what a refusal says ----

  ghost predicate OwnSession(s: State, c: Call)
    requires c.Chunk? || c.AskProgress? || c.Complete? || c.Cancel?
  {
    c.w.progress && c.id in s.db.sessions && s.db.sessions[c.id].userId == c.user
  }

  /** 401 is said exactly to callers whose token stands for nobody. */
  lemma UnauthorizedIff(h: Hash, s: State, c: Call)
    ensures Step(h, s, c).1 == Error(401) <==> c.user == -1
  {
  }

  /** A call about a session is answered 404 exactly when the caller has no such session, 410 exactly when
      the session has run out; a malformed one is answered 400. */
  lemma SessionRefusals(h: Hash, s: State, c: Call)
    requires WellFormed(s) && c.user != -1 && (c.Chunk? || c.AskProgress? || c.Complete? || c.Cancel?)
    requires c.id != "" && (c.Chunk? ==> c.index >= 0 && c.body != [])
    ensures Step(h, s, c).1 == Error(404) <==> !OwnSession(s, c)
    ensures Step(h, s, c).1 == Error(410) <==> OwnSession(s, c) && s.db.sessions[c.id].expiresAt <= c.now
  {
    assert c.id in s.db.sessions ==> SessionSane(s, c.id);
  }

  lemma MalformedIsRefused(h: Hash, s: State, c: Call)
    requires c.user != -1
    requires (c.Init? && (c.filename == "" || c.size <= 0 || c.chunks <= 0))
          || ((c.Chunk? || c.AskProgress? || c.Complete? || c.Cancel?) && c.id == "")
          || (c.Chunk? && (c.index < 0 || c.body == []))
    ensures Step(h, s, c) == (s, Error(400))
  {
  }

  /** A completion of a session that is there is answered 400 exactly when the counts differ; what fails
      after that is answered 500. */
  lemma CompleteRefusals(s: State, c: Call)
    requires WellFormed(s) && c.Complete? && c.user != -1 && c.id != "" && OwnSession(s, c) && c.now < s.db.sessions[c.id].expiresAt
    ensures HandleComplete(s, c).1 == Error(400) <==>
            (if c.w.count then |Indices(s.db.chunks, c.id)| else 0) != s.db.sessions[c.id].totalChunks
    ensures HandleComplete(s, c).1.Error? ==> HandleComplete(s, c).1.code == 400 || HandleComplete(s, c).1.code == 500
  {
    assert SessionSane(s, c.id);
  }

  /** A session is refused for lack of room exactly when the file does not fit on top of what is stored,
      and with 404 exactly when there is no such account. */
  lemma NoRoomIff(s: State, c: Call)
    requires c.Init? && c.user != -1 && c.filename != "" && c.size > 0 && c.chunks > 0
    ensures HandleInit(s, c).1 == Error(507) <==>
            c.w.account && c.user in s.db.users && s.db.users[c.user].storageUsed + c.size > s.db.users[c.user].storageLimit
    ensures HandleInit(s, c).1 == Error(404) <==> !c.w.account || c.user !in s.db.users
    ensures HandleInit(s, c).1.Error? ==> HandleInit(s, c).1.code in {404, 500, 507}
  {
  }

  /** An error answer of the upload protocol means that no table changed. */
  lemma ErrorChangesNoTable(h: Hash, s: State, c: Call)
    requires WellFormed(s) && !c.Upload? && !c.Delete? && Step(h, s, c).1.Error?
    ensures Step(h, s, c).0.db == s.db
  {
    if c.Complete? {
      CompleteIsAllOrNothing(s, c);
    } else if c.Cancel? {
      CancelIsFinal(s, c);
    }
  }

  ghost predicate OnlyErrors(h: Hash, s: State, calls: seq<Call>)
    decreases |calls|
  {
    calls != [] ==> Step(h, s, calls[0]).1.Error? && OnlyErrors(h, Step(h, s, calls[0]).0, calls[1..])
  }

  /** A run of the upload protocol in which everything is answered with an error leaves every table as
      it was, whatever failed and however far each call got. */
  lemma {:induction false} ErrorsLeaveNoTrace(h: Hash, s: State, calls: seq<Call>)
    requires WellFormed(s) && FreshRun(h, s, calls) && OnlyErrors(h, s, calls)
    requires forall c | c in calls :: !c.Upload? && !c.Delete?
    ensures Run(h, s, calls).db == s.db
    decreases |calls|
  {
    if calls != [] {
      assert calls[0] in calls;
      ErrorChangesNoTable(h, s, calls[0]);
      StepKeepsWellFormed(h, s, calls[0]);
      ErrorsLeaveNoTrace(h, Step(h, s, calls[0]).0, calls[1..]);
    }
  }

  /** Exactly when a cancel succeeds: on the caller's own session, whatever its status, that has not run
      out, if the UPDATE works. */
  lemma CancelSucceedsIff(s: State, c: Call)
    requires WellFormed(s) && c.Cancel?
    ensures HandleCancel(s, c).1.CancelOk? <==>
            && c.w.progress && c.w.mark && c.id in s.db.sessions
            && s.db.sessions[c.id].userId == c.user && c.now < s.db.sessions[c.id].expiresAt
  {
    assert c.id in s.db.sessions ==> SessionSane(s, c.id);
  }

  /** A cancel that succeeds on a live session makes it final, and its chunk files are gone. */
  lemma CancelIsFinal(s: State, c: Call)
    requires c.Cancel?
    ensures HandleCancel(s, c).1.Error? ==> HandleCancel(s, c).0.db == s.db
    ensures HandleCancel(s, c).1.CancelOk? ==>
              var s' := HandleCancel(s, c).0;
              && c.id in s'.db.sessions && s'.db.sessions[c.id].status != Uploading
              && (s.db.sessions[c.id].status == Uploading ==> s'.db.sessions[c.id].status == Cancelled)
              && forall k | k in s'.temp :: k.0 != c.id
  {
  }

  // ---- the session state machine ----

  ghost predicate StatusMoves(a: Status, b: Status) {
    a == b || a == Uploading
  }

  /** The row of a session is kept but for its status, which leaves only `uploading`; and no chunk
      row is forgotten. */
  ghost predicate SessionMoves(s: State, s': State, id: string)
    requires id in s.db.sessions
  {
    && id in s'.db.sessions
    && s'.db.sessions[id] == s.db.sessions[id].(status := s'.db.sessions[id].status)
    && StatusMoves(s.db.sessions[id].status, s'.db.sessions[id].status)
    && s.db.chunks.Keys <= s'.db.chunks.Keys
  }

  lemma ChunkMovesStatus(h: Hash, s: State, c: Call, id: string)
    requires c.Chunk? && id in s.db.sessions
    ensures SessionMoves(s, HandleChunk(h, s, c).0, id)
  {
  }

  lemma CompleteMovesStatus(s: State, c: Call, id: string)
    requires WellFormed(s) && c.Complete? && id in s.db.sessions
    ensures SessionMoves(s, HandleComplete(s, c).0, id)
  {
    CompleteIsAllOrNothing(s, c);
  }

  lemma CancelMovesStatus(s: State, c: Call, id: string)
    requires c.Cancel? && id in s.db.sessions
    ensures SessionMoves(s, HandleCancel(s, c).0, id)
  {
  }

  lemma StepMovesStatus(h: Hash, s: State, c: Call, id: string)
    requires WellFormed(s) && id in s.db.sessions
    ensures SessionMoves(s, Step(h, s, c).0, id)
  {
    match c
    case Init(_, _, _, _, _, _, _, _) =>
    case Chunk(_, _, _, _, _, _, _, _) => ChunkMovesStatus(h, s, c, id);
    case AskProgress(_, _, _, _) =>
    case Complete(_, _, _, _, _, _) => CompleteMovesStatus(s, c, id);
    case Cancel(_, _, _, _) => CancelMovesStatus(s, c, id);
    case Upload(_, _, _, _, _) => DirectUploadFrame(s, c);
    case Delete(_, _, _) => DeleteFrame(s, c);
  }

  lemma {:induction false} RunMovesStatus(h: Hash, s: State, calls: seq<Call>, id: string)
    requires WellFormed(s) && FreshRun(h, s, calls) && id in s.db.sessions
    ensures WellFormed(Run(h, s, calls)) && SessionMoves(s, Run(h, s, calls), id)
    decreases |calls|
  {
    if calls != [] {
      StepMovesStatus(h, s, calls[0], id);
      StepKeepsWellFormed(h, s, calls[0]);
      RunMovesStatus(h, Step(h, s, calls[0]).0, calls[1..], id);
    }
  }

  /** The row that a successful init leaves, told by the call's own arguments. */
  ghost predicate SaysWhatWasAsked(row: SessionRow, c: Call)
    requires c.Init?
  {
    && row.userId == c.user && row.filename == c.filename && row.mime == c.mime
    && row.fileSize == c.size && row.totalChunks == c.chunks
    && row.status == Uploading && row.expiresAt == c.now + 24 * 60 * 60
  }

  lemma OpenedSessionSays(s: State, c: Call)
    requires c.Init? && HandleInit(s, c).1.InitOk?
    ensures c.id in HandleInit(s, c).0.db.sessions && SaysWhatWasAsked(HandleInit(s, c).0.db.sessions[c.id], c)
  {
  }

  /** The file that a completion adds is the one that was asked for when the session was opened, whatever
      calls came in between: same name, type, size and owner, in the answer and in the row; the owner is
      charged its size, and no other row and no other user changes. */
  lemma CompletedFileIsAsOpened(h: Hash, s: State, c0: Call, calls: seq<Call>, c: Call)
    requires WellFormed(s) && c0.Init? && Fresh(s, c0) && HandleInit(s, c0).1.InitOk?
    requires FreshRun(h, HandleInit(s, c0).0, calls)
    requires c.Complete? && c.id == c0.id && HandleComplete(Run(h, HandleInit(s, c0).0, calls), c).1.CompleteOk?
    ensures var before := Run(h, HandleInit(s, c0).0, calls);
            var (after, r) := HandleComplete(before, c);
            && r.filename == c0.filename && r.size == c0.size
            && r.fileId in after.db.files
            && var row := after.db.files[r.fileId];
            && row.originalFilename == c0.filename && row.mime == c0.mime && row.size == c0.size
            && row.userId == c0.user && row.path.0 == c0.user
            && (forall f | f in before.db.files && f != r.fileId :: f in after.db.files && after.db.files[f] == before.db.files[f])
            && c0.user in before.db.users && after.db.users.Keys == before.db.users.Keys
            && after.db.users[c0.user].storageUsed == before.db.users[c0.user].storageUsed + c0.size
            && after.db.users[c0.user].storageLimit == before.db.users[c0.user].storageLimit
            && (forall u | u in before.db.users && u != c0.user :: after.db.users[u] == before.db.users[u])
  {
    var start := HandleInit(s, c0).0;
    OpenedSessionSays(s, c0);
    InitKeepsWellFormed(s, c0);
    RunMovesStatus(h, start, calls, c0.id);
    CompleteIsAllOrNothing(Run(h, start, calls), c);
  }

  /** How many calls of a run finish the upload: each of them adds one row to `files`. */
  ghost function Completions(h: Hash, s: State, calls: seq<Call>, id: string): nat
    decreases |calls|
  {
    if calls == [] then 0
    else
      var (s', r) := Step(h, s, calls[0]);
      (if calls[0].Complete? && calls[0].id == id && r.CompleteOk? then 1 else 0) + Completions(h, s', calls[1..], id)
  }

  /** Each upload_id yields at most one file, and none once its session has left `uploading`. */
  lemma {:induction false} AtMostOneCompletion(h: Hash, s: State, calls: seq<Call>, id: string)
    requires WellFormed(s) && FreshRun(h, s, calls)
    ensures Completions(h, s, calls, id) <= 1
    ensures id in s.db.sessions && s.db.sessions[id].status != Uploading ==> Completions(h, s, calls, id) == 0
    decreases |calls|
  {
    if calls != [] {
      var c := calls[0];
      StepKeepsWellFormed(h, s, c);
      AtMostOneCompletion(h, Step(h, s, c).0, calls[1..], id);
      if id in s.db.sessions {
        StepMovesStatus(h, s, c, id);
      }
      if c.Complete? {
        CompleteIsAllOrNothing(s, c);
      }
    }
  }

  // ---- nothing is accepted after the end ----

  ghost predicate NotBefore(c: Call, t: int) {
    match c
    case Init(_, _, _, _, _, _, now, _) => t <= now
    case Chunk(_, _, _, _, _, now, later, _) => t <= now <= later
    case AskProgress(_, _, now, _) => t <= now
    case Complete(_, _, now, later, _, _) => t <= now <= later
    case Cancel(_, _, now, _) => t <= now
    case _ => true
  }

  ghost predicate Over(s: State, id: string, t: int) {
    id in s.db.sessions && (s.db.sessions[id].status != Uploading || s.db.sessions[id].expiresAt <= t)
  }

  /** How many calls of a run store a chunk of the upload or finish it. */
  ghost function Acceptances(h: Hash, s: State, calls: seq<Call>, id: string): nat
    decreases |calls|
  {
    if calls == [] then 0
    else
      var c := calls[0];
      var (s', r) := Step(h, s, c);
      var hit := (c.Chunk? && c.id == id && r.ChunkOk?) || (c.Complete? && c.id == id && r.CompleteOk?);
      (if hit then 1 else 0) + Acceptances(h, s', calls[1..], id)
  }

  /** Once a session is final, or its deadline has passed on a clock that does not go back, no run
      stores another chunk or completes it. */
  lemma {:induction false} NothingAcceptedAfterTheEnd(h: Hash, s: State, calls: seq<Call>, id: string, t: int)
    requires WellFormed(s) && FreshRun(h, s, calls) && Over(s, id, t)
    requires forall c | c in calls :: NotBefore(c, t)
    ensures Acceptances(h, s, calls, id) == 0
    decreases |calls|
  {
    if calls != [] {
      var c := calls[0];
      assert NotBefore(c, t);
      StepMovesStatus(h, s, c, id);
      StepKeepsWellFormed(h, s, c);
      NothingAcceptedAfterTheEnd(h, Step(h, s, c).0, calls[1..], id, t);
      if c.Complete? {
        CompleteIsAllOrNothing(s, c);
      }
    }
  }

  // ---- a cancel sticks ----

  /** The session is final and has no chunk file. */
  ghost predicate Gone(s: State, id: string) {
    id in s.db.sessions && s.db.sessions[id].status != Uploading && forall k | k in s.temp :: k.0 != id
  }

  lemma ChunkKeepsGone(h: Hash, s: State, c: Call, id: string)
    requires c.Chunk? && Gone(s, id)
    ensures Gone(HandleChunk(h, s, c).0, id) && (c.id == id ==> !HandleChunk(h, s, c).1.ChunkOk?)
  {
  }

  lemma StepKeepsGone(h: Hash, s: State, c: Call, id: string)
    requires WellFormed(s) && Fresh(s, c) && Gone(s, id)
    ensures Gone(Step(h, s, c).0, id) && Step(h, s, c).0.db.sessions[id] == s.db.sessions[id]
    ensures c.Complete? && c.id == id ==> !HandleComplete(s, c).1.CompleteOk?
  {
    StepMovesStatus(h, s, c, id);
    match c
    case Init(_, _, _, _, _, _, _, _) =>
    case Chunk(_, _, _, _, _, _, _, _) => ChunkKeepsGone(h, s, c, id);
    case AskProgress(_, _, _, _) =>
    case Complete(_, _, _, _, _, _) => CompleteIsAllOrNothing(s, c);
    case Cancel(_, _, _, _) =>
    case Upload(_, _, _, _, _) => DirectUploadFrame(s, c);
    case Delete(_, _, _) => DeleteFrame(s, c);
  }

  lemma {:induction false} GoneRun(h: Hash, s: State, calls: seq<Call>, id: string)
    requires WellFormed(s) && FreshRun(h, s, calls) && Gone(s, id)
    ensures Gone(Run(h, s, calls), id) && Run(h, s, calls).db.sessions[id] == s.db.sessions[id]
    ensures Acceptances(h, s, calls, id) == 0
    decreases |calls|
  {
    if calls != [] {
      StepKeepsGone(h, s, calls[0], id);
      if calls[0].Chunk? {
        ChunkKeepsGone(h, s, calls[0], id);
      }
      StepKeepsWellFormed(h, s, calls[0]);
      GoneRun(h, Step(h, s, calls[0]).0, calls[1..], id);
    }
  }

  /** After a successful cancel, whatever calls follow, whole and on any clock: the session stays as the
      cancel left it, nothing of it is accepted any more, and no chunk file of it ever comes back. */
  lemma CancelSticks(h: Hash, s: State, c: Call, calls: seq<Call>)
    requires WellFormed(s) && c.Cancel? && HandleCancel(s, c).1.CancelOk? && FreshRun(h, HandleCancel(s, c).0, calls)
    ensures var s1 := HandleCancel(s, c).0;
            var s2 := Run(h, s1, calls);
            && c.id in s.db.sessions && c.id in s1.db.sessions && c.id in s2.db.sessions
            && s2.db.sessions[c.id] == s1.db.sessions[c.id] && s2.db.sessions[c.id].status != Uploading
            && (s.db.sessions[c.id].status == Uploading ==> s2.db.sessions[c.id].status == Cancelled)
            && Acceptances(h, s1, calls, c.id) == 0
            && forall k | k in s2.temp :: k.0 != c.id
  {
    CancelIsFinal(s, c);
    CancelKeepsWellFormed(s, c);
    GoneRun(h, HandleCancel(s, c).0, calls, c.id);
  }
}
