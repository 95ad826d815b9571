/** The server side of uploading: what each handler call does to the tables and the disk
    (src/http_handler.cpp, src/file_manager.cpp). Every function here says what a whole call does;
    FileManager.dfy has the statement-by-statement code that is proved to do it. */
module UploadModel {
  import opened Common
  import opened Chunking

  /** INTERVAL 24 HOUR, in seconds. */
  const LIFETIME: int := 86400

  type Hash = seq<byte> -> string

  // ---- tables and disk ----

  datatype Status = Uploading | Completed | Cancelled

  datatype SessionRow = SessionRow(userId: int, totalChunks: int, fileSize: int, filename: string,
                                   mime: string, expiresAt: int, status: Status)

  datatype ChunkRow = ChunkRow(hash: string, size: int)

  datatype FileRow = FileRow(userId: int, path: Path, originalFilename: string, size: int, mime: string)

  datatype UserRow = UserRow(storageUsed: int, storageLimit: int)

  /** (upload_id, chunk_index): the unique key of upload_chunks, and the name of a chunk file. */
  type ChunkKey = (string, int)

  /** (user_id, unique filename): where a finished file is stored. */
  type Path = (int, string)

  datatype Tables = Tables(sessions: map<string, SessionRow>, chunks: map<ChunkKey, ChunkRow>,
                           files: map<int, FileRow>, users: map<int, UserRow>)

  /** The auto-increment counter of `files` is outside the tables: a rollback does not reset it. */
  datatype State = State(db: Tables, nextFileId: int,
                         temp: map<ChunkKey, seq<byte>>, stored: map<Path, seq<byte>>)

  /** Which statement of a call succeeds; one record serves all calls, each reads its own fields. */
  datatype Works = Works(account: bool, progress: bool, count: bool, list: bool, lookup: bool,
                         recount: bool, meta: bool, directory: bool, open: bool, begin: bool,
                         insert: bool, charge: bool, mark: bool, commit: bool, remove: bool, undo: bool)

  const AllWork := Works(true, true, true, true, true, true, true, true, true, true, true, true, true, true, true, true)

  // ---- get_upload_progress ----

  datatype Progress =
    | Missing
    | Found(expired: bool, status: Status, totalChunks: int, totalSize: int,
            completedChunks: int, uploadedSize: int, failed: seq<int>, indices: seq<int>, fraction: real)

  /** The chunk indices recorded for an upload. */
  function Indices(chunks: map<ChunkKey, ChunkRow>, id: string): set<int> {
    set k | k in chunks && k.0 == id :: k.1
  }

  ghost function SizeIn(id: string): (ChunkKey, ChunkRow) -> int {
    (k: ChunkKey, row: ChunkRow) => if k.0 == id then row.size else 0
  }

  /** SUM(chunk_size) over the chunks recorded for an upload. */
  ghost function UploadedSize(chunks: map<ChunkKey, ChunkRow>, id: string): int {
    SumOver(chunks, SizeIn(id))
  }

  /** completed / total, as a real number. */
  function Fraction(completed: int, total: int): real {
    if total > 0 then completed as real / total as real else 0.0
  }

  /** No statement ever gives a chunk the status 'failed', so that list is empty. */
  ghost function GetProgress(s: State, id: string, user: int, now: int,
                       found: bool, counted: bool, listed: bool): Progress
  {
    if id == "" || user <= 0 || !found || id !in s.db.sessions || s.db.sessions[id].userId != user then
      Missing
    else
      var row := s.db.sessions[id];
      var done := Indices(s.db.chunks, id);
      var completed := if counted then |done| else 0;
      Found(row.expiresAt <= now, row.status, row.totalChunks, row.fileSize,
            completed, if counted then UploadedSize(s.db.chunks, id) else 0,
            [], if listed then InOrder(done) else [],
            Fraction(completed, row.totalChunks))
  }

  // ---- create_upload_session ----

  function CreateSession(s: State, user: int, filename: string, size: int, chunks: int,
                         mime: string, id: string, now: int, w: Works): (State, bool)
  {
    if && user > 0 && filename != "" && size > 0 && chunks > 0
       && w.lookup && user in s.db.users
       && s.db.users[user].storageUsed + size <= s.db.users[user].storageLimit
       && w.insert && id !in s.db.sessions
    then
      var row := SessionRow(user, chunks, size, filename, mime, now + LIFETIME, Uploading);
      (s.(db := s.db.(sessions := s.db.sessions[id := row])), true)
    else
      (s, false)
  }

  // ---- save_chunk ----

  ghost predicate ChunkAccepted(h: Hash, s: State, id: string, index: int, hash: string,
                                body: seq<byte>, now: int)
  {
    && id != "" && 0 <= index && body != []
    && id in s.db.sessions
    && s.db.sessions[id].status == Uploading
    && now < s.db.sessions[id].expiresAt
    && index < s.db.sessions[id].totalChunks
    && (hash == "" || h(body) == hash)
  }

  /** The chunk file is written before its row: a failing upsert leaves the file behind. */
  ghost function SaveChunk(h: Hash, s: State, id: string, index: int, hash: string,
                           body: seq<byte>, now: int, w: Works): (State, bool)
  {
    if w.lookup && w.open && ChunkAccepted(h, s, id, index, hash, body, now) then
      var written := s.(temp := s.temp[(id, index) := body]);
      if w.insert then
        (written.(db := s.db.(chunks := s.db.chunks[(id, index) := ChunkRow(h(body), |body|)])), true)
      else
        (written, false)
    else
      (s, false)
  }

  // ---- complete_upload ----

  /** What merge_chunks appends for chunks i, i+1, ..., n-1, and whether it could open them all;
      it stops at the first chunk file that is missing. */
  ghost function Merge(temp: map<ChunkKey, seq<byte>>, id: string, i: int, n: int): (seq<byte>, bool)
    decreases n - i
  {
    if i >= n then ([], true)
    else if (id, i) !in temp then ([], false)
    else
      var rest := Merge(temp, id, i + 1, n);
      (temp[(id, i)] + rest.0, rest.1)
  }

  /** complete_upload goes on to merge: its own progress query, then the metadata query. */
  ghost predicate ReadyToMerge(s: State, id: string, user: int, now: int, w: Works) {
    var p := GetProgress(s, id, user, now, w.lookup, w.recount, w.list);
    && p.Found? && !p.expired && p.status == Uploading && p.completedChunks == p.totalChunks
    && w.meta && w.directory
  }

  /** The statements of the transaction all succeed; the insert also needs the foreign key. */
  ghost predicate Commits(s: State, user: int, w: Works) {
    w.begin && w.insert && user in s.db.users && w.charge && w.mark && w.commit
  }

  /** Add a file row and charge its owner. */
  function AddFile(db: Tables, fileId: int, row: FileRow): Tables
    requires row.userId in db.users
  {
    var u := db.users[row.userId];
    db.(files := db.files[fileId := row],
        users := db.users[row.userId := u.(storageUsed := u.storageUsed + row.size)])
  }

  function SetStatus(db: Tables, id: string, status: Status): Tables {
    if id in db.sessions then db.(sessions := db.sessions[id := db.sessions[id].(status := status)]) else db
  }

  /** The transaction of complete_upload, run after the merge wrote `row.path`. It re-reads nothing. */
  ghost function CommitCompletion(s: State, id: string, row: FileRow, w: Works): (State, Option<int>) {
    if Commits(s, row.userId, w) then
      (s.(db := SetStatus(AddFile(s.db, s.nextFileId, row), id, Completed), nextFileId := s.nextFileId + 1),
       Some(s.nextFileId))
    else
      (s.(nextFileId := if w.begin && w.insert && row.userId in s.db.users then s.nextFileId + 1 else s.nextFileId,
          stored := s.stored - {row.path}),
       None)
  }

  function DropTemp(temp: map<ChunkKey, seq<byte>>, id: string): map<ChunkKey, seq<byte>> {
    map k | k in temp && k.0 != id :: temp[k]
  }

  function CompletedRow(session: SessionRow, user: int, name: string): FileRow {
    FileRow(user, (user, name), session.filename, session.fileSize, session.mime)
  }

  ghost function CompleteUpload(s: State, id: string, user: int, now: int, name: string, w: Works): (State, Option<int>)
  {
    if !ReadyToMerge(s, id, user, now, w) || !w.open then (s, None)
    else
      var session := s.db.sessions[id];
      var (bytes, whole) := Merge(s.temp, id, 0, session.totalChunks);
      var merged := s.(stored := s.stored[(user, name) := bytes]);
      if !whole then (merged, None)
      else
        var (s', fileId) := CommitCompletion(merged, id, CompletedRow(session, user, name), w);
        if fileId.Some? then (s'.(temp := DropTemp(s'.temp, id)), fileId) else (s', None)
  }

  // ---- cancel_upload ----

  /** The chunk files go even when the UPDATE fails or matches no row. */
  ghost function CancelUpload(s: State, id: string, user: int, w: Works): (State, bool) {
    if id == "" || user <= 0 then (s, false)
    else
      var active := id in s.db.sessions && s.db.sessions[id].userId == user && s.db.sessions[id].status == Uploading;
      (s.(db := if w.mark && active then SetStatus(s.db, id, Cancelled) else s.db, temp := DropTemp(s.temp, id)), w.mark)
  }

  // ---- upload_file, delete_file ----

  ghost function UploadFile(s: State, user: int, filename: string, mime: string, data: seq<byte>,
                            name: string, w: Works): (State, Option<int>)
  {
    var row := FileRow(user, (user, name), filename, |data|, mime);
    if !w.directory || !w.open then (s, None)
    else if !w.insert || user !in s.db.users then (s.(stored := s.stored - {row.path}), None)
    else if w.charge then
      (State(AddFile(s.db, s.nextFileId, row), s.nextFileId + 1, s.temp, s.stored[row.path := data]), Some(s.nextFileId))
    else
      // the compensating DELETE
      (State(if w.undo then s.db.(files := s.db.files - {s.nextFileId}) else s.db.(files := s.db.files[s.nextFileId := row]),
             s.nextFileId + 1, s.temp, s.stored - {row.path}), None)
  }

  function Discharge(u: UserRow, size: int): UserRow {
    u.(storageUsed := if u.storageUsed - size > 0 then u.storageUsed - size else 0)
  }

  ghost function DeleteFile(s: State, fileId: int, user: int, w: Works): (State, bool) {
    if !w.lookup || fileId !in s.db.files || s.db.files[fileId].userId != user then (s, false)
    else
      var row := s.db.files[fileId];
      var unlinked := s.(stored := s.stored - {row.path});
      if !w.remove then (unlinked, false)
      else
        var removed := unlinked.(db := s.db.(files := s.db.files - {fileId}));
        if !w.charge then (removed, false)
        else if user !in s.db.users then (removed, true)
        else (removed.(db := removed.db.(users := s.db.users[user := Discharge(s.db.users[user], row.size)])), true)
  }

  // ---- handlers ----

  datatype Reply =
    | Error(code: int)
    | InitOk(uploadId: string, chunkSize: int, totalChunks: int)
    | ChunkOk
    | ProgressOk(total: int, completed: int, totalSize: int, uploadedSize: int, fraction: real, indices: seq<int>)
    | CompleteOk(fileId: int, filename: string, size: int)
    | CancelOk
    | UploadOk(fileId: int)
    | DeleteOk

  /** One request, with the user its token resolves to (-1 when it resolves to none), the clock at
      its two time checks, and the fresh names it draws. */
  datatype Call =
    | Init(user: int, filename: string, size: int, chunks: int, mime: string, id: string, now: int, w: Works)
    | Chunk(user: int, id: string, index: int, hash: string, body: seq<byte>, now: int, later: int, w: Works)
    | AskProgress(user: int, id: string, now: int, w: Works)
    | Complete(user: int, id: string, now: int, later: int, name: string, w: Works)
    | Cancel(user: int, id: string, now: int, w: Works)
    | Upload(user: int, filename: string, body: seq<byte>, name: string, w: Works)
    | Delete(user: int, fileId: int, w: Works)

  function HandleInit(s: State, c: Call): (State, Reply)
    requires c.Init?
  {
    if c.user == -1 then (s, Error(401))
    else if c.filename == "" || c.size <= 0 || c.chunks <= 0 then (s, Error(400))
    else if !c.w.account || c.user !in s.db.users then (s, Error(404))
    else if s.db.users[c.user].storageUsed + c.size > s.db.users[c.user].storageLimit then (s, Error(507))
    else
      var (s', ok) := CreateSession(s, c.user, c.filename, c.size, c.chunks, c.mime, c.id, c.now, c.w);
      if ok then (s', InitOk(c.id, CeilDiv(c.size, c.chunks), c.chunks)) else (s', Error(500))
  }

  ghost function HandleChunk(h: Hash, s: State, c: Call): (State, Reply)
    requires c.Chunk?
  {
    if c.user == -1 then (s, Error(401))
    else if c.id == "" || c.index < 0 || c.body == [] then (s, Error(400))
    else
      var p := GetProgress(s, c.id, c.user, c.now, c.w.progress, c.w.count, c.w.list);
      if p.Missing? then (s, Error(404))
      else if p.expired then (s, Error(410))
      else if p.status != Uploading then (s, Error(400))
      else
        var (s', ok) := SaveChunk(h, s, c.id, c.index, c.hash, c.body, c.later, c.w);
        if ok then (s', ChunkOk) else (s', Error(400))
  }

  ghost function HandleProgress(s: State, c: Call): Reply
    requires c.AskProgress?
  {
    if c.user == -1 then Error(401)
    else if c.id == "" then Error(400)
    else
      var p := GetProgress(s, c.id, c.user, c.now, c.w.progress, c.w.count, c.w.list);
      if p.Missing? then Error(404)
      else if p.expired then Error(410)
      else ProgressOk(p.totalChunks, p.completedChunks, p.totalSize, p.uploadedSize, p.fraction, p.indices)
  }

  ghost function HandleComplete(s: State, c: Call): (State, Reply)
    requires c.Complete?
  {
    if c.user == -1 then (s, Error(401))
    else if c.id == "" then (s, Error(400))
    else
      var p := GetProgress(s, c.id, c.user, c.now, c.w.progress, c.w.count, c.w.list);
      if p.Missing? then (s, Error(404))
      else if p.expired then (s, Error(410))
      else if p.completedChunks != p.totalChunks then (s, Error(400))
      else
        var (s', fileId) := CompleteUpload(s, c.id, c.user, c.later, c.name, c.w);
        if fileId.Some? then
          (s', CompleteOk(fileId.value, s.db.sessions[c.id].filename, s.db.sessions[c.id].fileSize))
        else (s', Error(500))
  }

  ghost function HandleCancel(s: State, c: Call): (State, Reply)
    requires c.Cancel?
  {
    if c.user == -1 then (s, Error(401))
    else if c.id == "" then (s, Error(400))
    else
      var p := GetProgress(s, c.id, c.user, c.now, c.w.progress, c.w.count, c.w.list);
      if p.Missing? then (s, Error(404))
      else if p.expired then (s, Error(410))
      else
        var (s', ok) := CancelUpload(s, c.id, c.user, c.w);
        if ok then (s', CancelOk) else (s', Error(500))
  }

  ghost function HandleUpload(s: State, c: Call): (State, Reply)
    requires c.Upload?
  {
    if c.user == -1 then (s, Error(401))
    else if !c.w.account || c.user !in s.db.users then (s, Error(404))
    else if s.db.users[c.user].storageUsed + |c.body| > s.db.users[c.user].storageLimit then (s, Error(400))
    else
      var (s', fileId) := UploadFile(s, c.user, c.filename, "application/octet-stream", c.body, c.name, c.w);
      if fileId.Some? then (s', UploadOk(fileId.value)) else (s', Error(500))
  }

  ghost function HandleDelete(s: State, c: Call): (State, Reply)
    requires c.Delete?
  {
    if c.user == -1 then (s, Error(401))
    else if c.fileId == -1 then (s, Error(400))
    else
      var (s', ok) := DeleteFile(s, c.fileId, c.user, c.w);
      if ok then (s', DeleteOk) else (s', Error(500))
  }

  ghost function Step(h: Hash, s: State, c: Call): (State, Reply) {
    match c
    case Init(_, _, _, _, _, _, _, _) => HandleInit(s, c)
    case Chunk(_, _, _, _, _, _, _, _) => HandleChunk(h, s, c)
    case AskProgress(_, _, _, _) => (s, HandleProgress(s, c))
    case Complete(_, _, _, _, _, _) => HandleComplete(s, c)
    case Cancel(_, _, _, _) => HandleCancel(s, c)
    case Upload(_, _, _, _, _) => HandleUpload(s, c)
    case Delete(_, _, _) => HandleDelete(s, c)
  }

  /** The state after a run of calls, each taken as one step. */
  ghost function Run(h: Hash, s: State, calls: seq<Call>): State
    decreases |calls|
  {
    if calls == [] then s else Run(h, Step(h, s, calls[0]).0, calls[1..])
  }
}
