/** The guards src/http_handler.cpp puts around the file manager, as the sequence of calls each handler
    makes; serving a request is proved to be one step of UploadModel. */
module UploadHandlers {
  import opened Common
  import opened Chunking
  import opened UploadModel
  import opened FileManagement

  method AskedProgress(fm: FileManager, c: Call, id: string, user: int, now: int) returns (p: Progress)
    ensures p == GetProgress(fm.View(), id, user, now, c.w.progress, c.w.count, c.w.list)
  {
    p := fm.UploadProgress(id, user, now, c.w.(lookup := c.w.progress, recount := c.w.count));
  }

  method ServeInit(fm: FileManager, c: Call) returns (r: Reply)
    requires c.Init?
    modifies fm
    ensures (fm.View(), r) == HandleInit(old(fm.View()), c)
  {
    if c.user == -1 {
      return Error(401);
    }
    if c.filename == "" || c.size <= 0 || c.chunks <= 0 {
      return Error(400);
    }
    if !c.w.account || c.user !in fm.db.users {
      return Error(404);
    }
    var account := fm.db.users[c.user];
    if account.storageUsed + c.size > account.storageLimit {
      return Error(507);
    }
    var ok := fm.CreateUploadSession(c.user, c.filename, c.size, c.chunks, c.mime, c.id, c.now, c.w);
    return if ok then InitOk(c.id, (c.size + c.chunks - 1) / c.chunks, c.chunks) else Error(500);
  }

  method ServeChunk(fm: FileManager, c: Call) returns (r: Reply)
    requires c.Chunk?
    modifies fm
    ensures (fm.View(), r) == HandleChunk(fm.hash, old(fm.View()), c)
  {
    if c.user == -1 {
      return Error(401);
    }
    if c.id == "" || c.index < 0 || c.body == [] {
      return Error(400);
    }
    var p := AskedProgress(fm, c, c.id, c.user, c.now);
    if p.Missing? {
      return Error(404);
    }
    if p.expired {
      return Error(410);
    }
    if p.status != Uploading {
      return Error(400);
    }
    var ok := fm.StoreChunk(c.id, c.index, c.hash, c.body, c.later, c.w);
    return if ok then ChunkOk else Error(400);
  }

  method ServeProgress(fm: FileManager, c: Call) returns (r: Reply)
    requires c.AskProgress?
    ensures r == HandleProgress(fm.View(), c)
  {
    if c.user == -1 {
      return Error(401);
    }
    if c.id == "" {
      return Error(400);
    }
    var p := AskedProgress(fm, c, c.id, c.user, c.now);
    if p.Missing? {
      return Error(404);
    }
    if p.expired {
      return Error(410);
    }
    return ProgressOk(p.totalChunks, p.completedChunks, p.totalSize, p.uploadedSize, p.fraction, p.indices);
  }

  method ServeComplete(fm: FileManager, c: Call) returns (r: Reply)
    requires c.Complete?
    modifies fm
    ensures (fm.View(), r) == HandleComplete(old(fm.View()), c)
  {
    if c.user == -1 {
      return Error(401);
    }
    if c.id == "" {
      return Error(400);
    }
    var p := AskedProgress(fm, c, c.id, c.user, c.now);
    if p.Missing? {
      return Error(404);
    }
    if p.expired {
      return Error(410);
    }
    if p.completedChunks != p.totalChunks {
      return Error(400);
    }
    var session := fm.db.sessions[c.id];
    var fileId := fm.FinishUpload(c.id, c.user, c.later, c.name, c.w);
    if fileId.None? {
      return Error(500);
    }
    return CompleteOk(fileId.value, session.filename, session.fileSize);
  }

  method ServeCancel(fm: FileManager, c: Call) returns (r: Reply)
    requires c.Cancel?
    modifies fm
    ensures (fm.View(), r) == HandleCancel(old(fm.View()), c)
  {
    if c.user == -1 {
      return Error(401);
    }
    if c.id == "" {
      return Error(400);
    }
    var p := AskedProgress(fm, c, c.id, c.user, c.now);
    if p.Missing? {
      return Error(404);
    }
    if p.expired {
      return Error(410);
    }
    var ok := fm.CancelSession(c.id, c.user, c.w);
    return if ok then CancelOk else Error(500);
  }

  method ServeUpload(fm: FileManager, c: Call) returns (r: Reply)
    requires c.Upload?
    modifies fm
    ensures (fm.View(), r) == HandleUpload(old(fm.View()), c)
  {
    if c.user == -1 {
      return Error(401);
    }
    if !c.w.account || c.user !in fm.db.users {
      return Error(404);
    }
    var account := fm.db.users[c.user];
    if account.storageUsed + |c.body| > account.storageLimit {
      return Error(400);
    }
    var fileId := fm.UploadDirect(c.user, c.filename, "application/octet-stream", c.body, c.name, c.w);
    return if fileId.Some? then UploadOk(fileId.value) else Error(500);
  }

  method ServeDelete(fm: FileManager, c: Call) returns (r: Reply)
    requires c.Delete?
    modifies fm
    ensures (fm.View(), r) == HandleDelete(old(fm.View()), c)
  {
    if c.user == -1 {
      return Error(401);
    }
    if c.fileId == -1 {
      return Error(400);
    }
    var ok := fm.RemoveFile(c.fileId, c.user, c.w);
    return if ok then DeleteOk else Error(500);
  }

  /** Serving any request is one step of the model. */
  method Serve(fm: FileManager, c: Call) returns (r: Reply)
    modifies fm
    ensures (fm.View(), r) == Step(fm.hash, old(fm.View()), c)
  {
    match c
    case Init(_, _, _, _, _, _, _, _) => r := ServeInit(fm, c);
    case Chunk(_, _, _, _, _, _, _, _) => r := ServeChunk(fm, c);
    case AskProgress(_, _, _, _) => r := ServeProgress(fm, c);
    case Complete(_, _, _, _, _, _) => r := ServeComplete(fm, c);
    case Cancel(_, _, _, _) => r := ServeCancel(fm, c);
    case Upload(_, _, _, _, _) => r := ServeUpload(fm, c);
    case Delete(_, _, _) => r := ServeDelete(fm, c);
  }
}
