/** The statements of src/file_manager.cpp, in their order, over tables and files that are updated in
    place. Every method is proved to do what UploadModel says of the whole call. */
module FileManagement {
  import opened Common
  import opened UploadModel
  import opened Streams

  const MERGE_BUFFER: nat := 1024 * 1024

  class FileManager {
    const hash: Hash
    var db: Tables
    var nextFileId: int
    var temp: map<ChunkKey, seq<byte>>
    var stored: map<Path, seq<byte>>
    /** What ROLLBACK goes back to. */
    var savepoint: Tables

    ghost function View(): State
      reads this
    {
      State(db, nextFileId, temp, stored)
    }

    constructor (h: Hash, users: map<int, UserRow>)
      ensures hash == h
      ensures View() == State(Tables(map[], map[], map[], users), 1, map[], map[])
    {
      hash := h;
      db := Tables(map[], map[], map[], users);
      nextFileId := 1;
      temp := map[];
      stored := map[];
      savepoint := Tables(map[], map[], map[], users);
    }

    method CreateUploadSession(user: int, filename: string, size: int, chunks: int, mime: string,
                               id: string, now: int, w: Works) returns (ok: bool)
      modifies this`db
      ensures (View(), ok) == CreateSession(old(View()), user, filename, size, chunks, mime, id, now, w)
    {
      if user <= 0 || filename == "" || size <= 0 || chunks <= 0 {
        return false;
      }
      if !w.lookup || user !in db.users {
        return false;
      }
      var quota := db.users[user];
      if quota.storageUsed + size > quota.storageLimit {
        return false;
      }
      if !w.insert || id in db.sessions {
        return false;
      }
      var row := SessionRow(user, chunks, size, filename, mime, now + LIFETIME, Uploading);
      db := db.(sessions := db.sessions[id := row]);
      return true;
    }

    method StoreChunk(id: string, index: int, expected: string, body: seq<byte>, now: int, w: Works) returns (ok: bool)
      modifies this`db, this`temp
      ensures (View(), ok) == SaveChunk(hash, old(View()), id, index, expected, body, now, w)
    {
      if id == "" || index < 0 || |body| == 0 {
        return false;
      }
      if !w.lookup || id !in db.sessions {
        return false;
      }
      var session := db.sessions[id];
      if session.status != Uploading || session.expiresAt <= now {
        return false;
      }
      if index >= session.totalChunks {
        return false;
      }
      var actual := hash(body);
      if expected != "" && actual != expected {
        return false;
      }
      if !w.open {
        return false;
      }
      temp := temp[(id, index) := body];
      if w.insert {
        // INSERT ... ON DUPLICATE KEY UPDATE
        db := db.(chunks := db.chunks[(id, index) := ChunkRow(actual, |body|)]);
      }
      return w.insert;
    }

    /** SELECT COALESCE(SUM(chunk_size), 0). */
    method SumChunkSizes(id: string) returns (sum: int)
      ensures sum == UploadedSize(db.chunks, id)
    {
      sum := 0;
      var left := db.chunks;
      while left.Keys != {}
        invariant sum + UploadedSize(left, id) == UploadedSize(db.chunks, id)
        decreases |left.Keys|
      {
        var k :| k in left.Keys;
        SumOverTakesOut(left, SizeIn(id), k);
        if k.0 == id {
          sum := sum + left[k].size;
        }
        left := left - {k};
      }
    }

    /** SELECT chunk_index ... ORDER BY chunk_index ASC. */
    method ListIndices(id: string) returns (list: seq<int>)
      ensures list == InOrder(Indices(db.chunks, id))
    {
      list := [];
      var left := Indices(db.chunks, id);
      while left != {}
        invariant list + InOrder(left) == InOrder(Indices(db.chunks, id))
        decreases |left|
      {
        MinExists(left);
        var k :| k in left && IsMin(k, left);
        assert InOrder(left) == [k] + InOrder(left - {k});
        list := list + [k];
        left := left - {k};
      }
    }

    method UploadProgress(id: string, user: int, now: int, w: Works) returns (p: Progress)
      ensures p == GetProgress(View(), id, user, now, w.lookup, w.recount, w.list)
    {
      if id == "" || user <= 0 {
        return Missing;
      }
      if !w.lookup || id !in db.sessions || db.sessions[id].userId != user {
        return Missing;
      }
      var row := db.sessions[id];
      var completed, uploaded, indices := 0, 0, [];
      if w.recount {
        completed := |Indices(db.chunks, id)|;
        uploaded := SumChunkSizes(id);
      }
      if w.list {
        indices := ListIndices(id);
      }
      return Found(row.expiresAt <= now, row.status, row.totalChunks, row.fileSize, completed, uploaded, [], indices,
                   Fraction(completed, row.totalChunks));
    }

    /** merge_chunks: every chunk file is copied through a buffer, in index order, and the copy stops
        at the first chunk file that is missing. */
    method MergeChunks(id: string, total: int, dest: Path, bufferSize: nat) returns (ok: bool)
      requires bufferSize > 0
      modifies this`stored
      ensures stored == old(stored)[dest := Merge(temp, id, 0, total).0]
      ensures ok == Merge(temp, id, 0, total).1
    {
      var output: seq<byte> := [];
      var buffer := new byte[bufferSize];
      var i := 0;
      assert output + Merge(temp, id, 0, total).0 == Merge(temp, id, 0, total).0;
      while i < total
        invariant 0 <= i && (i <= total || i == 0)
        invariant Merge(temp, id, 0, total) == (output + Merge(temp, id, i, total).0, Merge(temp, id, i, total).1)
        invariant fresh(buffer) && stored == old(stored)
      {
        if (id, i) !in temp {
          assert output + Merge(temp, id, i, total).0 == output;
          stored := stored[dest := output];
          return false;
        }
        var chunk := CopyThrough(temp[(id, i)], buffer);
        assert output + (chunk + Merge(temp, id, i + 1, total).0) == output + chunk + Merge(temp, id, i + 1, total).0;
        output := output + chunk;
        i := i + 1;
      }
      assert output + Merge(temp, id, i, total).0 == output;
      stored := stored[dest := output];
      return true;
    }

    method Begin(works: bool) returns (ok: bool)
      modifies this`savepoint
      ensures ok == works && (ok ==> savepoint == db)
    {
      if works {
        savepoint := db;
      }
      return works;
    }

    method Rollback()
      modifies this`db
      ensures db == savepoint
    {
      db := savepoint;
    }

    method InsertFile(row: FileRow, works: bool) returns (ok: bool, id: int)
      modifies this`db, this`nextFileId
      ensures ok == (works && row.userId in old(db).users) && id == old(nextFileId)
      ensures db == if ok then old(db).(files := old(db).files[id := row]) else old(db)
      ensures nextFileId == if ok then old(nextFileId) + 1 else old(nextFileId)
    {
      id := nextFileId;
      ok := works && row.userId in db.users;
      if ok {
        db := db.(files := db.files[id := row]);
        nextFileId := id + 1;
      }
    }

    method ChargeUser(user: int, size: int, works: bool) returns (ok: bool)
      modifies this`db
      ensures ok == works
      ensures db == if ok && user in old(db).users
                    then old(db).(users := old(db).users[user := old(db).users[user].(storageUsed := old(db).users[user].storageUsed + size)])
                    else old(db)
    {
      if works && user in db.users {
        var u := db.users[user];
        db := db.(users := db.users[user := u.(storageUsed := u.storageUsed + size)]);
      }
      return works;
    }

    /** The transaction of complete_upload: each failing statement rolls back and unlinks. */
    method RunTransaction(id: string, row: FileRow, w: Works) returns (fileId: Option<int>)
      modifies this`db, this`nextFileId, this`stored, this`savepoint
      ensures (View(), fileId) == CommitCompletion(old(View()), id, row, w)
    {
      var begun := Begin(w.begin);
      if !begun {
        stored := stored - {row.path};
        return None;
      }
      var inserted, newId := InsertFile(row, w.insert);
      if !inserted {
        Rollback();
        stored := stored - {row.path};
        return None;
      }
      var charged := ChargeUser(row.userId, row.size, w.charge);
      if !charged {
        Rollback();
        stored := stored - {row.path};
        return None;
      }
      if !w.mark {
        Rollback();
        stored := stored - {row.path};
        return None;
      }
      db := SetStatus(db, id, Completed);
      if !w.commit {
        Rollback();
        stored := stored - {row.path};
        return None;
      }
      return Some(newId);
    }

    method FinishUpload(id: string, user: int, now: int, name: string, w: Works) returns (fileId: Option<int>)
      modifies this
      ensures (View(), fileId) == CompleteUpload(old(View()), id, user, now, name, w)
    {
      var progress := UploadProgress(id, user, now, w);
      if progress.Missing? || progress.expired || progress.status != Uploading {
        return None;
      }
      if progress.completedChunks != progress.totalChunks {
        return None;
      }
      if !w.meta {
        return None;
      }
      var session := db.sessions[id];
      if !w.directory || !w.open {
        return None;
      }
      var row := CompletedRow(session, user, name);
      var merged := MergeChunks(id, session.totalChunks, row.path, MERGE_BUFFER);
      if !merged {
        return None;
      }
      fileId := RunTransaction(id, row, w);
      if fileId.None? {
        return;
      }
      temp := DropTemp(temp, id);
    }

    method CancelSession(id: string, user: int, w: Works) returns (ok: bool)
      modifies this`db, this`temp
      ensures (View(), ok) == CancelUpload(old(View()), id, user, w)
    {
      if id == "" || user <= 0 {
        return false;
      }
      // UPDATE ... WHERE upload_id = id AND user_id = user AND status = 'uploading'
      if w.mark && id in db.sessions && db.sessions[id].userId == user && db.sessions[id].status == Uploading {
        db := SetStatus(db, id, Cancelled);
      }
      temp := DropTemp(temp, id);
      return w.mark;
    }

    method UploadDirect(user: int, filename: string, mime: string, data: seq<byte>, name: string, w: Works)
      returns (fileId: Option<int>)
      modifies this`db, this`nextFileId, this`stored
      ensures (View(), fileId) == UploadFile(old(View()), user, filename, mime, data, name, w)
    {
      if !w.directory || !w.open {
        return None;
      }
      var row := FileRow(user, (user, name), filename, |data|, mime);
      stored := stored[row.path := data];
      var inserted, newId := InsertFile(row, w.insert);
      if !inserted {
        stored := stored - {row.path};
        assert stored == old(stored) - {row.path};
        return None;
      }
      var charged := ChargeUser(user, row.size, w.charge);
      if !charged {
        if w.undo {
          db := db.(files := db.files - {newId});
          assert db.files == old(db).files - {newId};
        }
        stored := stored - {row.path};
        assert stored == old(stored) - {row.path};
        return None;
      }
      return Some(newId);
    }

    method RemoveFile(fileId: int, user: int, w: Works) returns (ok: bool)
      modifies this`db, this`stored
      ensures (View(), ok) == DeleteFile(old(View()), fileId, user, w)
    {
      if !w.lookup || fileId !in db.files || db.files[fileId].userId != user {
        return false;
      }
      var row := db.files[fileId];
      stored := stored - {row.path};
      if !w.remove {
        return false;
      }
      db := db.(files := db.files - {fileId});
      if w.charge && user in db.users {
        db := db.(users := db.users[user := Discharge(db.users[user], row.size)]);
      }
      return w.charge;
    }
  }
}
