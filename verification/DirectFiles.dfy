/** What a direct upload stores and what a deletion removes (handle_file_upload and handle_file_delete
    of src/http_handler.cpp over upload_file and delete_file of src/file_manager.cpp). */
module DirectFiles {
  import opened Common
  import opened UploadModel
  import opened UploadInvariants
  import opened EndToEnd
  import opened Outcomes

  /** Exactly when a direct upload succeeds. */
  lemma UploadSucceedsIff(s: State, c: Call)
    requires c.Upload?
    ensures HandleUpload(s, c).1.UploadOk? <==>
            && c.user != -1 && c.user in s.db.users && s.db.users[c.user].storageUsed + |c.body| <= s.db.users[c.user].storageLimit
            && c.w.account && c.w.directory && c.w.open && c.w.insert && c.w.charge
  {
  }

  /** What it stores then: the body that was sent, under a new id, charged to its owner; nothing else
      changes. */
  lemma UploadStoresBody(s: State, c: Call)
    requires Filed(s) && Fresh(s, c) && c.Upload? && HandleUpload(s, c).1.UploadOk?
    ensures var (s', r) := HandleUpload(s, c);
            && r.fileId !in s.db.files && StoredAs(s', r.fileId, c.user, c.body)
            && s'.db.files[r.fileId].originalFilename == c.filename
            && s'.db.files[r.fileId].mime == "application/octet-stream"
            && (forall f | f in s.db.files :: f in s'.db.files && s'.db.files[f] == s.db.files[f])
            && (forall f | f in s'.db.files :: f in s.db.files || f == r.fileId)
            && s'.db.sessions == s.db.sessions && s'.db.chunks == s.db.chunks && s'.temp == s.temp
            && (forall p | p in s.stored :: p in s'.stored && s'.stored[p] == s.stored[p])
            && s'.db.users.Keys == s.db.users.Keys
            && s'.db.users[c.user].storageUsed == s.db.users[c.user].storageUsed + |c.body|
            && (forall u | u in s.db.users && u != c.user :: s'.db.users[u] == s.db.users[u])
  {
  }

  /** One that fails leaves no bytes behind, and no row either, exactly unless the row went in and both the
      charge and the compensating DELETE failed. */
  lemma FailedUploadLeavesNothingIff(s: State, c: Call)
    requires Filed(s) && Fresh(s, c) && c.Upload? && HandleUpload(s, c).1.Error?
    ensures HandleUpload(s, c).0.stored == s.stored && HandleUpload(s, c).0.db.users == s.db.users
    ensures HandleUpload(s, c).0.db == s.db <==>
            !(&& c.user != -1 && c.w.account && c.user in s.db.users
              && s.db.users[c.user].storageUsed + |c.body| <= s.db.users[c.user].storageLimit
              && c.w.directory && c.w.open && c.w.insert && !c.w.charge && !c.w.undo)
  {
    assert s.stored - {(c.user, c.name)} == s.stored;
    assert s.db.files - {s.nextFileId} == s.db.files;
    assert s.nextFileId in s.db.files[s.nextFileId := FileRow(c.user, (c.user, c.name), c.filename, |c.body|, "application/octet-stream")];
  }

  /** What was uploaded stays, under its name, over every run in which its owner does not delete it. */
  lemma UploadedFileLasts(h: Hash, s: State, c: Call, calls: seq<Call>)
    requires WellFormed(s) && Filed(s) && Fresh(s, c) && c.Upload? && HandleUpload(s, c).1.UploadOk?
    requires FreshRun(h, HandleUpload(s, c).0, calls)
    requires forall d | d in calls :: !DeletesIt(d, HandleUpload(s, c).1.fileId, c.user)
    ensures var r := HandleUpload(s, c).1;
            var after := Run(h, HandleUpload(s, c).0, calls);
            StoredAs(after, r.fileId, c.user, c.body) && after.db.files[r.fileId].originalFilename == c.filename
  {
    UploadStoresBody(s, c);
    UploadKeepsStored(s, c, HandleUpload(s, c).1.fileId, c.user, c.body);
    StepKeepsWellFormed(h, s, c);
    StoredFileLasts(h, HandleUpload(s, c).0, calls, HandleUpload(s, c).1.fileId, c.user, c.body);
  }

  /** Exactly when a deletion succeeds: the caller owns the file, and no statement fails. */
  lemma DeleteSucceedsIff(s: State, c: Call)
    requires c.Delete?
    ensures HandleDelete(s, c).1.DeleteOk? <==>
            && c.user != -1 && c.fileId != -1 && c.fileId in s.db.files && s.db.files[c.fileId].userId == c.user
            && c.w.lookup && c.w.remove && c.w.charge
  {
  }

  /** The row and the bytes are gone then, and nothing else. */
  lemma DeleteRemoves(s: State, c: Call)
    requires Filed(s) && c.Delete? && HandleDelete(s, c).1.DeleteOk?
    ensures var s' := HandleDelete(s, c).0;
            && c.fileId in s.db.files && s'.db.files == s.db.files - {c.fileId}
            && s'.stored == s.stored - {s.db.files[c.fileId].path}
            && (forall f | f in s'.db.files && s'.db.files[f].path in s.stored ::
                  s'.db.files[f].path in s'.stored && s'.stored[s'.db.files[f].path] == s.stored[s'.db.files[f].path])
            && s'.db.sessions == s.db.sessions && s'.db.chunks == s.db.chunks && s'.temp == s.temp
            && s'.db.users.Keys == s.db.users.Keys
            && forall u | u in s.db.users && u != c.user :: s'.db.users[u] == s.db.users[u]
  {
  }

  lemma RefusedDeleteKeepsOthers(s: State, c: Call)
    requires Filed(s) && c.Delete? && HandleDelete(s, c).1.Error?
    ensures forall f | f in s.db.files && (f != c.fileId || s.db.files[f].userId != c.user) ::
              f in HandleDelete(s, c).0.db.files && HandleDelete(s, c).0.db.files[f] == s.db.files[f]
  {
  }

  /** A file id that is not in use and was drawn already. */
  ghost predicate Spent(s: State, fileId: int) {
    fileId !in s.db.files && fileId < s.nextFileId
  }

  lemma StepKeepsSpent(h: Hash, s: State, c: Call, fileId: int)
    requires WellFormed(s) && Spent(s, fileId)
    ensures Spent(Step(h, s, c).0, fileId)
  {
    match c
    case Init(_, _, _, _, _, _, _, _) =>
    case Chunk(_, _, _, _, _, _, _, _) =>
    case AskProgress(_, _, _, _) =>
    case Complete(_, _, _, _, _, _) => CompleteIsAllOrNothing(s, c);
    case Cancel(_, _, _, _) =>
    case Upload(_, _, _, _, _) => UploadKeepsSpent(s, c, fileId);
    case Delete(_, _, _) => DeleteKeepsSpent(s, c, fileId);
  }

  lemma UploadKeepsSpent(s: State, c: Call, fileId: int)
    requires c.Upload? && Spent(s, fileId)
    ensures Spent(HandleUpload(s, c).0, fileId)
  {
  }

  lemma DeleteKeepsSpent(s: State, c: Call, fileId: int)
    requires c.Delete? && Spent(s, fileId)
    ensures Spent(HandleDelete(s, c).0, fileId)
  {
  }

  lemma {:induction false} SpentRun(h: Hash, s: State, calls: seq<Call>, fileId: int)
    requires WellFormed(s) && FreshRun(h, s, calls) && Spent(s, fileId)
    ensures Spent(Run(h, s, calls), fileId)
    decreases |calls|
  {
    if calls != [] {
      StepKeepsSpent(h, s, calls[0], fileId);
      StepKeepsWellFormed(h, s, calls[0]);
      SpentRun(h, Step(h, s, calls[0]).0, calls[1..], fileId);
    }
  }

  /** A deleted file never comes back: its id is in no row over every later run. */
  lemma DeletedStaysDeleted(h: Hash, s: State, c: Call, calls: seq<Call>)
    requires WellFormed(s) && Filed(s) && c.Delete? && HandleDelete(s, c).1.DeleteOk?
    requires FreshRun(h, HandleDelete(s, c).0, calls)
    ensures c.fileId !in Run(h, HandleDelete(s, c).0, calls).db.files
  {
    DeleteRemoves(s, c);
    StepKeepsWellFormed(h, s, c);
    SpentRun(h, HandleDelete(s, c).0, calls, c.fileId);
  }

  /** What a refusal of a direct upload or a deletion says. */
  lemma DirectRefusals(s: State, c: Call)
    ensures c.Upload? && c.user != -1 ==>
              && (HandleUpload(s, c).1 == Error(404) <==> !c.w.account || c.user !in s.db.users)
              && (HandleUpload(s, c).1 == Error(400) <==>
                  c.w.account && c.user in s.db.users
                  && s.db.users[c.user].storageUsed + |c.body| > s.db.users[c.user].storageLimit)
    ensures c.Delete? && c.user != -1 ==> (HandleDelete(s, c).1 == Error(400) <==> c.fileId == -1)
    ensures c.Upload? || c.Delete? ==> forall code ::
              (c.Upload? && HandleUpload(s, c).1 == Error(code)) || (c.Delete? && HandleDelete(s, c).1 == Error(code)) ==>
              code in {400, 401, 404, 500}
  {
  }
}
