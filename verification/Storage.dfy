/** Storage accounting: users.storage_used against the sizes of the user's rows in `files`. */
module Storage {
  import opened Common
  import opened UploadModel
  import opened UploadInvariants

  function Charge(row: FileRow, user: int): int {
    if row.userId == user then row.size else 0
  }

  ghost function Charges(user: int): (int, FileRow) -> int {
    (f: int, row: FileRow) => Charge(row, user)
  }

  /** The sum of file_size over a user's rows. */
  ghost function Total(files: map<int, FileRow>, user: int): int {
    SumOver(files, Charges(user))
  }

  lemma TotalTakesOut(files: map<int, FileRow>, user: int, f: int)
    requires f in files
    ensures Total(files, user) == Charge(files[f], user) + Total(files - {f}, user)
  {
    SumOverTakesOut(files, Charges(user), f);
  }

  lemma TotalPutsIn(files: map<int, FileRow>, user: int, f: int, row: FileRow)
    requires f !in files
    ensures Total(files[f := row], user) == Total(files, user) + Charge(row, user)
  {
    SumOverPutsIn(files, Charges(user), f, row);
  }

  lemma {:induction false} TotalCovers(files: map<int, FileRow>, user: int)
    requires forall f | f in files :: files[f].size >= 0
    ensures Total(files, user) >= 0
    ensures forall f | f in files && files[f].userId == user :: files[f].size <= Total(files, user)
    decreases |files|
  {
    forall f | f in files
      ensures Total(files, user) >= Charge(files[f], user)
    {
      TotalTakesOut(files, user, f);
      TotalCovers(files - {f}, user);
    }
    if exists f :: f in files {
      var f :| f in files;
      assert Total(files, user) >= Charge(files[f], user);
    }
  }

  ghost predicate FilesOwned(s: State) {
    forall f | f in s.db.files :: s.db.files[f].userId in s.db.users && s.db.files[f].size >= 0 && f < s.nextFileId
  }

  /** Each user's storage_used is the sum of their file sizes. */
  ghost predicate Balanced(s: State) {
    && FilesOwned(s)
    && forall u | u in s.db.users :: s.db.users[u].storageUsed == Total(s.db.files, u)
  }

  lemma AddFileBalances(s: State, row: FileRow, s': State)
    requires Balanced(s) && row.userId in s.db.users && row.size >= 0
    requires s'.db.files == AddFile(s.db, s.nextFileId, row).files
    requires s'.db.users == AddFile(s.db, s.nextFileId, row).users
    requires s'.nextFileId == s.nextFileId + 1
    ensures Balanced(s')
  {
    assert s.nextFileId !in s.db.files;
    forall u | u in s'.db.users ensures s'.db.users[u].storageUsed == Total(s'.db.files, u) {
      TotalPutsIn(s.db.files, u, s.nextFileId, row);
    }
  }

  /** The transaction of a completion keeps the balance whatever it was told about the session when
      the call began, and whichever of its statements fails. */
  lemma CommitKeepsBalance(s: State, id: string, row: FileRow, w: Works)
    requires Balanced(s) && row.size >= 0
    ensures Balanced(CommitCompletion(s, id, row, w).0)
  {
    var s' := CommitCompletion(s, id, row, w).0;
    if Commits(s, row.userId, w) {
      AddFileBalances(s, row, s');
    } else {
      assert s'.db == s.db;
    }
  }

  lemma CompleteKeepsBalance(s: State, c: Call)
    requires WellFormed(s) && Balanced(s) && c.Complete?
    ensures Balanced(HandleComplete(s, c).0)
  {
    CompleteIsAllOrNothing(s, c);
    var (s', r) := HandleComplete(s, c);
    if r.CompleteOk? {
      assert SessionSane(s, c.id);
      AddFileBalances(s, CompletedRow(s.db.sessions[c.id], c.user, c.name), s');
    }
  }

  /** A direct upload whose charge and compensating DELETE both fail leaves an uncharged row. */
  ghost predicate UploadLeaks(s: State, c: Call)
    requires c.Upload?
  {
    && c.user != -1 && c.w.account && c.user in s.db.users
    && s.db.users[c.user].storageUsed + |c.body| <= s.db.users[c.user].storageLimit
    && c.w.directory && c.w.open && c.w.insert && !c.w.charge && !c.w.undo && c.body != []
  }

  lemma UploadKeepsBalanceIff(s: State, c: Call)
    requires Balanced(s) && c.Upload?
    ensures Balanced(HandleUpload(s, c).0) <==> !UploadLeaks(s, c)
  {
    var (s', r) := HandleUpload(s, c);
    var row := FileRow(c.user, (c.user, c.name), c.filename, |c.body|, "application/octet-stream");
    if r.UploadOk? {
      AddFileBalances(s, row, s');
    } else if c.user in s.db.users && s'.db.files == s.db.files[s.nextFileId := row] {
      forall u | u in s.db.users ensures Total(s'.db.files, u) == Total(s.db.files, u) + Charge(row, u) {
        TotalPutsIn(s.db.files, u, s.nextFileId, row);
      }
      assert s'.db.users == s.db.users;
    } else {
      assert s.db.files - {s.nextFileId} == s.db.files;
    }
  }

  /** A deletion whose row goes but whose discharge fails keeps charging for it. */
  ghost predicate DeleteLeaks(s: State, c: Call)
    requires c.Delete?
  {
    && c.user != -1 && c.fileId != -1 && c.w.lookup && c.w.remove && !c.w.charge
    && c.fileId in s.db.files && s.db.files[c.fileId].userId == c.user && s.db.files[c.fileId].size > 0
  }

  lemma DeleteKeepsBalanceIff(s: State, c: Call)
    requires Balanced(s) && c.Delete?
    ensures Balanced(HandleDelete(s, c).0) <==> !DeleteLeaks(s, c)
  {
    if c.fileId in s.db.files {
      var s' := HandleDelete(s, c).0;
      forall u | u in s.db.users
        ensures Total(s.db.files, u) == Charge(s.db.files[c.fileId], u) + Total(s.db.files - {c.fileId}, u)
      {
        TotalTakesOut(s.db.files, u, c.fileId);
      }
      TotalCovers(s.db.files, c.user);
      if s'.db.files == s.db.files - {c.fileId} {
        assert s.db.files[c.fileId].userId in s.db.users;
      }
    }
  }

  /** Such an upload: one byte, on an empty server, with the charge and the compensating DELETE failing. */
  lemma UploadCanLeak()
    ensures var s := State(Tables(map[], map[], map[], map[1 := UserRow(0, 100)]), 1, map[], map[]);
            var c := Upload(1, "f", [7], "u", AllWork.(charge := false, undo := false));
            Balanced(s) && !Balanced(HandleUpload(s, c).0)
  {
    var s := State(Tables(map[], map[], map[], map[1 := UserRow(0, 100)]), 1, map[], map[]);
    UploadKeepsBalanceIff(s, Upload(1, "f", [7], "u", AllWork.(charge := false, undo := false)));
  }

  /** Such a deletion: the only file of a user, with the discharge failing. */
  lemma DeleteCanLeak()
    ensures var row := FileRow(1, (1, "u"), "f", 1, "");
            var s := State(Tables(map[], map[], map[1 := row], map[1 := UserRow(1, 100)]), 2, map[], map[(1, "u") := [7]]);
            var c := UploadModel.Delete(1, 1, AllWork.(charge := false));
            Balanced(s) && !Balanced(HandleDelete(s, c).0)
  {
    var row := FileRow(1, (1, "u"), "f", 1, "");
    var files: map<int, FileRow> := map[];
    assert files[1 := row] == map[1 := row];
    TotalPutsIn(files, 1, 1, row);
    var s := State(Tables(map[], map[], map[1 := row], map[1 := UserRow(1, 100)]), 2, map[], map[(1, "u") := [7]]);
    DeleteKeepsBalanceIff(s, UploadModel.Delete(1, 1, AllWork.(charge := false)));
  }

  /** In a balanced state the GREATEST(0, ...) clamp never acts. */
  lemma ClampNeverActs(s: State, f: int)
    requires Balanced(s) && f in s.db.files
    ensures var row := s.db.files[f];
            Discharge(s.db.users[row.userId], row.size).storageUsed == s.db.users[row.userId].storageUsed - row.size
  {
    TotalCovers(s.db.files, s.db.files[f].userId);
  }

  /** No direct upload or deletion in the run leaks. */
  ghost predicate Leaks(s: State, c: Call) {
    (c.Upload? && UploadLeaks(s, c)) || (c.Delete? && DeleteLeaks(s, c))
  }

  /** What may be interleaved: whole calls, and the bare transaction of a completion that read its
      session at some earlier moment. */
  datatype Part = Whole(c: Call) | Commit(id: string, row: FileRow, w: Works)

  ghost function PlayPart(h: Hash, s: State, p: Part): State {
    match p
    case Whole(c) => Step(h, s, c).0
    case Commit(id, row, w) => CommitCompletion(s, id, row, w).0
  }

  ghost function Play(h: Hash, s: State, parts: seq<Part>): State
    decreases |parts|
  {
    if parts == [] then s else Play(h, PlayPart(h, s, parts[0]), parts[1..])
  }

  ghost predicate SoundPart(s: State, p: Part) {
    match p
    case Whole(c) => Fresh(s, c) && !Leaks(s, c)
    case Commit(_, row, _) => row.size >= 0
  }

  ghost predicate SoundParts(h: Hash, s: State, parts: seq<Part>)
    decreases |parts|
  {
    parts != [] ==> SoundPart(s, parts[0]) && SoundParts(h, PlayPart(h, s, parts[0]), parts[1..])
  }

  lemma CommitKeepsWellFormed(s: State, id: string, row: FileRow, w: Works)
    requires WellFormed(s)
    ensures WellFormed(CommitCompletion(s, id, row, w).0)
  {
  }

  lemma PartKeepsBalance(h: Hash, s: State, p: Part)
    requires WellFormed(s) && Balanced(s) && SoundPart(s, p)
    ensures WellFormed(PlayPart(h, s, p)) && Balanced(PlayPart(h, s, p))
  {
    match p
    case Whole(c) =>
      StepKeepsWellFormed(h, s, c);
      match c {
        case Init(_, _, _, _, _, _, _, _) =>
        case Chunk(_, _, _, _, _, _, _, _) =>
        case AskProgress(_, _, _, _) =>
        case Complete(_, _, _, _, _, _) => CompleteKeepsBalance(s, c);
        case Cancel(_, _, _, _) =>
        case Upload(_, _, _, _, _) => UploadKeepsBalanceIff(s, c);
        case Delete(_, _, _) => DeleteKeepsBalanceIff(s, c);
      }
    case Commit(id, row, w) =>
      CommitKeepsBalance(s, id, row, w);
      CommitKeepsWellFormed(s, id, row, w);
  }

  /** Storage is conserved over every run, even with completions that overlap at the granularity of
      their transactions. */
  lemma {:induction false} RunKeepsBalance(h: Hash, s: State, parts: seq<Part>)
    requires WellFormed(s) && Balanced(s) && SoundParts(h, s, parts)
    ensures WellFormed(Play(h, s, parts)) && Balanced(Play(h, s, parts))
    decreases |parts|
  {
    if parts != [] {
      PartKeepsBalance(h, s, parts[0]);
      RunKeepsBalance(h, PlayPart(h, s, parts[0]), parts[1..]);
    }
  }
}
