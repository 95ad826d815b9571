/** Completions that overlap (src/file_manager.cpp): a call first checks the session and merges its
    chunks, and only later runs its transaction, which re-reads nothing. Here these are two steps, and
    anything may happen between them. */
module Overlap {
  import opened Common
  import opened Chunking
  import opened UploadModel
  import opened UploadInvariants
  import opened Storage

  // ---- the two halves of a completion ----

  /** The handler's and complete_upload's own checks all pass. */
  ghost predicate ChecksPass(s: State, c: Call)
    requires c.Complete?
  {
    && c.user != -1 && c.id != ""
    && var p := GetProgress(s, c.id, c.user, c.now, c.w.progress, c.w.count, c.w.list);
    && p.Found? && !p.expired && p.completedChunks == p.totalChunks
    && ReadyToMerge(s, c.id, c.user, c.later, c.w) && c.w.open
  }

  /** Up to the end of the merge: the merged file, and what the row will say if every chunk opened. */
  ghost function Prepare(s: State, c: Call): (State, Option<FileRow>)
    requires c.Complete?
  {
    if !ChecksPass(s, c) then (s, None)
    else
      var session := s.db.sessions[c.id];
      var (bytes, whole) := Merge(s.temp, c.id, 0, session.totalChunks);
      (s.(stored := s.stored[(c.user, c.name) := bytes]),
       if whole then Some(CompletedRow(session, c.user, c.name)) else None)
  }

  /** The transaction, and the removal of the chunk files. */
  ghost function Settle(s: State, id: string, row: FileRow, w: Works): (State, Option<int>) {
    var (s', fileId) := CommitCompletion(s, id, row, w);
    (if fileId.Some? then s'.(temp := DropTemp(s'.temp, id)) else s', fileId)
  }

  /** Back to back the two halves are the whole call. */
  lemma HalvesMakeTheWhole(s: State, c: Call)
    requires c.Complete?
    ensures var (whole, r) := HandleComplete(s, c);
            var (s1, row) := Prepare(s, c);
            if row.None? then whole == s1 && r.Error?
            else
              var (s2, fileId) := Settle(s1, c.id, row.value, c.w);
              whole == s2 && (if fileId.Some? then r.CompleteOk? && r.fileId == fileId.value else r.Error?)
  {
  }

  /** Every statement of the transaction succeeds. */
  predicate Willing(w: Works) {
    w.begin && w.insert && w.charge && w.mark && w.commit
  }

  // ---- any number of completions in the air ----

  /** A completion whose checks and merge are behind it. */
  datatype Pending = Pending(id: string, row: FileRow, w: Works)

  datatype Floor = Floor(server: State, air: seq<Pending>)

  /** A completion that overlaps nothing is a TakeOff and a Land in a row. */
  datatype Move = Request(c: Call) | TakeOff(c: Call) | Land(k: nat)

  ghost predicate Allowed(F: Floor, m: Move) {
    match m
    case Request(c) => !c.Complete? && Fresh(F.server, c)
    case TakeOff(c) => c.Complete? && Fresh(F.server, c)
    case Land(k) => k < |F.air|
  }

  ghost function Make(h: Hash, F: Floor, m: Move): Floor
    requires Allowed(F, m)
  {
    match m
    case Request(c) => F.(server := Step(h, F.server, c).0)
    case TakeOff(c) =>
      var (s', row) := Prepare(F.server, c);
      Floor(s', if row.Some? then F.air + [Pending(c.id, row.value, c.w)] else F.air)
    case Land(k) =>
      var p := F.air[k];
      Floor(Settle(F.server, p.id, p.row, p.w).0, F.air[..k] + F.air[k + 1..])
  }

  ghost predicate Leads(h: Hash, F: Floor, moves: seq<Move>, F': Floor)
    decreases |moves|
  {
    if moves == [] then F == F'
    else Allowed(F, moves[0]) && Leads(h, Make(h, F, moves[0]), moves[1..], F')
  }

  /** Land(k) adds a row to `files` for this upload. */
  ghost predicate Adds(F: Floor, m: Move, id: string)
    requires Allowed(F, m)
  {
    m.Land? && F.air[m.k].id == id && Settle(F.server, id, F.air[m.k].row, F.air[m.k].w).1.Some?
  }

  /** How many rows of `files` a run adds for an upload. */
  ghost function Rows(h: Hash, F: Floor, moves: seq<Move>, F': Floor, id: string): nat
    requires Leads(h, F, moves, F')
    decreases |moves|
  {
    if moves == [] then 0
    else (if Adds(F, moves[0], id) then 1 else 0) + Rows(h, Make(h, F, moves[0]), moves[1..], F', id)
  }

  ghost function Counts(id: string): Pending -> nat {
    (p: Pending) => if p.id == id && Willing(p.w) then 1 else 0
  }

  /** How many completions of an upload are in the air whose transaction will not fail. */
  ghost function InTheAir(air: seq<Pending>, id: string): nat {
    SumBy(air, Counts(id))
  }

  /** The most that are in the air at once during a run. */
  ghost function Peak(h: Hash, F: Floor, moves: seq<Move>, F': Floor, id: string): nat
    requires Leads(h, F, moves, F')
    decreases |moves|
  {
    var here := InTheAir(F.air, id);
    if moves == [] then here
    else
      var later := Peak(h, Make(h, F, moves[0]), moves[1..], F', id);
      if here > later then here else later
  }

  /** What is in the air fits the tables. */
  ghost predicate Grounded(F: Floor) {
    && WellFormed(F.server)
    && forall p | p in F.air ::
         p.id in F.server.db.sessions && p.row.userId in F.server.db.users && p.row.size >= 0
  }

  // ---- what the moves keep ----

  lemma {:induction false} SumByAppend<T>(s: seq<T>, x: T, weight: T -> nat)
    ensures SumBy(s + [x], weight) == SumBy(s, weight) + weight(x)
  {
    if s == [] {
      assert s + [x] == [x];
    } else {
      assert (s + [x])[1..] == s[1..] + [x];
      SumByAppend(s[1..], x, weight);
    }
  }

  lemma {:induction false} SumByRemove<T>(s: seq<T>, k: nat, weight: T -> nat)
    requires k < |s|
    ensures SumBy(s, weight) == SumBy(s[..k] + s[k + 1..], weight) + weight(s[k])
  {
    if k == 0 {
      assert s[..0] + s[1..] == s[1..];
    } else {
      assert (s[..k] + s[k + 1..])[1..] == s[1..][..k - 1] + s[1..][k..];
      SumByRemove(s[1..], k - 1, weight);
    }
  }

  lemma PreparedFits(s: State, c: Call)
    requires WellFormed(s) && c.Complete?
    ensures var (s', row) := Prepare(s, c);
            && s'.db == s.db && s'.temp == s.temp && s'.nextFileId == s.nextFileId
            && (row.Some? ==> && c.id in s.db.sessions && s.db.sessions[c.id].status == Uploading
                              && row.value == CompletedRow(s.db.sessions[c.id], c.user, c.name)
                              && c.user in s.db.users && row.value.size >= 0)
  {
    if ChecksPass(s, c) {
      assert SessionSane(s, c.id);
    }
  }

  /** The transaction goes through exactly when none of its statements fails; then the session is final. */
  lemma SettlesIff(s: State, id: string, row: FileRow, w: Works)
    requires WellFormed(s) && id in s.db.sessions && row.userId in s.db.users
    ensures var (s', fileId) := Settle(s, id, row, w);
            && (fileId.Some? <==> Willing(w))
            && WellFormed(s') && s'.db.users.Keys == s.db.users.Keys
            && if fileId.Some? then
                 && fileId.value == s.nextFileId && s'.db.files == s.db.files[s.nextFileId := row]
                 && s'.db.sessions == s.db.sessions[id := s.db.sessions[id].(status := Status.Completed)]
               else s'.db == s.db
  {
  }

  lemma StepKeepsUsers(h: Hash, s: State, c: Call)
    requires WellFormed(s)
    ensures s.db.users.Keys <= Step(h, s, c).0.db.users.Keys
  {
    match c
    case Init(_, _, _, _, _, _, _, _) =>
    case Chunk(_, _, _, _, _, _, _, _) =>
    case AskProgress(_, _, _, _) =>
    case Complete(_, _, _, _, _, _) => CompleteIsAllOrNothing(s, c);
    case Cancel(_, _, _, _) =>
    case Upload(_, _, _, _, _) => DirectUploadFrame(s, c);
    case Delete(_, _, _) => DeleteFrame(s, c);
  }

  lemma RequestKeepsGrounded(h: Hash, F: Floor, c: Call)
    requires Grounded(F) && Allowed(F, Request(c))
    ensures Grounded(Make(h, F, Request(c)))
  {
    StepKeepsWellFormed(h, F.server, c);
    StepKeepsUsers(h, F.server, c);
    forall p | p in F.air ensures p.id in Step(h, F.server, c).0.db.sessions {
      StepMovesStatus(h, F.server, c, p.id);
    }
  }

  lemma MoveKeepsGrounded(h: Hash, F: Floor, m: Move)
    requires Grounded(F) && Allowed(F, m)
    ensures Grounded(Make(h, F, m))
  {
    match m
    case Request(c) => RequestKeepsGrounded(h, F, c);
    case TakeOff(c) => PreparedFits(F.server, c);
    case Land(k) =>
      var p := F.air[k];
      assert p in F.air;
      SettlesIff(F.server, p.id, p.row, p.w);
  }

  ghost predicate Final(s: State, id: string) {
    id in s.db.sessions && s.db.sessions[id].status != Uploading
  }

  /** A move adds at most one completion of an upload to those in the air, none once its session is
      final; only a landing takes one away, and one that adds a row makes the session final. */
  lemma MoveCounts(h: Hash, F: Floor, m: Move, id: string)
    requires Grounded(F) && Allowed(F, m)
    ensures var F' := Make(h, F, m);
            && (Final(F.server, id) ==> Final(F'.server, id))
            && (if Adds(F, m, id) then Final(F'.server, id) && InTheAir(F'.air, id) + 1 == InTheAir(F.air, id)
                else if Final(F.server, id) then InTheAir(F'.air, id) == InTheAir(F.air, id)
                else InTheAir(F'.air, id) >= InTheAir(F.air, id))
  {
    match m
    case Request(c) =>
      if id in F.server.db.sessions {
        StepMovesStatus(h, F.server, c, id);
      }
    case TakeOff(c) =>
      PreparedFits(F.server, c);
      var row := Prepare(F.server, c).1;
      if row.Some? {
        SumByAppend(F.air, Pending(c.id, row.value, c.w), Counts(id));
      }
    case Land(k) =>
      var p := F.air[k];
      assert p in F.air;
      SettlesIff(F.server, p.id, p.row, p.w);
      SumByRemove(F.air, k, Counts(id));
  }

  /** After the end, landings add exactly what was in the air. */
  lemma {:induction false} FinalRunCounts(h: Hash, F: Floor, moves: seq<Move>, F': Floor, id: string)
    requires Grounded(F) && Leads(h, F, moves, F') && Final(F.server, id)
    ensures Peak(h, F, moves, F', id) == InTheAir(F.air, id) == Rows(h, F, moves, F', id) + InTheAir(F'.air, id)
    decreases |moves|
  {
    if moves != [] {
      MoveCounts(h, F, moves[0], id);
      MoveKeepsGrounded(h, F, moves[0]);
      FinalRunCounts(h, Make(h, F, moves[0]), moves[1..], F', id);
    }
  }

  lemma {:induction false} PeakStarts(h: Hash, F: Floor, moves: seq<Move>, F': Floor, id: string)
    requires Leads(h, F, moves, F')
    ensures Peak(h, F, moves, F', id) >= InTheAir(F.air, id)
  {
  }

  /** Over every run, the rows an upload yields and its completions still in the air are together the
      most completions of it that were in the air at once. */
  lemma {:induction false} RowsAreThePeak(h: Hash, F: Floor, moves: seq<Move>, F': Floor, id: string)
    requires Grounded(F) && Leads(h, F, moves, F')
    ensures Rows(h, F, moves, F', id) + InTheAir(F'.air, id) == Peak(h, F, moves, F', id)
    decreases |moves|
  {
    if moves != [] {
      var F1 := Make(h, F, moves[0]);
      MoveCounts(h, F, moves[0], id);
      MoveKeepsGrounded(h, F, moves[0]);
      if Adds(F, moves[0], id) {
        FinalRunCounts(h, F1, moves[1..], F', id);
      } else {
        RowsAreThePeak(h, F1, moves[1..], F', id);
        PeakStarts(h, F1, moves[1..], F', id);
      }
    }
  }

  /** Exactly when an upload yields at most one row of `files` over a run that lets every completion
      end: never are two completions of it, neither of which is going to fail, in the air at once. */
  lemma OneRowIff(h: Hash, s: State, moves: seq<Move>, F': Floor, id: string)
    requires WellFormed(s) && Leads(h, Floor(s, []), moves, F') && F'.air == []
    ensures Rows(h, Floor(s, []), moves, F', id) == Peak(h, Floor(s, []), moves, F', id)
    ensures Rows(h, Floor(s, []), moves, F', id) <= 1 <==> Peak(h, Floor(s, []), moves, F', id) <= 1
  {
    RowsAreThePeak(h, Floor(s, []), moves, F', id);
  }

  /** Two completions of one upload whose checks both come before either transaction both commit exactly
      when both pass their checks and merges and no statement of either transaction fails. If the first
      transaction comes before the second check, the second check fails. */
  lemma PairCommitsIff(s: State, c: Call, d: Call)
    requires WellFormed(s) && c.Complete? && d.Complete? && c.id == d.id
    ensures var (s1, first) := Prepare(s, c);
            var (s2, second) := Prepare(s1, d);
            && second == Prepare(s, d).1
            && (first.Some? && second.Some? ==>
                  var (s3, f) := Settle(s2, c.id, first.value, c.w);
                  var (s4, g) := Settle(s3, d.id, second.value, d.w);
                  f.Some? && g.Some? <==> Willing(c.w) && Willing(d.w))
            && (first.Some? && Settle(s1, c.id, first.value, c.w).1.Some? ==>
                  Prepare(Settle(s1, c.id, first.value, c.w).0, d).1.None?)
  {
    var (s1, first) := Prepare(s, c);
    PreparedFits(s, c);
    MergedFilesDoNotMatter(s, s1, d);
    PreparedFits(s, d);
    if first.Some? {
      SettlesIff(s1, c.id, first.value, c.w);
      if Willing(c.w) {
        FinalIsRefused(Settle(s1, c.id, first.value, c.w).0, d);
      }
      var s2 := Prepare(s1, d).0;
      PreparedFits(s1, d);
      SettlesIff(s2, c.id, first.value, c.w);
      if Prepare(s, d).1.Some? {
        SettlesIff(Settle(s2, c.id, first.value, c.w).0, d.id, Prepare(s, d).1.value, d.w);
      }
    }
  }

  lemma MergedFilesDoNotMatter(s: State, s': State, d: Call)
    requires d.Complete? && s'.db == s.db && s'.temp == s.temp
    ensures Prepare(s', d).1 == Prepare(s, d).1
  {
  }

  lemma FinalIsRefused(s: State, d: Call)
    requires d.Complete? && Final(s, d.id)
    ensures Prepare(s, d).1.None?
  {
  }

  // ---- the accounts, all the same ----

  /** No direct upload or deletion of the run leaks. */
  ghost predicate Tight(h: Hash, F: Floor, moves: seq<Move>, F': Floor)
    requires Leads(h, F, moves, F')
    decreases |moves|
  {
    moves != [] ==> !(moves[0].Request? && Leaks(F.server, moves[0].c)) && Tight(h, Make(h, F, moves[0]), moves[1..], F')
  }

  lemma MoveKeepsBalance(h: Hash, F: Floor, m: Move)
    requires Grounded(F) && Balanced(F.server) && Allowed(F, m) && !(m.Request? && Leaks(F.server, m.c))
    ensures Balanced(Make(h, F, m).server)
  {
    match m
    case Request(c) => PartKeepsBalance(h, F.server, Part.Whole(c));
    case TakeOff(c) => PreparedFits(F.server, c);
    case Land(k) =>
      assert F.air[k] in F.air;
      CommitKeepsBalance(F.server, F.air[k].id, F.air[k].row, F.air[k].w);
  }

  /** However completions overlap, storage_used stays the sum of the user's file sizes: a file that is
      stored twice is charged twice. */
  lemma {:induction false} OverlapKeepsBalance(h: Hash, F: Floor, moves: seq<Move>, F': Floor)
    requires Grounded(F) && Balanced(F.server) && Leads(h, F, moves, F') && Tight(h, F, moves, F')
    ensures Grounded(F') && Balanced(F'.server)
    decreases |moves|
  {
    if moves != [] {
      MoveKeepsBalance(h, F, moves[0]);
      MoveKeepsGrounded(h, F, moves[0]);
      OverlapKeepsBalance(h, Make(h, F, moves[0]), moves[1..], F');
    }
  }

  // ---- a run with two rows ----

  const Nobody: State := State(Tables(map[], map[], map[], map[1 := UserRow(0, 100)]), 1, map[], map[])

  function Opened(h: Hash, chunks: map<ChunkKey, ChunkRow>, temp: map<ChunkKey, seq<byte>>,
                  stored: map<Path, seq<byte>>): State {
    State(Tables(map["id" := SessionRow(1, 1, 2, "f", "", LIFETIME, Uploading)], chunks, map[], map[1 := UserRow(0, 100)]),
          1, temp, stored)
  }

  function Ready(h: Hash, stored: map<Path, seq<byte>>): State {
    Opened(h, map[("id", 0) := ChunkRow(h([5, 6]), 2)], map[("id", 0) := [5, 6]], stored)
  }

  const OneFile: FileRow := FileRow(1, (1, "u"), "f", 2, "")

  function Twice(h: Hash): seq<Move> {
    [Request(Init(1, "f", 2, 1, "", "id", 0, AllWork)), Request(Chunk(1, "id", 0, h([5, 6]), [5, 6], 1, 1, AllWork)),
     TakeOff(Complete(1, "id", 2, 2, "u", AllWork)), TakeOff(Complete(1, "id", 2, 2, "v", AllWork)), Land(0), Land(0)]
  }

  lemma ReadyToComplete(h: Hash, stored: map<Path, seq<byte>>, name: string)
    ensures Prepare(Ready(h, stored), Complete(1, "id", 2, 2, name, AllWork)) ==
            (Ready(h, stored[(1, name) := [5, 6]]), Some(OneFile.(path := (1, name))))
  {
    var s := Ready(h, stored);
    assert ("id", 0) in s.db.chunks;
    assert Indices(s.db.chunks, "id") == {0};
    assert Merge(s.temp, "id", 1, 1) == ([], true);
    assert Merge(s.temp, "id", 0, 1) == (s.temp[("id", 0)] + Merge(s.temp, "id", 1, 1).0, true);
    assert Merge(s.temp, "id", 0, 1).0 == [5, 6];
  }

  lemma {:induction false} LeadsOn(h: Hash, F: Floor, m: Move, rest: seq<Move>, F': Floor, id: string)
    requires Allowed(F, m) && Leads(h, Make(h, F, m), rest, F')
    ensures Leads(h, F, [m] + rest, F')
    ensures Rows(h, F, [m] + rest, F', id) == (if Adds(F, m, id) then 1 else 0) + Rows(h, Make(h, F, m), rest, F', id)
  {
    assert ([m] + rest)[1..] == rest;
  }

  lemma OpeningMoves(h: Hash)
    ensures HandleInit(Nobody, Init(1, "f", 2, 1, "", "id", 0, AllWork)).0 == Opened(h, map[], map[], map[])
    ensures HandleChunk(h, Opened(h, map[], map[], map[]), Chunk(1, "id", 0, h([5, 6]), [5, 6], 1, 1, AllWork)).0 == Ready(h, map[])
  {
  }

  const Second: FileRow := OneFile.(path := (1, "v"))

  function Both(): map<Path, seq<byte>> {
    map[(1, "u") := [5, 6], (1, "v") := [5, 6]]
  }

  function Landed(h: Hash, files: map<int, FileRow>, next: int, used: int): State {
    State(Tables(map["id" := SessionRow(1, 1, 2, "f", "", LIFETIME, Status.Completed)],
                 map[("id", 0) := ChunkRow(h([5, 6]), 2)], files, map[1 := UserRow(used, 100)]),
          next, map[], Both())
  }

  lemma FirstLanding(h: Hash)
    ensures Settle(Ready(h, Both()), "id", OneFile, AllWork) == (Landed(h, map[1 := OneFile], 2, 2), Some(1))
  {
    var s, s' := Ready(h, Both()), Settle(Ready(h, Both()), "id", OneFile, AllWork).0;
    assert s'.temp == map[];
    assert s'.db.files == map[1 := OneFile];
    assert s'.db.users == map[1 := UserRow(2, 100)];
    assert s'.db.sessions == map["id" := SessionRow(1, 1, 2, "f", "", LIFETIME, Status.Completed)];
  }

  lemma SecondLanding(h: Hash)
    ensures Settle(Landed(h, map[1 := OneFile], 2, 2), "id", Second, AllWork) ==
            (Landed(h, map[1 := OneFile, 2 := Second], 3, 4), Some(2))
  {
    var s' := Settle(Landed(h, map[1 := OneFile], 2, 2), "id", Second, AllWork).0;
    assert s'.temp == map[];
    assert s'.db.files == map[1 := OneFile, 2 := Second];
    assert s'.db.users == map[1 := UserRow(4, 100)];
    assert s'.db.sessions == map["id" := SessionRow(1, 1, 2, "f", "", LIFETIME, Status.Completed)];
  }

  function Pendings(): seq<Pending> {
    [Pending("id", OneFile, AllWork), Pending("id", Second, AllWork)]
  }

  function End(h: Hash): Floor {
    Floor(Landed(h, map[1 := OneFile, 2 := Second], 3, 4), [])
  }

  lemma BothLand(h: Hash)
    ensures Leads(h, Floor(Ready(h, Both()), Pendings()), [Land(0), Land(0)], End(h))
    ensures Rows(h, Floor(Ready(h, Both()), Pendings()), [Land(0), Land(0)], End(h), "id") == 2
  {
    FirstLanding(h);
    SecondLanding(h);
    var F, F1 := Floor(Ready(h, Both()), Pendings()), Floor(Landed(h, map[1 := OneFile], 2, 2), [Pendings()[1]]);
    assert Pendings()[..0] + Pendings()[1..] == [Pendings()[1]];
    assert Make(h, F, Land(0)) == F1;
    assert [Pendings()[1]][..0] + [Pendings()[1]][1..] == [];
    assert Make(h, F1, Land(0)) == End(h);
    LeadsOn(h, F1, Land(0), [], End(h), "id");
    assert [Land(0)] + [] == [Land(0)];
    LeadsOn(h, F, Land(0), [Land(0)], End(h), "id");
    assert [Land(0)] + [Land(0)] == [Land(0), Land(0)];
  }

  lemma TakesOff(h: Hash, stored: map<Path, seq<byte>>, air: seq<Pending>, name: string)
    requires (1, name) !in stored
    ensures var c := Complete(1, "id", 2, 2, name, AllWork);
            Allowed(Floor(Ready(h, stored), air), TakeOff(c)) && Make(h, Floor(Ready(h, stored), air), TakeOff(c)) ==
            Floor(Ready(h, stored[(1, name) := [5, 6]]), air + [Pending("id", OneFile.(path := (1, name)), AllWork)])
  {
    ReadyToComplete(h, stored, name);
  }

  lemma SecondTakesOff(h: Hash)
    ensures var F := Floor(Ready(h, map[(1, "u") := [5, 6]]), [Pendings()[0]]);
            && Leads(h, F, Twice(h)[3..], End(h)) && Rows(h, F, Twice(h)[3..], End(h), "id") == 2
  {
    var F := Floor(Ready(h, map[(1, "u") := [5, 6]]), [Pendings()[0]]);
    var stored := map[(1, "u") := [5, 6]];
    TakesOff(h, stored, [Pendings()[0]], "v");
    assert [Pendings()[0]] + [Pendings()[1]] == Pendings();
    BothLand(h);
    LeadsOn(h, F, Twice(h)[3], [Land(0), Land(0)], End(h), "id");
    assert [Twice(h)[3]] + [Land(0), Land(0)] == Twice(h)[3..];
  }

  lemma BothTakeOff(h: Hash)
    ensures var F := Floor(Ready(h, map[]), []);
            && Leads(h, F, Twice(h)[2..], End(h)) && Rows(h, F, Twice(h)[2..], End(h), "id") == 2
  {
    var F := Floor(Ready(h, map[]), []);
    TakesOff(h, map[], [], "u");
    assert [] + [Pendings()[0]] == [Pendings()[0]];
    SecondTakesOff(h);
    LeadsOn(h, F, Twice(h)[2], Twice(h)[3..], End(h), "id");
    assert [Twice(h)[2]] + Twice(h)[3..] == Twice(h)[2..];
  }

  /** From an empty server, two completions of one upload that overlap: two rows are stored and the
      file is charged twice. */
  lemma OverlapYieldsTwoRows(h: Hash)
    ensures Leads(h, Floor(Nobody, []), Twice(h), End(h)) && Rows(h, Floor(Nobody, []), Twice(h), End(h), "id") == 2
    ensures End(h).server.db.files == map[1 := OneFile, 2 := Second] && End(h).server.db.users[1].storageUsed == 2 * 2
  {
    var init, chunk := Twice(h)[0], Twice(h)[1];
    BothTakeOff(h);
    OpeningMoves(h);
    var F1, F2 := Floor(Opened(h, map[], map[], map[]), []), Floor(Ready(h, map[]), []);
    assert Make(h, F1, chunk) == F2;
    LeadsOn(h, F1, chunk, Twice(h)[2..], End(h), "id");
    assert [chunk] + Twice(h)[2..] == Twice(h)[1..];
    assert Make(h, Floor(Nobody, []), init) == F1;
    LeadsOn(h, Floor(Nobody, []), init, Twice(h)[1..], End(h), "id");
    assert [init] + Twice(h)[1..] == Twice(h);
  }
}
