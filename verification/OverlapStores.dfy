/** What overlapping completions store: the whole protocol of EndToEnd, with completions that take off
    and land as in Overlap. */
module OverlapStores {
  import opened Common
  import opened Chunking
  import opened UploadModel
  import opened UploadInvariants
  import opened UploadClient
  import opened EndToEnd
  import opened Overlap

  /** A completion in the air, what its merge wrote, and for which files the chunks had been written. */
  datatype Flight = Flight(p: Pending, bytes: seq<byte>, writer: map<ChunkKey, seq<byte>>)

  datatype Sky = Sky(world: World, air: seq<Flight>)

  datatype Deed = Ground(a: Action) | Rise(c: Call) | Fall(k: nat)

  ghost predicate May(t: Task, S: Sky, d: Deed)
    requires TaskOk(t)
  {
    match d
    case Ground(a) => Possible(t, S.world, a)
    case Rise(c) => c.Complete? && Fresh(S.world.server, c)
    case Fall(k) => k < |S.air|
  }

  ghost function Do(t: Task, S: Sky, d: Deed): Sky
    requires TaskOk(t) && May(t, S, d)
  {
    match d
    case Ground(a) => S.(world := Act(t, S.world, a))
    case Rise(c) =>
      var (s', row) := Prepare(S.world.server, c);
      Sky(S.world.(server := s'),
          if row.None? then S.air
          else S.air + [Flight(Pending(c.id, row.value, c.w), MergedBytes(S.world.server, c), S.world.writer)])
    case Fall(k) =>
      var p := S.air[k].p;
      Sky(S.world.(server := Settle(S.world.server, p.id, p.row, p.w).0), S.air[..k] + S.air[k + 1..])
  }

  /** What the merge of a completion writes. */
  ghost function MergedBytes(s: State, c: Call): seq<byte>
    requires c.Complete?
  {
    if c.id in s.db.sessions then Merge(s.temp, c.id, 0, s.db.sessions[c.id].totalChunks).0 else []
  }

  ghost predicate Follows(t: Task, S: Sky, deeds: seq<Deed>, S': Sky)
    requires TaskOk(t)
    decreases |deeds|
  {
    if deeds == [] then S == S' else May(t, S, deeds[0]) && Follows(t, Do(t, S, deeds[0]), deeds[1..], S')
  }

  // ---- what stays true ----

  /** The merged file lies at its path, and no row of `files` has that path. */
  ghost predicate Aloft(s: State, path: Path, bytes: seq<byte>) {
    && path in s.stored && s.stored[path] == bytes
    && forall f | f in s.db.files :: s.db.files[f].path != path
  }

  /** If the flight is one of our uploads, it holds a file exactly when its chunks' writers agreed on it. */
  ghost predicate BringsItsMerge(t: Task, W: World, f: Flight)
    requires TaskOk(t)
  {
    f.p.id in W.ours ==>
      && f.p.row.userId == t.user && f.p.row.size == t.size
      && forall file | |file| == t.size :: f.bytes == file <==> WritersAgree(t, f.writer, f.p.id, file)
  }

  ghost predicate FlightOk(t: Task, W: World, f: Flight)
    requires TaskOk(t)
  {
    && f.p.id in W.server.db.sessions && f.p.row.userId in W.server.db.users && f.p.row.size >= 0
    && Aloft(W.server, f.p.row.path, f.bytes) && BringsItsMerge(t, W, f)
  }

  ghost predicate SkySound(t: Task, S: Sky)
    requires TaskOk(t)
  {
    && Sound(t, S.world)
    && (forall i | 0 <= i < |S.air| :: FlightOk(t, S.world, S.air[i]))
    && forall i, j | 0 <= i < j < |S.air| :: S.air[i].p.row.path != S.air[j].p.row.path
  }

  lemma CompleteKeepsAloft(s: State, c: Call, path: Path, bytes: seq<byte>)
    requires WellFormed(s) && Fresh(s, c) && c.Complete? && Aloft(s, path, bytes)
    ensures Aloft(HandleComplete(s, c).0, path, bytes)
  {
    CompleteIsAllOrNothing(s, c);
    assert path != (c.user, c.name);
    assert path in s.stored - {(c.user, c.name)};
  }

  lemma UploadKeepsAloft(s: State, c: Call, path: Path, bytes: seq<byte>)
    requires Fresh(s, c) && c.Upload? && Aloft(s, path, bytes)
    ensures Aloft(HandleUpload(s, c).0, path, bytes)
  {
  }

  lemma DeleteKeepsAloft(s: State, c: Call, path: Path, bytes: seq<byte>)
    requires c.Delete? && Aloft(s, path, bytes)
    ensures Aloft(HandleDelete(s, c).0, path, bytes)
  {
  }

  lemma StepKeepsAloft(h: Hash, s: State, c: Call, path: Path, bytes: seq<byte>)
    requires WellFormed(s) && Fresh(s, c) && Aloft(s, path, bytes)
    ensures Aloft(Step(h, s, c).0, path, bytes)
  {
    match c
    case Init(_, _, _, _, _, _, _, _) =>
    case Chunk(_, _, _, _, _, _, _, _) =>
    case AskProgress(_, _, _, _) =>
    case Complete(_, _, _, _, _, _) => CompleteKeepsAloft(s, c, path, bytes);
    case Cancel(_, _, _, _) =>
    case Upload(_, _, _, _, _) => UploadKeepsAloft(s, c, path, bytes);
    case Delete(_, _, _) => DeleteKeepsAloft(s, c, path, bytes);
  }

  /** An upload id that becomes ours is new. */
  lemma OursWereNew(t: Task, W: World, a: Action, id: string)
    requires TaskOk(t) && Possible(t, W, a) && id in W.server.db.sessions && id in Act(t, W, a).ours
    ensures id in W.ours
  {
  }

  lemma ActKeepsFlight(t: Task, W: World, a: Action, f: Flight)
    requires TaskOk(t) && Sound(t, W) && Possible(t, W, a) && FlightOk(t, W, f)
    ensures FlightOk(t, Act(t, W, a), f)
  {
    if CallOf(a).Some? {
      var c := CallOf(a).value;
      StepKeepsAloft(t.h, W.server, c, f.p.row.path, f.bytes);
      StepMovesStatus(t.h, W.server, c, f.p.id);
      StepKeepsUsers(t.h, W.server, c);
    }
    if f.p.id in Act(t, W, a).ours {
      OursWereNew(t, W, a, f.p.id);
    }
  }

  lemma GroundKeepsSky(t: Task, S: Sky, a: Action)
    requires TaskOk(t) && SkySound(t, S) && Possible(t, S.world, a)
    ensures SkySound(t, Do(t, S, Ground(a)))
  {
    ActKeepsSound(t, S.world, a);
    forall i | 0 <= i < |S.air| ensures FlightOk(t, Act(t, S.world, a), S.air[i]) {
      ActKeepsFlight(t, S.world, a, S.air[i]);
    }
  }

  /** Neither half touches what the client's knowledge is about. */
  lemma HalfKeepsSound(t: Task, W: World, s': State)
    requires TaskOk(t) && Sound(t, W) && WellFormed(s')
    requires s'.db.chunks == W.server.db.chunks && forall k | k in s'.temp :: k in W.server.temp && s'.temp[k] == W.server.temp[k]
    requires forall id | id in W.server.db.sessions ::
               id in s'.db.sessions && s'.db.sessions[id] == W.server.db.sessions[id].(status := s'.db.sessions[id].status)
    ensures Sound(t, W.(server := s'))
  {
    var W' := W.(server := s');
    forall id | id in W.ours
      ensures Declares(t, s', id) && RowsFit(t, s'.db.chunks, id) && HoldsSlices(t, s'.temp, W.writer, id)
    {
      assert Declares(t, W.server, id) && HoldsSlices(t, W.server.temp, W.writer, id);
    }
    forall k | 0 <= k < |W.attempts| ensures Informed(t, W', W.attempts[k]) {
      assert Informed(t, W, W.attempts[k]);
    }
  }

  /** A flight starts with the merge of what the session holds. */
  lemma RiseIsOk(t: Task, W: World, c: Call)
    requires TaskOk(t) && Sound(t, W) && c.Complete? && Fresh(W.server, c) && Prepare(W.server, c).1.Some?
    ensures var (s', row) := Prepare(W.server, c);
            row.value.path == (c.user, c.name) &&
            FlightOk(t, W.(server := s'), Flight(Pending(c.id, row.value, c.w), MergedBytes(W.server, c), W.writer))
  {
    PreparedFits(W.server, c);
    var (s', row) := Prepare(W.server, c);
    var f := Flight(Pending(c.id, row.value, c.w), MergedBytes(W.server, c), W.writer);
    if c.id in W.ours {
      assert Declares(t, W.server, c.id) && HoldsSlices(t, W.server.temp, W.writer, c.id);
      forall file | |file| == t.size ensures f.bytes == file <==> WritersAgree(t, f.writer, c.id, file) {
        MergedSlicesAreTheFileIff(t, W, c.id, file);
      }
    }
  }

  lemma RiseKeepsOthers(t: Task, W: World, c: Call, f: Flight)
    requires TaskOk(t) && Sound(t, W) && c.Complete? && Fresh(W.server, c) && FlightOk(t, W, f)
    ensures FlightOk(t, W.(server := Prepare(W.server, c).0), f) && f.p.row.path != (c.user, c.name)
  {
    PreparedFits(W.server, c);
  }

  lemma RiseKeepsSky(t: Task, S: Sky, c: Call)
    requires TaskOk(t) && SkySound(t, S) && May(t, S, Rise(c))
    ensures SkySound(t, Do(t, S, Rise(c)))
  {
    var S' := Do(t, S, Rise(c));
    var (s', row) := Prepare(S.world.server, c);
    PreparedFits(S.world.server, c);
    HalfKeepsSound(t, S.world, s');
    forall i | 0 <= i < |S.air| ensures FlightOk(t, S'.world, S.air[i]) && S.air[i].p.row.path != (c.user, c.name) {
      RiseKeepsOthers(t, S.world, c, S.air[i]);
    }
    if row.Some? {
      RiseIsOk(t, S.world, c);
    }
  }

  lemma FallKeepsOther(t: Task, W: World, p: Pending, f: Flight)
    requires TaskOk(t) && Sound(t, W) && FlightOk(t, W, f) && f.p.row.path != p.row.path
    requires p.id in W.server.db.sessions && p.row.userId in W.server.db.users
    ensures FlightOk(t, W.(server := Settle(W.server, p.id, p.row, p.w).0), f)
  {
    SettlesIff(W.server, p.id, p.row, p.w);
    assert f.p.row.path in W.server.stored - {p.row.path};
  }

  lemma FallKeepsSound(t: Task, W: World, p: Pending)
    requires TaskOk(t) && Sound(t, W) && p.id in W.server.db.sessions && p.row.userId in W.server.db.users
    ensures Sound(t, W.(server := Settle(W.server, p.id, p.row, p.w).0))
  {
    SettlesIff(W.server, p.id, p.row, p.w);
    HalfKeepsSound(t, W, Settle(W.server, p.id, p.row, p.w).0);
  }

  lemma FallKeepsSky(t: Task, S: Sky, k: nat)
    requires TaskOk(t) && SkySound(t, S) && k < |S.air|
    ensures SkySound(t, Do(t, S, Fall(k)))
  {
    var S' := Do(t, S, Fall(k));
    var p := S.air[k].p;
    assert FlightOk(t, S.world, S.air[k]);
    FallKeepsSound(t, S.world, p);
    forall i | 0 <= i < |S.air| && i != k ensures FlightOk(t, S'.world, S.air[i]) {
      FallKeepsOther(t, S.world, p, S.air[i]);
    }
    forall i | 0 <= i < |S'.air| ensures FlightOk(t, S'.world, S'.air[i]) {
      assert S'.air[i] == S.air[if i < k then i else i + 1];
    }
  }

  lemma {:induction false} EverySkyIsSound(t: Task, S: Sky, deeds: seq<Deed>, S': Sky)
    requires TaskOk(t) && SkySound(t, S) && Follows(t, S, deeds, S')
    ensures SkySound(t, S')
    decreases |deeds|
  {
    if deeds != [] {
      var d := deeds[0];
      match d {
        case Ground(a) => GroundKeepsSky(t, S, a);
        case Rise(c) => RiseKeepsSky(t, S, c);
        case Fall(k) => FallKeepsSky(t, S, k);
      }
      EverySkyIsSound(t, Do(t, S, d), deeds[1..], S');
    }
  }

  lemma FallStores(s: State, p: Pending, bytes: seq<byte>, file: seq<byte>)
    requires Aloft(s, p.row.path, bytes) && p.row.size == |file|
    ensures var (s', fileId) := Settle(s, p.id, p.row, p.w);
            fileId.Some? ==> (StoredAs(s', fileId.value, p.row.userId, file) <==> bytes == file)
  {
  }

  /** However completions overlap: every row that an upload of ours yields has the key's size and owner,
      and stores a given file exactly when the files its chunks were written for, when its checks
      passed, agree with that file. */
  lemma EveryRowStoresItsFile(t: Task, W0: World, deeds: seq<Deed>, S: Sky, k: nat, file: seq<byte>)
    requires TaskOk(t) && Untouched(W0) && Follows(t, Sky(W0, []), deeds, S)
    requires k < |S.air| && S.air[k].p.id in S.world.ours && |file| == t.size
    ensures var f := S.air[k];
            var (s', fileId) := Settle(S.world.server, f.p.id, f.p.row, f.p.w);
            && f.p.row.userId == t.user && f.p.row.size == t.size
            && (fileId.Some? ==> (StoredAs(s', fileId.value, t.user, file) <==> WritersAgree(t, f.writer, f.p.id, file)))
  {
    EverySkyIsSound(t, Sky(W0, []), deeds, S);
    assert FlightOk(t, S.world, S.air[k]);
    FallStores(S.world.server, S.air[k].p, S.air[k].bytes, file);
  }
}
