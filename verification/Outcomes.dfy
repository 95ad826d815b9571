/** What follows an attempt: when its completion goes through, that it can always go on to one, what a
    lost answer does, and how long the stored file lasts. */
module Outcomes {
  import opened Common
  import opened Chunking
  import opened UploadModel
  import opened UploadInvariants
  import opened UploadClient
  import opened EndToEnd
  import opened ProgressReports

  // ---- an attempt whose workers all finished can complete ----

  /** The action is a cancel that, its UPDATE failing, tears this session. */
  ghost predicate TearsIt(s: State, a: Action, id: string) {
    CallOf(a).Some? && Tears(s, CallOf(a).value, id)
  }

  /** No step of the run tears the session. */
  ghost predicate GentleRun(t: Task, W: World, actions: seq<Action>, W': World, id: string)
    requires TaskOk(t)
    decreases |actions|
  {
    Happens(t, W, actions, W') &&
    (actions != [] ==> !TearsIt(W.server, actions[0], id) && GentleRun(t, Act(t, W, actions[0]), actions[1..], W', id))
  }

  /** If the upload is one of ours, its recorded chunks have their files. */
  ghost predicate OursHasFiles(W: World, id: string) {
    id in W.ours ==> FilesOf(W.server, id)
  }

  /** A session that is opened now has no chunk rows yet. */
  lemma NewSessionHasFiles(s: State, c: Call)
    requires WellFormed(s) && c.Init? && Fresh(s, c)
    ensures FilesOf(HandleInit(s, c).0, c.id)
  {
    forall k | k in s.db.chunks ensures k.0 != c.id {
      assert InRange(s.db.sessions, k);
    }
  }

  lemma ActKeepsFiles(t: Task, W: World, a: Action, id: string)
    requires TaskOk(t) && WellFormed(W.server) && OursHasFiles(W, id) && Possible(t, W, a) && !TearsIt(W.server, a, id)
    ensures OursHasFiles(Act(t, W, a), id)
  {
    if a.Open? && a.c.id == id {
      NewSessionHasFiles(W.server, a.c);
    } else if CallOf(a).Some? && id in W.ours {
      StepKeepsFilesIff(t.h, W.server, CallOf(a).value, id);
    }
  }

  lemma {:induction false} GentleRunKeepsFiles(t: Task, W: World, actions: seq<Action>, W': World, id: string)
    requires TaskOk(t) && Sound(t, W) && OursHasFiles(W, id) && GentleRun(t, W, actions, W', id)
    ensures OursHasFiles(W', id)
    decreases |actions|
  {
    if actions != [] {
      ActKeepsFiles(t, W, actions[0], id);
      ActKeepsSound(t, W, actions[0]);
      GentleRunKeepsFiles(t, Act(t, W, actions[0]), actions[1..], W', id);
    }
  }

  lemma FinishedIsRecorded(t: Task, W: World, k: nat)
    requires TaskOk(t) && Sound(t, W) && k < |W.attempts| && AllFinished(W.attempts[k])
    ensures Declares(t, W.server, W.attempts[k].uploadId)
    ensures EveryChunkRecorded(W.server, W.attempts[k].uploadId)
  {
    var a := W.attempts[k];
    assert Informed(t, W, a);
    assert Declares(t, W.server, a.uploadId);
    FinishedHasAll(a);
    forall i | 0 <= i < Pieces(t) ensures (a.uploadId, i) in W.server.db.chunks {
      assert i in a.already + a.acked;
    }
  }

  /** When Promise.all has resolved, and no cancel tore this session, the completion succeeds exactly
      when no statement of it fails and the session is still uploading and unexpired: the client never
      asks too early. */
  lemma FinishSucceedsIff(t: Task, W0: World, actions: seq<Action>, W: World, k: nat, c: Call)
    requires TaskOk(t) && Untouched(W0) && c.Complete? && GentleRun(t, W0, actions, W, c.id)
    requires Possible(t, W, Finish(k, c, true))
    ensures c.id in W.server.db.sessions
    ensures HandleComplete(W.server, c).1.CompleteOk? <==>
            && CompletionWorks(c.w)
            && W.server.db.sessions[c.id].status == Uploading
            && c.now < W.server.db.sessions[c.id].expiresAt && c.later < W.server.db.sessions[c.id].expiresAt
  {
    EveryRunIsSound(t, W0, actions, W);
    GentleRunKeepsFiles(t, W0, actions, W, c.id);
    assert Informed(t, W, W.attempts[k]);
    FinishedIsRecorded(t, W, k);
    CompletionSucceedsIff(W.server, c);
  }

  /** The session is live at `now`, its chunk files are there, and nothing uses the path. */
  ghost predicate Live(s: State, id: string, now: int, path: Path) {
    && FilesOf(s, id) && PathUnused(s, path)
    && id in s.db.sessions && s.db.sessions[id].status == Uploading && now < s.db.sessions[id].expiresAt
  }

  lemma ChunkKeepsLive(h: Hash, s: State, c: Call, id: string, now: int, path: Path)
    requires WellFormed(s) && c.Chunk? && Live(s, id, now, path)
    ensures Live(HandleChunk(h, s, c).0, id, now, path)
  {
    ChunkKeepsFiles(h, s, c, id);
    ChunkMovesStatus(h, s, c, id);
  }

  /** Attempt k can still succeed: nothing of it failed, its session is live at `now`, and `name` is a
      path for the finished file that nothing uses. */
  ghost predicate Promising(t: Task, W: World, k: nat, now: int, name: string)
    requires TaskOk(t)
  {
    && Sound(t, W) && k < |W.attempts| && Threw !in W.attempts[k].workers
    && Live(W.server, W.attempts[k].uploadId, now, (t.user, name))
  }

  function PostCall(t: Task, a: Attempt, i: nat, now: int): Call
    requires TaskOk(t) && |a.file| == t.size && i < Pieces(t)
  {
    var slice := Slice(a.file, t.chunk, i);
    Chunk(t.user, a.uploadId, i, t.h(slice), slice, now, now, AllWork)
  }

  /** A chunk of a live session that arrives intact is acknowledged. */
  lemma IntactChunkIsTaken(t: Task, W: World, k: nat, w: nat, now: int, name: string)
    requires TaskOk(t) && (forall x :: t.h(x) != "") && Promising(t, W, k, now, name)
    requires w < |W.attempts[k].workers| && W.attempts[k].workers[w].Sending?
    ensures |W.attempts[k].file| == t.size && 0 <= W.attempts[k].workers[w].index < Pieces(t)
    ensures var c := PostCall(t, W.attempts[k], W.attempts[k].workers[w].index, now);
            && Possible(t, W, Post(k, w, c, true))
            && HandleChunk(t.h, W.server, c).1.ChunkOk?
            && Promising(t, Act(t, W, Post(k, w, c, true)), k, now, name)
            && Act(t, W, Post(k, w, c, true)).attempts[k] == Advance(W.attempts[k], Answer(w, true))
  {
    var a := W.attempts[k];
    FlyingIsInRange(t, W, k, w);
    var c := PostCall(t, a, a.workers[w].index, now);
    assert Declares(t, W.server, a.uploadId) by {
      assert Informed(t, W, a);
    }
    ChunkAcknowledgedIff(t.h, W.server, c);
    AcknowledgedKeepsPromise(t, W, k, w, c, now, name);
  }

  lemma FlyingIsInRange(t: Task, W: World, k: nat, w: nat)
    requires TaskOk(t) && Sound(t, W) && k < |W.attempts|
    requires w < |W.attempts[k].workers| && W.attempts[k].workers[w].Sending?
    ensures |W.attempts[k].file| == t.size && 0 <= W.attempts[k].workers[w].index < Pieces(t)
  {
    assert Informed(t, W, W.attempts[k]);
    FlyingIsNowhereElse(W.attempts[k], w);
  }

  lemma AcknowledgedKeepsPromise(t: Task, W: World, k: nat, w: nat, c: Call, now: int, name: string)
    requires TaskOk(t) && Promising(t, W, k, now, name) && Possible(t, W, Post(k, w, c, true))
    requires HandleChunk(t.h, W.server, c).1.ChunkOk?
    ensures Promising(t, Act(t, W, Post(k, w, c, true)), k, now, name)
  {
    ActKeepsSound(t, W, Post(k, w, c, true));
    ChunkKeepsLive(t.h, W.server, c, W.attempts[k].uploadId, now, (t.user, name));
    AdvanceThrows(W.attempts[k], Answer(w, true));
  }

  lemma TakingKeepsPromise(t: Task, W: World, k: nat, w: nat, now: int, name: string)
    requires TaskOk(t) && Promising(t, W, k, now, name) && Enabled(W.attempts[k], Next(w))
    ensures Promising(t, Act(t, W, TakeNext(k, w)), k, now, name)
  {
    ActKeepsSound(t, W, TakeNext(k, w));
    AdvanceThrows(W.attempts[k], Next(w));
  }

  lemma FinishedCanComplete(t: Task, W: World, k: nat, now: int, name: string)
    requires TaskOk(t) && Promising(t, W, k, now, name) && AllFinished(W.attempts[k])
    ensures var c := Complete(t.user, W.attempts[k].uploadId, now, now, name, AllWork);
            Possible(t, W, Finish(k, c, true)) && HandleComplete(W.server, c).1.CompleteOk?
  {
    FinishIsPossible(t, W, k, now, name);
    FinishedIsRecorded(t, W, k);
    LiveSessionCompletes(W.server, W.attempts[k].uploadId, t.user, now, name);
  }

  lemma FinishIsPossible(t: Task, W: World, k: nat, now: int, name: string)
    requires TaskOk(t) && Promising(t, W, k, now, name) && AllFinished(W.attempts[k])
    ensures Possible(t, W, Finish(k, Complete(t.user, W.attempts[k].uploadId, now, now, name, AllWork), true))
  {
  }

  lemma LiveSessionCompletes(s: State, id: string, user: int, now: int, name: string)
    requires WellFormed(s) && Live(s, id, now, (user, name))
    requires s.db.sessions[id].userId == user && EveryChunkRecorded(s, id)
    ensures HandleComplete(s, Complete(user, id, now, now, name, AllWork)).1.CompleteOk?
  {
    CompletionSucceedsIff(s, Complete(user, id, now, now, name, AllWork));
  }

  ghost predicate SameWriter(writer: map<ChunkKey, seq<byte>>, writer': map<ChunkKey, seq<byte>>, key: ChunkKey) {
    (key in writer <==> key in writer') && (key in writer ==> writer'[key] == writer[key])
  }

  /** From W to W' only attempt k went on: what it had stays, and what it added it wrote from its file. */
  ghost predicate GoesOn(W: World, W': World, k: nat) {
    && k < |W.attempts| == |W'.attempts| && W'.ours == W.ours && W'.resume == W.resume
    && (forall j | 0 <= j < |W.attempts| && j != k :: W'.attempts[j] == W.attempts[j])
    && var a, b := W.attempts[k], W'.attempts[k];
    && b.file == a.file && b.uploadId == a.uploadId && b.total == a.total && b.already == a.already && a.acked <= b.acked
    && (forall i | i in a.already + a.acked :: SameWriter(W.writer, W'.writer, (a.uploadId, i)))
    && (forall i | i in b.acked - a.acked :: (a.uploadId, i) in W'.writer && W'.writer[(a.uploadId, i)] == a.file)
  }

  lemma GoesOnFurther(W: World, W1: World, W2: World, k: nat)
    requires GoesOn(W, W1, k) && GoesOn(W1, W2, k)
    ensures GoesOn(W, W2, k)
  {
    var a, b, c := W.attempts[k], W1.attempts[k], W2.attempts[k];
    forall i | i in c.acked - a.acked
      ensures (a.uploadId, i) in W2.writer && W2.writer[(a.uploadId, i)] == a.file
    {
      if i in b.acked {
        assert SameWriter(W1.writer, W2.writer, (a.uploadId, i));
      }
    }
    forall i | i in a.already + a.acked ensures SameWriter(W.writer, W2.writer, (a.uploadId, i)) {
      assert SameWriter(W.writer, W1.writer, (a.uploadId, i)) && SameWriter(W1.writer, W2.writer, (a.uploadId, i));
    }
  }

  lemma AcknowledgedWasWritten(h: Hash, s: State, c: Call)
    requires c.Chunk? && HandleChunk(h, s, c).1.ChunkOk?
    ensures WritesChunk(h, s, c)
  {
  }

  lemma PostGoesOn(t: Task, W: World, k: nat, w: nat, c: Call)
    requires TaskOk(t) && Sound(t, W) && Possible(t, W, Post(k, w, c, true)) && HandleChunk(t.h, W.server, c).1.ChunkOk?
    ensures GoesOn(W, Act(t, W, Post(k, w, c, true)), k)
  {
    AcknowledgedWasWritten(t.h, W.server, c);
    FlyingIsNew(t, W, k, w);
    AnswerGoesOn(W, Step(t.h, W.server, c).0, k, w);
  }

  lemma FlyingIsNew(t: Task, W: World, k: nat, w: nat)
    requires TaskOk(t) && Sound(t, W) && k < |W.attempts|
    requires w < |W.attempts[k].workers| && W.attempts[k].workers[w].Sending?
    ensures W.attempts[k].workers[w].index !in W.attempts[k].already + W.attempts[k].acked
  {
    assert Informed(t, W, W.attempts[k]);
    FlyingIsNowhereElse(W.attempts[k], w);
  }

  lemma AnswerGoesOn(W: World, s': State, k: nat, w: nat)
    requires k < |W.attempts| && Enabled(W.attempts[k], Answer(w, true))
    requires W.attempts[k].workers[w].index !in W.attempts[k].already + W.attempts[k].acked
    ensures var a := W.attempts[k];
            GoesOn(W, W.(server := s', attempts := W.attempts[k := Advance(a, Answer(w, true))],
                         writer := W.writer[(a.uploadId, a.workers[w].index) := a.file]), k)
  {
    var a := W.attempts[k];
    assert Advance(a, Answer(w, true)).acked - a.acked == {a.workers[w].index};
  }

  /** While a worker has not finished, some step of the attempt is possible and keeps the promise. */
  lemma SomeStepHelps(t: Task, W: World, k: nat, now: int, name: string) returns (action: Action)
    requires TaskOk(t) && (forall x :: t.h(x) != "") && Promising(t, W, k, now, name) && !AllFinished(W.attempts[k])
    ensures (action.TakeNext? || action.Post?) && action.k == k && Possible(t, W, action)
    ensures var W' := Act(t, W, action);
            Promising(t, W', k, now, name) && GoesOn(W, W', k) && Ahead(W'.attempts[k]) + 1 == Ahead(W.attempts[k])
  {
    var a := W.attempts[k];
    var w: nat :| w < |a.workers| && a.workers[w] != Finished;
    assert a.workers[w] in a.workers;
    if a.workers[w].Looping? {
      TakingHelps(t, W, k, w, now, name);
      action := TakeNext(k, w);
    } else {
      action := SendingHelps(t, W, k, w, now, name);
    }
  }

  lemma TakingHelps(t: Task, W: World, k: nat, w: nat, now: int, name: string)
    requires TaskOk(t) && Promising(t, W, k, now, name) && Enabled(W.attempts[k], Next(w))
    ensures Possible(t, W, TakeNext(k, w))
    ensures var W' := Act(t, W, TakeNext(k, w));
            Promising(t, W', k, now, name) && GoesOn(W, W', k) && Ahead(W'.attempts[k]) + 1 == Ahead(W.attempts[k])
  {
    TakingKeepsPromise(t, W, k, w, now, name);
    TakingGoesOn(W, k, w);
    AdvanceGetsAhead(W.attempts[k], Next(w));
  }

  lemma TakingGoesOn(W: World, k: nat, w: nat)
    requires k < |W.attempts| && Enabled(W.attempts[k], Next(w))
    ensures GoesOn(W, W.(attempts := W.attempts[k := Advance(W.attempts[k], Next(w))]), k)
  {
    var b := Advance(W.attempts[k], Next(w));
    assert b.acked == W.attempts[k].acked && b.already == W.attempts[k].already;
  }

  lemma SendingHelps(t: Task, W: World, k: nat, w: nat, now: int, name: string) returns (action: Action)
    requires TaskOk(t) && (forall x :: t.h(x) != "") && Promising(t, W, k, now, name)
    requires w < |W.attempts[k].workers| && W.attempts[k].workers[w].Sending?
    ensures action.Post? && action.k == k && Possible(t, W, action)
    ensures var W' := Act(t, W, action);
            Promising(t, W', k, now, name) && GoesOn(W, W', k) && Ahead(W'.attempts[k]) + 1 == Ahead(W.attempts[k])
  {
    IntactChunkIsTaken(t, W, k, w, now, name);
    var c := PostCall(t, W.attempts[k], W.attempts[k].workers[w].index, now);
    action := Post(k, w, c, true);
    PostGoesOn(t, W, k, w, c);
    AdvanceGetsAhead(W.attempts[k], Answer(w, true));
  }

  /** The client is never in a dead end: from every sound world, as all reachable ones are, in which an
      attempt has no failure and a live session, going on sending makes the upload succeed. */
  lemma {:induction false} CanAlwaysFinish(t: Task, W: World, k: nat, now: int, name: string)
      returns (actions: seq<Action>, W': World)
    requires TaskOk(t) && (forall x :: t.h(x) != "") && Promising(t, W, k, now, name)
    ensures Happens(t, W, actions, W') && |actions| <= Ahead(W.attempts[k]) && GoesOn(W, W', k)
    ensures forall a | a in actions :: (a.TakeNext? || a.Post?) && a.k == k
    ensures var c := Complete(t.user, W.attempts[k].uploadId, now, now, name, AllWork);
            Possible(t, W', Finish(k, c, true)) && HandleComplete(W'.server, c).1.CompleteOk?
    decreases Ahead(W.attempts[k])
  {
    if AllFinished(W.attempts[k]) {
      actions, W' := [], W;
      FinishedCanComplete(t, W, k, now, name);
    } else {
      var action := SomeStepHelps(t, W, k, now, name);
      var rest;
      rest, W' := CanAlwaysFinish(t, Act(t, W, action), k, now, name);
      GoesOnFurther(W, Act(t, W, action), W', k);
      actions := [action] + rest;
      assert actions[1..] == rest;
    }
  }

  function OpenCall(t: Task, filename: string, id: string, now: int): Call
    requires TaskOk(t)
  {
    Init(t.user, filename, t.size, Pieces(t), "", id, now, AllWork)
  }

  /** The user has room for the file, and the names about to be drawn are new. */
  ghost predicate CanOpen(t: Task, s: State, filename: string, id: string, name: string) {
    && filename != "" && t.user in s.db.users && s.db.users[t.user].storageUsed + t.size <= s.db.users[t.user].storageLimit
    && id != "" && id !in s.db.sessions && PathUnused(s, (t.user, name))
  }

  lemma OpenedIsPromising(t: Task, W: World, file: seq<byte>, filename: string, id: string, now: int, name: string)
    requires TaskOk(t) && Sound(t, W) && |file| == t.size && CanOpen(t, W.server, filename, id, name)
    ensures var a := Open(OpenCall(t, filename, id, now), file, true);
            && Possible(t, W, a)
            && Act(t, W, a).attempts == W.attempts + [Start(file, id, Pieces(t), {})] && Act(t, W, a).resume == Some(id)
            && Promising(t, Act(t, W, a), |W.attempts|, now, name)
  {
    var c := OpenCall(t, filename, id, now);
    CeilDivBounds(t.size, t.chunk);
    InitAcceptedIff(W.server, c);
    NewSessionHasFiles(W.server, c);
    ActKeepsSound(t, W, Open(c, file, true));
  }

  /** In every sound world, as all reachable ones are, a file that fits the quota can be uploaded: open a
      session, send every chunk, complete; nothing that happened before stands in the way. */
  lemma UploadCanSucceed(t: Task, W: World, file: seq<byte>, filename: string, id: string, now: int, name: string)
      returns (actions: seq<Action>, W': World)
    requires TaskOk(t) && (forall x :: t.h(x) != "") && Sound(t, W)
    requires |file| == t.size && CanOpen(t, W.server, filename, id, name)
    ensures Happens(t, W, actions, W') && W'.resume == Some(id)
    ensures var c := Complete(t.user, id, now, now, name, AllWork);
            Possible(t, W', Finish(|W.attempts|, c, true)) && HandleComplete(W'.server, c).1.CompleteOk?
  {
    OpenedIsPromising(t, W, file, filename, id, now, name);
    var open := Open(OpenCall(t, filename, id, now), file, true);
    var rest;
    rest, W' := CanAlwaysFinish(t, Act(t, W, open), |W.attempts|, now, name);
    actions := [open] + rest;
    assert actions[1..] == rest;
  }

  lemma ResumeListsRecorded(t: Task, W: World, id: string, now: int)
    requires TaskOk(t) && Sound(t, W) && id in W.ours && now < W.server.db.sessions[id].expiresAt
    ensures var r := HandleProgress(W.server, AskProgress(t.user, id, now, AllWork));
            r.ProgressOk? && AsSet(r.indices) == Indices(W.server.db.chunks, id)
  {
    assert Declares(t, W.server, id) && SessionSane(W.server, id);
    ProgressListsIndices(W.server, AskProgress(t.user, id, now, AllWork));
  }

  lemma ResumedIsPromising(t: Task, W: World, file: seq<byte>, id: string, now: int, name: string)
    requires TaskOk(t) && Sound(t, W) && |file| == t.size && W.resume == Some(id) && Live(W.server, id, now, (t.user, name))
    ensures var a := Resume(AskProgress(t.user, id, now, AllWork), file, true);
            && Possible(t, W, a)
            && Act(t, W, a) == W.(attempts := W.attempts + [Start(file, id, Pieces(t), Indices(W.server.db.chunks, id))])
            && Promising(t, Act(t, W, a), |W.attempts|, now, name)
  {
    var c := AskProgress(t.user, id, now, AllWork);
    ResumeListsRecorded(t, W, id, now);
    ActKeepsSound(t, W, Resume(c, file, true));
  }

  /** An interrupted upload can be resumed: as long as the saved session is live, asking for its progress
      and sending what is missing ends in a completion that succeeds, whatever the earlier attempts did. */
  lemma ResumeCanSucceed(t: Task, W: World, file: seq<byte>, id: string, now: int, name: string)
      returns (actions: seq<Action>, W': World)
    requires TaskOk(t) && (forall x :: t.h(x) != "") && Sound(t, W)
    requires |file| == t.size && W.resume == Some(id) && Live(W.server, id, now, (t.user, name))
    ensures Happens(t, W, actions, W') && actions != [] && actions[0] == Resume(AskProgress(t.user, id, now, AllWork), file, true)
    ensures |W'.attempts| == |W.attempts| + 1 && W'.attempts[|W.attempts|].already == Indices(W.server.db.chunks, id)
    ensures forall a | a in actions[1..] :: (a.TakeNext? || a.Post?) && a.k == |W.attempts|
    ensures var c := Complete(t.user, id, now, now, name, AllWork);
            Possible(t, W', Finish(|W.attempts|, c, true)) && HandleComplete(W'.server, c).1.CompleteOk?
  {
    ResumedIsPromising(t, W, file, id, now, name);
    var resume := Resume(AskProgress(t.user, id, now, AllWork), file, true);
    var rest;
    rest, W' := CanAlwaysFinish(t, Act(t, W, resume), |W.attempts|, now, name);
    actions := [resume] + rest;
    assert actions[1..] == rest;
  }

  lemma NothingRemains(n: nat)
    ensures Remaining(n, Below(n)) == []
  {
    var queue := Remaining(n, Below(n));
    if queue != [] {
      RemainingCounts(n, Below(n), queue[0]);
    }
  }

  // ---- a completion whose answer is lost ----

  lemma ActMovesSession(t: Task, W: World, a: Action, id: string)
    requires TaskOk(t) && Sound(t, W) && Possible(t, W, a) && id in W.server.db.sessions
    ensures SessionMoves(W.server, Act(t, W, a).server, id) && W.ours <= Act(t, W, a).ours
  {
    if CallOf(a).Some? {
      StepMovesStatus(t.h, W.server, CallOf(a).value, id);
    }
  }

  lemma {:induction false} RunMovesSession(t: Task, W: World, actions: seq<Action>, W': World, id: string)
    requires TaskOk(t) && Sound(t, W) && Happens(t, W, actions, W') && id in W.server.db.sessions
    ensures SessionMoves(W.server, W'.server, id) && W.ours <= W'.ours
    decreases |actions|
  {
    if actions != [] {
      ActMovesSession(t, W, actions[0], id);
      ActKeepsSound(t, W, actions[0]);
      RunMovesSession(t, Act(t, W, actions[0]), actions[1..], W', id);
    }
  }

  /** Right after a completion that succeeded: the session is final, every chunk is on record, and the
      client still holds the upload id exactly when the answer did not reach it. */
  lemma FinishSettles(t: Task, W: World, k: nat, c: Call, heard: bool)
    requires TaskOk(t) && Sound(t, W) && Possible(t, W, Finish(k, c, heard)) && HandleComplete(W.server, c).1.CompleteOk?
    ensures var W1 := Act(t, W, Finish(k, c, heard));
            && Sound(t, W1) && c.id in W1.ours && Declares(t, W1.server, c.id) && EveryChunkRecorded(W1.server, c.id)
            && W1.server.db.sessions[c.id] == W.server.db.sessions[c.id].(status := UploadModel.Completed)
            && W1.resume == if heard then None else W.resume
  {
    FinishedIsRecorded(t, W, k);
    assert Informed(t, W, W.attempts[k]);
    ActKeepsSound(t, W, Finish(k, c, heard));
    CompleteIsAllOrNothing(W.server, c);
  }

  /** What every later world of a finished upload says: progress lists all chunks as long as the session
      lasts, an attempt that resumes has nothing to send, and every further completion is refused. */
  ghost predicate Stuck(t: Task, s: State, id: string)
    requires TaskOk(t)
  {
    && id in s.db.sessions
    && (forall ask: Call | ask.AskProgress? && ask.user == t.user && ask.id == id && ask.now < s.db.sessions[id].expiresAt
                           && ask.w.progress && ask.w.count && ask.w.list ::
          HandleProgress(s, ask) == ListsAll(t))
    && (forall file :: Start(file, id, Pieces(t), AsSet(ListsAll(t).indices)).queue == [])
    && (forall again: Call | again.Complete? && again.id == id ::
          HandleComplete(s, again).1.Error? && HandleComplete(s, again).0 == s)
  }

  lemma FinalIsStuck(t: Task, s: State, id: string)
    requires TaskOk(t) && WellFormed(s) && Declares(t, s, id) && RowsFit(t, s.db.chunks, id) && EveryChunkRecorded(s, id)
    requires s.db.sessions[id].status == UploadModel.Completed
    ensures Stuck(t, s, id)
  {
    forall ask: Call | ask.AskProgress? && ask.user == t.user && ask.id == id && ask.now < s.db.sessions[id].expiresAt
                       && ask.w.progress && ask.w.count && ask.w.list
      ensures HandleProgress(s, ask) == ListsAll(t)
    {
      ProgressListsAll(t, s, ask);
    }
    InOrderIsSet(Below(Pieces(t)));
    NothingRemains(Pieces(t));
    forall again: Call | again.Complete? && again.id == id
      ensures HandleComplete(s, again).1.Error? && HandleComplete(s, again).0 == s
    {
      assert !ReadyToMerge(s, again.id, again.user, again.later, again.w);
    }
  }

  /** If a completion succeeds and its answer is lost, the client keeps the upload id, and whatever
      happens afterwards that id leads nowhere: resuming finds every chunk present and nothing to send,
      and every further completion is refused and changes nothing. */
  lemma LostAnswerSticks(t: Task, W0: World, actions: seq<Action>, W: World, k: nat, c: Call, more: seq<Action>, W2: World)
    requires TaskOk(t) && Untouched(W0) && Happens(t, W0, actions, W)
    requires Possible(t, W, Finish(k, c, false)) && HandleComplete(W.server, c).1.CompleteOk?
    requires Happens(t, Act(t, W, Finish(k, c, false)), more, W2)
    ensures Act(t, W, Finish(k, c, false)).resume == W.resume
    ensures Stuck(t, W2.server, c.id) && W2.server.db.sessions[c.id].expiresAt == W.server.db.sessions[c.id].expiresAt
  {
    EveryRunIsSound(t, W0, actions, W);
    FinishSettles(t, W, k, c, false);
    var W1 := Act(t, W, Finish(k, c, false));
    RunMovesSession(t, W1, more, W2, c.id);
    EveryRunIsSound(t, W1, more, W2);
    assert c.id in W2.ours;
    FinalIsStuck(t, W2.server, c.id);
  }

  /** Lost answers happen: from every untouched world in which a file fits, some run ends with a
      completion that succeeds unheard. The client still holds the upload id, which is stuck. */
  lemma LostAnswerHappens(t: Task, W0: World, file: seq<byte>, filename: string, id: string, now: int, name: string)
      returns (actions: seq<Action>, W: World)
    requires TaskOk(t) && (forall x :: t.h(x) != "") && Untouched(W0)
    requires |file| == t.size && CanOpen(t, W0.server, filename, id, name)
    ensures var c := Complete(t.user, id, now, now, name, AllWork);
            && Happens(t, W0, actions, W) && Possible(t, W, Finish(0, c, false)) && HandleComplete(W.server, c).1.CompleteOk?
            && Act(t, W, Finish(0, c, false)).resume == Some(id) && Stuck(t, Act(t, W, Finish(0, c, false)).server, id)
  {
    actions, W := UploadCanSucceed(t, W0, file, filename, id, now, name);
    var c := Complete(t.user, id, now, now, name, AllWork);
    assert Possible(t, W, Finish(0, c, false));
    LostAnswerSticks(t, W0, actions, W, 0, c, [], Act(t, W, Finish(0, c, false)));
  }

  // ---- the saved upload id ----

  ghost predicate OpensHeard(a: Action) {
    a.Open? && a.heard
  }

  /** What each request does to the saved upload id: a heard answer to init saves it, a progress answer
      that is good and heard keeps it and starts an attempt with the listed chunks; any other outcome of
      asking for progress drops it and starts nothing, and so does cancelling. */
  lemma KeyAfterRequest(t: Task, W: World, a: Action)
    requires TaskOk(t) && Possible(t, W, a)
    ensures a.Open? && a.heard && HandleInit(W.server, a.c).1.InitOk? ==>
              Act(t, W, a).resume == Some(a.c.id) && |Act(t, W, a).attempts| == |W.attempts| + 1
    ensures a.Open? && !(a.heard && HandleInit(W.server, a.c).1.InitOk?) ==>
              Act(t, W, a).resume == W.resume && Act(t, W, a).attempts == W.attempts
    ensures a.Resume? && a.heard && HandleProgress(W.server, a.c).ProgressOk? ==>
              && Act(t, W, a).resume == Some(a.c.id) && |Act(t, W, a).attempts| == |W.attempts| + 1
              && Act(t, W, a).attempts[|W.attempts|].already == AsSet(HandleProgress(W.server, a.c).indices)
    ensures a.Resume? && !(a.heard && HandleProgress(W.server, a.c).ProgressOk?) ==>
              Act(t, W, a).resume == None && Act(t, W, a).attempts == W.attempts
    ensures a.Abandon? ==> Act(t, W, a).resume == None
  {
  }

  /** Once dropped, the upload id stays dropped until the client hears of a new session. */
  lemma {:induction false} NoKeyUntilOpen(t: Task, W: World, actions: seq<Action>, W': World)
    requires TaskOk(t) && Happens(t, W, actions, W') && W.resume == None
    requires forall a | a in actions :: !OpensHeard(a)
    ensures W'.resume == None
    decreases |actions|
  {
    if actions != [] {
      assert actions[0] in actions;
      NoKeyUntilOpen(t, Act(t, W, actions[0]), actions[1..], W');
    }
  }

  /** So after cancelling, or a progress request that went wrong, no attempt goes on with the old id. */
  lemma DroppedKeyIsNotUsed(t: Task, W: World, a: Action, actions: seq<Action>, W': World)
    requires TaskOk(t) && Possible(t, W, a)
    requires a.Abandon? || (a.Resume? && !(a.heard && HandleProgress(W.server, a.c).ProgressOk?))
    requires Happens(t, Act(t, W, a), actions, W') && forall b | b in actions :: !OpensHeard(b)
    ensures W'.resume == None && forall c, file, heard :: !Possible(t, W', Resume(c, file, heard))
  {
    KeyAfterRequest(t, W, a);
    NoKeyUntilOpen(t, Act(t, W, a), actions, W');
  }

  // ---- the stored file lasts until its owner deletes it ----

  ghost predicate Filed(s: State) {
    && (forall f | f in s.db.files :: f < s.nextFileId)
    && (forall f, g | f in s.db.files && g in s.db.files && s.db.files[f].path == s.db.files[g].path :: f == g)
  }

  ghost predicate DeletesIt(c: Call, fileId: int, user: int) {
    c.Delete? && c.fileId == fileId && c.user == user
  }

  /** The bytes are there, under the very same row. */
  ghost predicate StillStored(s: State, s': State, fileId: int, user: int, bytes: seq<byte>) {
    fileId in s.db.files && StoredAs(s', fileId, user, bytes) && s'.db.files[fileId] == s.db.files[fileId]
  }

  lemma CompleteKeepsStored(s: State, c: Call, fileId: int, user: int, bytes: seq<byte>)
    requires WellFormed(s) && Filed(s) && Fresh(s, c) && c.Complete?
    ensures Filed(HandleComplete(s, c).0)
    ensures StoredAs(s, fileId, user, bytes) ==> StillStored(s, HandleComplete(s, c).0, fileId, user, bytes)
  {
    CompleteIsAllOrNothing(s, c);
    var s' := HandleComplete(s, c).0;
    if StoredAs(s, fileId, user, bytes) {
      var path := s.db.files[fileId].path;
      assert path != (c.user, c.name);
      assert path in s.stored - {(c.user, c.name)};
    }
  }

  lemma UploadKeepsStored(s: State, c: Call, fileId: int, user: int, bytes: seq<byte>)
    requires Filed(s) && Fresh(s, c) && c.Upload?
    ensures Filed(HandleUpload(s, c).0)
    ensures StoredAs(s, fileId, user, bytes) ==> StillStored(s, HandleUpload(s, c).0, fileId, user, bytes)
  {
  }

  lemma DeleteKeepsStored(s: State, c: Call, fileId: int, user: int, bytes: seq<byte>)
    requires Filed(s) && c.Delete?
    ensures Filed(HandleDelete(s, c).0)
    ensures StoredAs(s, fileId, user, bytes) && !DeletesIt(c, fileId, user) ==> StillStored(s, HandleDelete(s, c).0, fileId, user, bytes)
  {
  }

  lemma StepKeepsStored(h: Hash, s: State, c: Call, fileId: int, user: int, bytes: seq<byte>)
    requires WellFormed(s) && Filed(s) && Fresh(s, c)
    ensures Filed(Step(h, s, c).0)
    ensures StoredAs(s, fileId, user, bytes) && !DeletesIt(c, fileId, user) ==> StillStored(s, Step(h, s, c).0, fileId, user, bytes)
  {
    match c
    case Init(_, _, _, _, _, _, _, _) =>
    case Chunk(_, _, _, _, _, _, _, _) =>
    case AskProgress(_, _, _, _) =>
    case Complete(_, _, _, _, _, _) => CompleteKeepsStored(s, c, fileId, user, bytes);
    case Cancel(_, _, _, _) =>
    case Upload(_, _, _, _, _) => UploadKeepsStored(s, c, fileId, user, bytes);
    case Delete(_, _, _) => DeleteKeepsStored(s, c, fileId, user, bytes);
  }

  /** A stored file keeps its row and its bytes through every run in which its owner does not ask to
      delete it, whatever the others upload, complete, cancel or delete. */
  lemma {:induction false} StoredFileLasts(h: Hash, s: State, calls: seq<Call>, fileId: int, user: int, bytes: seq<byte>)
    requires WellFormed(s) && Filed(s) && FreshRun(h, s, calls) && StoredAs(s, fileId, user, bytes)
    requires forall c | c in calls :: !DeletesIt(c, fileId, user)
    ensures StillStored(s, Run(h, s, calls), fileId, user, bytes)
    decreases |calls|
  {
    if calls != [] {
      assert calls[0] in calls;
      StepKeepsStored(h, s, calls[0], fileId, user, bytes);
      StepKeepsWellFormed(h, s, calls[0]);
      StoredFileLasts(h, Step(h, s, calls[0]).0, calls[1..], fileId, user, bytes);
    }
  }
}
