/** The blocking connection pool of src/database.cpp. */
module ConnectionPooling {
  import opened Common

  // ---- the slots ----

  /** The first available slot, or |available| when there is none. */
  function FirstFree(available: seq<bool>): (i: nat)
    ensures i <= |available|
    ensures i < |available| ==> available[i]
    ensures forall k | 0 <= k < i :: !available[k]
  {
    if available == [] || available[0] then 0 else 1 + FirstFree(available[1..])
  }

  lemma FirstFreeUnique(available: seq<bool>, i: nat)
    requires i < |available| && available[i] && forall k | 0 <= k < i :: !available[k]
    ensures FirstFree(available) == i
  {
  }

  /** The critical sections, as the code has them; connection i is the i-th of the pool. */
  class DBConnectionPool {
    var available: seq<bool>

    constructor (size: nat)
      ensures available == seq(size, _ => true)
    {
      available := seq(size, _ => true);
    }

    /** The wait predicate of get_connection. */
    method AnyFree() returns (free: bool)
      ensures free <==> FirstFree(available) < |available|
    {
      for i := 0 to |available|
        invariant forall k | 0 <= k < i :: !available[k]
      {
        if available[i] {
          return true;
        }
      }
      return false;
    }

    /** The scan that follows the wait: the first free slot is taken. */
    method TakeFirst() returns (slot: Option<nat>)
      modifies this`available
      ensures var i := FirstFree(old(available));
              if i < |old(available)| then slot == Some(i) && available == old(available)[i := false]
              else slot == None && available == old(available)
    {
      for i := 0 to |available|
        invariant available == old(available)
        invariant forall k | 0 <= k < i :: !available[k]
      {
        if available[i] {
          FirstFreeUnique(available, i);
          available := available[i := false];
          return Some(i);
        }
      }
      return None;
    }

    /** return_connection: `notify` says whether cv.notify_one is called. A connection that is not of
        this pool is ignored. */
    method GiveBack(conn: int) returns (notify: bool)
      modifies this`available
      ensures notify == (0 <= conn < |old(available)| && !old(available)[conn])
      ensures available == if notify then old(available)[conn := true] else old(available)
    {
      for i := 0 to |available|
        invariant available == old(available)
        invariant !(0 <= conn < i)
      {
        if i == conn {
          if !available[i] {
            available := available[i := true];
            return true;
          }
          return false;
        }
      }
      return false;
    }
  }

  // ---- the pool as a transition system ----

  /** Waiting: about to lock and look, whether it just called get_connection or was woken. Holding: the
      caller has a handle for the slot; `returned`: it already gave the connection back by hand. */
  datatype Caller = Idle | Waiting | Asleep | Holding(slot: nat, returned: bool)

  datatype Pool = Pool(available: seq<bool>, callers: seq<Caller>)

  datatype Event =
    | Ask(c: nat)
    | Look(c: nat)                          // lock, test the predicate, take a slot or wait
    | Spurious(c: nat)
    | GiveByHand(c: nat, woken: Option<nat>)  // return_connection(db)
    | Drop(c: nat, woken: Option<nat>)        // the handle dies and its deleter returns the connection

  /** Who notify_one may wake: someone asleep, or nobody when nobody is. */
  ghost predicate MayWake(callers: seq<Caller>, woken: Option<nat>) {
    match woken
    case None => Asleep !in callers
    case Some(k) => k < |callers| && callers[k] == Asleep
  }

  ghost predicate Gives(p: Pool, slot: nat) {
    slot < |p.available| && !p.available[slot]
  }

  ghost predicate Enabled(p: Pool, e: Event) {
    && e.c < |p.callers|
    && match e
       case Ask(c) => p.callers[c] == Idle
       case Look(c) => p.callers[c] == Waiting
       case Spurious(c) => p.callers[c] == Asleep
       case GiveByHand(c, woken) => p.callers[c].Holding? && (Gives(p, p.callers[c].slot) ==> MayWake(p.callers, woken))
       case Drop(c, woken) => p.callers[c].Holding? && (Gives(p, p.callers[c].slot) ==> MayWake(p.callers, woken))
  }

  /** return_connection(conn): the slot is freed and one sleeper woken, unless it is free already. */
  ghost function Return(p: Pool, slot: nat, woken: Option<nat>): Pool
    requires Gives(p, slot) ==> MayWake(p.callers, woken)
  {
    if Gives(p, slot) then
      Pool(p.available[slot := true], if woken.Some? then p.callers[woken.value := Waiting] else p.callers)
    else p
  }

  ghost function After(p: Pool, e: Event): Pool
    requires Enabled(p, e)
  {
    match e
    case Ask(c) => p.(callers := p.callers[c := Waiting])
    case Look(c) =>
      var i := FirstFree(p.available);
      if i < |p.available| then Pool(p.available[i := false], p.callers[c := Holding(i, false)])
      else p.(callers := p.callers[c := Asleep])
    case Spurious(c) => p.(callers := p.callers[c := Waiting])
    case GiveByHand(c, woken) =>
      var p' := Return(p, p.callers[c].slot, woken);
      p'.(callers := p'.callers[c := Holding(p.callers[c].slot, true)])
    case Drop(c, woken) =>
      var p' := Return(p, p.callers[c].slot, woken);
      p'.(callers := p'.callers[c := Idle])
  }

  ghost function Initial(size: nat, threads: nat): Pool {
    Pool(seq(size, _ => true), seq(threads, _ => Idle))
  }

  // ---- invariants ----

  /** The caller still uses the connection of its handle. */
  ghost predicate Uses(p: Pool, c: nat, slot: nat) {
    c < |p.callers| && p.callers[c] == Holding(slot, false)
  }

  /** Lent slots and callers that use one are in bijection: a slot is unavailable exactly when someone
      uses it, and nobody shares. */
  ghost predicate Exclusive(p: Pool) {
    && (forall c | 0 <= c < |p.callers| && p.callers[c].Holding? :: p.callers[c].slot < |p.available|)
    && (forall c, d, slot | Uses(p, c, slot) && Uses(p, d, slot) :: c == d)
    && (forall slot | 0 <= slot < |p.available| :: !p.available[slot] <==> exists c :: Uses(p, c, slot))
  }

  ghost function IsFree(): bool -> nat {
    free => if free then 1 else 0
  }

  ghost function IsWaiting(): Caller -> nat {
    c => if c == Waiting then 1 else 0
  }

  ghost function IsUsing(): Caller -> nat {
    (c: Caller) => if c.Holding? && !c.returned then 1 else 0
  }

  ghost function Free(p: Pool): nat {
    SumBy(p.available, IsFree())
  }

  /** While anyone sleeps, every free slot has its own contender already awake. */
  ghost predicate NoLostWakeup(p: Pool) {
    Asleep in p.callers ==> Free(p) <= SumBy(p.callers, IsWaiting())
  }

  ghost predicate Counted(p: Pool) {
    Free(p) + SumBy(p.callers, IsUsing()) == |p.available|
  }

  /** The handle's connection may safely be returned: it was not returned before, or its slot is free
      still (the guard in return_connection). */
  ghost predicate SafeReturn(p: Pool, e: Event)
    requires Enabled(p, e)
  {
    (e.GiveByHand? || e.Drop?) && p.callers[e.c].returned && p.callers[e.c].slot < |p.available| ==>
      p.available[p.callers[e.c].slot]
  }

  lemma {:induction false} AllOfWeight<T>(s: seq<T>, weight: T -> nat, k: nat)
    requires forall x | x in s :: weight(x) == k
    ensures SumBy(s, weight) == k * |s|
  {
    if s != [] {
      assert s[0] in s;
      AllOfWeight(s[1..], weight, k);
    }
  }

  lemma InitialInv(size: nat, threads: nat)
    ensures var p := Initial(size, threads); Exclusive(p) && NoLostWakeup(p) && Counted(p)
  {
    var p := Initial(size, threads);
    AllOfWeight(p.available, IsFree(), 1);
    AllOfWeight(p.callers, IsUsing(), 0);
  }

  lemma FreeSlotCounts(p: Pool)
    ensures FirstFree(p.available) < |p.available| ==> Free(p) > 0
    ensures FirstFree(p.available) == |p.available| ==> Free(p) == 0
  {
    var i := FirstFree(p.available);
    if i < |p.available| {
      SumByElement(p.available, i, IsFree());
    } else {
      forall x | x in p.available ensures IsFree()(x) == 0 {
      }
      AllOfWeight(p.available, IsFree(), 0);
    }
  }

  lemma LookKeepsExclusive(p: Pool, e: Event)
    requires Exclusive(p) && Enabled(p, e) && e.Look?
    ensures Exclusive(After(p, e))
  {
    var p' := After(p, e);
    var i := FirstFree(p.available);
    forall c: nat, slot: nat ensures Uses(p', c, slot) <==> Uses(p, c, slot) || (c == e.c && slot == i && i < |p.available|) {
    }
    forall slot | 0 <= slot < |p'.available|
      ensures !p'.available[slot] <==> exists c :: Uses(p', c, slot)
    {
      if slot == i {
        assert Uses(p', e.c, slot);
      } else if c :| Uses(p, c, slot) {
        assert Uses(p', c, slot);
      }
    }
  }

  /** Asking and waking change nobody's slot. */
  lemma QuietKeepsExclusive(p: Pool, p': Pool)
    requires Exclusive(p) && p'.available == p.available && |p'.callers| == |p.callers|
    requires forall c | 0 <= c < |p.callers| ::
               p'.callers[c] == p.callers[c] || (!p.callers[c].Holding? && !p'.callers[c].Holding?)
    ensures Exclusive(p')
  {
    forall c: nat, slot: nat ensures Uses(p', c, slot) <==> Uses(p, c, slot) {
    }
    forall slot | 0 <= slot < |p'.available|
      ensures !p'.available[slot] <==> exists c :: Uses(p', c, slot)
    {
      if c :| Uses(p, c, slot) {
        assert Uses(p', c, slot);
      }
    }
  }

  lemma ReturnedUses(p: Pool, e: Event, c: nat, slot: nat)
    requires Enabled(p, e) && (e.GiveByHand? || e.Drop?)
    ensures Uses(After(p, e), c, slot) <==> Uses(p, c, slot) && c != e.c
  {
  }

  lemma SafeReturnKeepsExclusive(p: Pool, e: Event)
    requires Exclusive(p) && Enabled(p, e) && (e.GiveByHand? || e.Drop?) && SafeReturn(p, e)
    ensures Exclusive(After(p, e))
  {
    var p' := After(p, e);
    var mine := p.callers[e.c].slot;
    forall c: nat, slot: nat ensures Uses(p', c, slot) <==> Uses(p, c, slot) && c != e.c {
      ReturnedUses(p, e, c, slot);
    }
    assert !p.callers[e.c].returned ==> Uses(p, e.c, mine);
    forall slot | 0 <= slot < |p'.available|
      ensures !p'.available[slot] <==> exists c :: Uses(p', c, slot)
    {
      if c :| Uses(p, c, slot) {
        assert c != e.c ==> Uses(p', c, slot);
      }
    }
  }

  lemma UnsafeReturnBreaksExclusive(p: Pool, e: Event)
    requires Exclusive(p) && Enabled(p, e) && !SafeReturn(p, e)
    ensures !Exclusive(After(p, e))
  {
    var slot := p.callers[e.c].slot;
    var c :| Uses(p, c, slot);
    ReturnedUses(p, e, c, slot);
    var p' := After(p, e);
    assert Uses(p', c, slot) && 0 <= slot < |p'.available| && p'.available[slot];
  }

  /** Exactly when a step keeps lending exclusive: unless it returns a connection a second time while
      its slot is lent again. */
  lemma StepKeepsExclusiveIff(p: Pool, e: Event)
    requires Exclusive(p) && Enabled(p, e)
    ensures Exclusive(After(p, e)) <==> SafeReturn(p, e)
  {
    match e
    case Ask(c) => QuietKeepsExclusive(p, After(p, e));
    case Look(c) => LookKeepsExclusive(p, e);
    case Spurious(c) => QuietKeepsExclusive(p, After(p, e));
    case GiveByHand(c, _) =>
      if SafeReturn(p, e) {
        SafeReturnKeepsExclusive(p, e);
      } else {
        UnsafeReturnBreaksExclusive(p, e);
      }
    case Drop(c, _) =>
      if SafeReturn(p, e) {
        SafeReturnKeepsExclusive(p, e);
      } else {
        UnsafeReturnBreaksExclusive(p, e);
      }
  }

  /** How Return changes the three counts. */
  lemma ReturnCounts(p: Pool, slot: nat, woken: Option<nat>)
    requires Gives(p, slot) ==> MayWake(p.callers, woken)
    ensures var p' := Return(p, slot, woken);
            && |p'.available| == |p.available| && |p'.callers| == |p.callers|
            && Free(p') == Free(p) + (if Gives(p, slot) then 1 else 0)
            && SumBy(p'.callers, IsWaiting()) == SumBy(p.callers, IsWaiting()) + (if Gives(p, slot) && woken.Some? then 1 else 0)
            && SumBy(p'.callers, IsUsing()) == SumBy(p.callers, IsUsing())
            && (Gives(p, slot) && woken.None? ==> Asleep !in p'.callers)
            && (Asleep in p'.callers ==> Asleep in p.callers)
            && forall c | 0 <= c < |p.callers| && p.callers[c] != Asleep :: p'.callers[c] == p.callers[c]
  {
    if Gives(p, slot) {
      SumByUpdate(p.available, slot, true, IsFree());
      if woken.Some? {
        SumByUpdate(p.callers, woken.value, Waiting, IsWaiting());
        SumByUpdate(p.callers, woken.value, Waiting, IsUsing());
      }
    }
  }

  lemma UpdateAsleep(callers: seq<Caller>, c: nat, x: Caller)
    requires c < |callers|
    ensures Asleep in callers[c := x] ==> x == Asleep || Asleep in callers
  {
  }

  /** Every step keeps the wakeup invariant, double returns included. */
  lemma StepKeepsNoLostWakeup(p: Pool, e: Event)
    requires NoLostWakeup(p) && Enabled(p, e)
    ensures NoLostWakeup(After(p, e))
  {
    var p' := After(p, e);
    FreeSlotCounts(p);
    var before := if e.GiveByHand? || e.Drop? then Return(p, p.callers[e.c].slot, e.woken) else p;
    if e.GiveByHand? || e.Drop? {
      ReturnCounts(p, p.callers[e.c].slot, e.woken);
    }
    SumByUpdate(before.callers, e.c, p'.callers[e.c], IsWaiting());
    UpdateAsleep(before.callers, e.c, p'.callers[e.c]);
    if e.Look? && FirstFree(p.available) < |p.available| {
      SumByUpdate(p.available, FirstFree(p.available), false, IsFree());
    }
  }

  lemma StepKeepsCounted(p: Pool, e: Event)
    requires Exclusive(p) && Counted(p) && Enabled(p, e) && SafeReturn(p, e)
    ensures Counted(After(p, e))
  {
    var p' := After(p, e);
    var before := if e.GiveByHand? || e.Drop? then Return(p, p.callers[e.c].slot, e.woken) else p;
    if e.GiveByHand? || e.Drop? {
      ReturnCounts(p, p.callers[e.c].slot, e.woken);
      assert !p.callers[e.c].returned ==> Uses(p, e.c, p.callers[e.c].slot);
    }
    SumByUpdate(before.callers, e.c, p'.callers[e.c], IsUsing());
    if e.Look? && FirstFree(p.available) < |p.available| {
      SumByUpdate(p.available, FirstFree(p.available), false, IsFree());
    }
  }

  // ---- runs ----

  ghost predicate Ran(p: Pool, events: seq<Event>, p': Pool)
    decreases |events|
  {
    if events == [] then p == p' else Enabled(p, events[0]) && Ran(After(p, events[0]), events[1..], p')
  }

  lemma {:induction false} NoWakeupIsLost(p: Pool, events: seq<Event>, p': Pool)
    requires NoLostWakeup(p) && Ran(p, events, p')
    ensures NoLostWakeup(p')
    decreases |events|
  {
    if events != [] {
      StepKeepsNoLostWakeup(p, events[0]);
      NoWakeupIsLost(After(p, events[0]), events[1..], p');
    }
  }

  ghost predicate Unreturned(p: Pool) {
    forall c | c in p.callers :: c.Holding? ==> !c.returned
  }

  lemma {:induction false} SingleReturnInduction(p: Pool, events: seq<Event>, p': Pool)
    requires Exclusive(p) && Counted(p) && Unreturned(p) && Ran(p, events, p')
    requires forall e | e in events :: !e.GiveByHand?
    ensures Exclusive(p') && Counted(p') && |p'.available| == |p.available|
    decreases |events|
  {
    if events != [] {
      var e := events[0];
      assert e in events && p.callers[e.c] in p.callers;
      StepKeepsExclusiveIff(p, e);
      StepKeepsCounted(p, e);
      var p1 := After(p, e);
      forall c | c in p1.callers ensures c.Holding? ==> !c.returned {
        var k :| 0 <= k < |p1.callers| && p1.callers[k] == c;
        assert p.callers[k] in p.callers;
      }
      SingleReturnInduction(p1, events[1..], p');
    }
  }

  /** When every handle is returned once, by its deleter, then in every run the unavailable slots are in
      bijection with the callers that use them, available plus lent is the pool's size, and no waiter
      sleeps while a free slot has nobody coming for it. */
  lemma SingleReturnIsExclusive(size: nat, threads: nat, events: seq<Event>, p: Pool)
    requires Ran(Initial(size, threads), events, p) && forall e | e in events :: !e.GiveByHand?
    ensures Exclusive(p) && NoLostWakeup(p)
    ensures Free(p) + SumBy(p.callers, IsUsing()) == size
  {
    InitialInv(size, threads);
    SingleReturnInduction(Initial(size, threads), events, p);
    NoWakeupIsLost(Initial(size, threads), events, p);
  }

  /** Nobody is left behind: with at least one connection and single returns, a pool in which no caller
      is about to look and none holds a handle has nobody asleep. */
  lemma NobodyIsStranded(size: nat, threads: nat, events: seq<Event>, p: Pool)
    requires size > 0 && Ran(Initial(size, threads), events, p) && forall e | e in events :: !e.GiveByHand?
    requires forall e :: Enabled(p, e) ==> e.Ask? || e.Spurious?
    ensures Asleep !in p.callers
  {
    SingleReturnIsExclusive(size, threads, events, p);
    if Asleep in p.callers {
      forall c | c in p.callers ensures c == Idle || c == Asleep {
        var k :| 0 <= k < |p.callers| && p.callers[k] == c;
        var woken :| 0 <= woken < |p.callers| && p.callers[woken] == Asleep;
        assert MayWake(p.callers, Some(woken));
        assert !Enabled(p, Look(k)) && !Enabled(p, Drop(k, Some(woken)));
      }
      AllOfWeight(p.callers, IsUsing(), 0);
      AllOfWeight(p.callers, IsWaiting(), 0);
    }
  }

  // ---- the double return ----

  lemma RanLonger(p: Pool, e: Event, p1: Pool, events: seq<Event>, p': Pool)
    requires Enabled(p, e) && After(p, e) == p1 && Ran(p1, events, p')
    ensures Ran(p, [e] + events, p')
  {
    assert ([e] + events)[1..] == events;
  }

  /** One connection, three callers. */
  function Three(free: bool, a: Caller, b: Caller, c: Caller): Pool {
    Pool([free], [a, b, c])
  }

  /** A stale handle's death lets a third caller share the connection of the second. */
  lemma StaleDropShares() returns (events: seq<Event>)
    ensures Ran(Three(false, Holding(0, true), Holding(0, false), Idle), events,
                Three(false, Idle, Holding(0, false), Holding(0, false)))
  {
    var p5 := Three(false, Holding(0, true), Holding(0, false), Idle);
    var p6 := Three(true, Idle, Holding(0, false), Idle);
    var p7 := Three(true, Idle, Holding(0, false), Waiting);
    var p8 := Three(false, Idle, Holding(0, false), Holding(0, false));
    RanLonger(p7, Look(2), p8, [], p8);
    RanLonger(p6, Ask(2), p7, [Look(2)] + [], p8);
    RanLonger(p5, Drop(0, None), p6, [Ask(2)] + ([Look(2)] + []), p8);
    events := [Drop(0, None)] + ([Ask(2)] + ([Look(2)] + []));
  }

  /** Caller 0 is lent the only connection and gives it back by hand, keeping its handle. */
  lemma GivenBackByHand(events: seq<Event>, p: Pool)
    requires Ran(Three(true, Holding(0, true), Idle, Idle), events, p)
    ensures Ran(Initial(1, 3), [Ask(0)] + ([Look(0)] + ([GiveByHand(0, None)] + events)), p)
  {
    var p1 := Three(true, Waiting, Idle, Idle);
    var p2 := Three(false, Holding(0, false), Idle, Idle);
    var p3 := Three(true, Holding(0, true), Idle, Idle);
    assert Initial(1, 3) == Three(true, Idle, Idle, Idle);
    RanLonger(p2, GiveByHand(0, None), p3, events, p);
    RanLonger(p1, Look(0), p2, [GiveByHand(0, None)] + events, p);
    RanLonger(Initial(1, 3), Ask(0), p1, [Look(0)] + ([GiveByHand(0, None)] + events), p);
  }

  /** A run of the callers' habit of returning by hand before the handle dies: caller 0 gives the only
      connection back, caller 1 is lent it, the death of caller 0's handle frees it again, and callers
      1 and 2 use it together. */
  lemma DoubleReturnSharesAConnection() returns (events: seq<Event>, p: Pool)
    ensures Ran(Initial(1, 3), events, p)
    ensures Uses(p, 1, 0) && Uses(p, 2, 0)
  {
    p := Three(false, Idle, Holding(0, false), Holding(0, false));
    var p3 := Three(true, Holding(0, true), Idle, Idle);
    var p4 := Three(true, Holding(0, true), Waiting, Idle);
    var p5 := Three(false, Holding(0, true), Holding(0, false), Idle);
    events := StaleDropShares();
    RanLonger(p4, Look(1), p5, events, p);
    events := [Look(1)] + events;
    RanLonger(p3, Ask(1), p4, events, p);
    events := [Ask(1)] + events;
    GivenBackByHand(events, p);
    events := [Ask(0)] + ([Look(0)] + ([GiveByHand(0, None)] + events));
  }
}
