/** The order in which locks are taken, and why no circular wait can arise (server/server.c,
    libsnake/player/player_manager.c, client/renderer/renderer.c). A thread is the program of the
    locks it takes and returns; a run interleaves the threads, and a lock that is held can not be
    taken. Locks are numbered in the order in which the source takes them when it takes several. */
module Locks {
  const MAX_PLAYERS := 64

  type Lock = n: nat | n < 4 + MAX_PLAYERS

  const QUEUE: Lock := 0                 // the render queue of a client
  const MAP: Lock := 1
  const CHANGELOG: Lock := 2
  const TICKER: Lock := 3 + MAX_PLAYERS

  function Slot(p: nat): Lock
    requires p < MAX_PLAYERS
  {
    3 + p
  }

  datatype Action = Acquire(lock: Lock) | Release(lock: Lock)

  type Program = seq<Action>

  /** The locks held after a program, `held` being those held before. */
  function Held(held: set<Lock>, prog: Program): set<Lock>
    decreases |prog|
  {
    if prog == [] then held
    else
      match prog[0]
      case Acquire(lock) => Held(held + {lock}, prog[1..])
      case Release(lock) => Held(held - {lock}, prog[1..])
  }

  /** Locks are acquired in increasing order, and only held locks are released. */
  ghost predicate Ordered(held: set<Lock>, prog: Program)
    decreases |prog|
  {
    prog == [] ||
    match prog[0]
    case Acquire(lock) => (forall h :: h in held ==> h < lock) && Ordered(held + {lock}, prog[1..])
    case Release(lock) => lock in held && Ordered(held - {lock}, prog[1..])
  }

  /** What the threads of the two programs do under locks. */
  datatype Section =
    | Tick                // server_tick
    | SendMap             // client_connection_send_map and the message loop writing the field
    | CopyLog             // syn_changelog_copy
    | UseSlot(p: nat)     // each operation of player_manager.c on one slot
    | AwaitTick           // ticker_observer_wait_for_next_tick
    | DrawField           // renderer_main on a REDRAW: the map is locked under the queue lock
    | DrawUpdates         // renderer_main on updates
    | RequestDraw         // renderer_redraw and renderer_update

  function Slots(from: nat, acquire: bool): Program
    requires from <= MAX_PLAYERS
    decreases MAX_PLAYERS - from
  {
    if from == MAX_PLAYERS then []
    else [if acquire then Acquire(Slot(from)) else Release(Slot(from))] + Slots(from + 1, acquire)
  }

  /** A program carried out under a lock. */
  function Locked(lock: Lock, inner: Program): Program {
    [Acquire(lock)] + inner + [Release(lock)]
  }

  function ProgramOf(s: Section): Program
    requires s.UseSlot? ==> s.p < MAX_PLAYERS
  {
    match s
    case Tick => Locked(MAP, Locked(CHANGELOG, Slots(0, true) + Slots(0, false))) + Locked(TICKER, [])
    case SendMap => Locked(MAP, [])
    case CopyLog => Locked(CHANGELOG, [])
    case UseSlot(p) => Locked(Slot(p), [])
    case AwaitTick => Locked(TICKER, [])
    case DrawField => Locked(QUEUE, Locked(MAP, []))
    case DrawUpdates => Locked(QUEUE, [])
    case RequestDraw => Locked(QUEUE, [])
  }

  lemma {:induction false} Concatenate(held: set<Lock>, a: Program, b: Program)
    ensures Held(held, a + b) == Held(Held(held, a), b)
    ensures Ordered(held, a) && Ordered(Held(held, a), b) ==> Ordered(held, a + b)
    decreases |a|
  {
    if a == [] {
      assert a + b == b;
    } else {
      assert (a + b)[1..] == a[1..] + b;
      match a[0]
      case Acquire(lock) => Concatenate(held + {lock}, a[1..], b);
      case Release(lock) => Concatenate(held - {lock}, a[1..], b);
    }
  }

  ghost function SlotsFrom(from: nat): set<Lock> {
    set p | from <= p < MAX_PLAYERS :: Slot(p)
  }

  /** player_manager_for_each takes the slot locks in increasing order ... */
  lemma {:induction false} SlotsAcquired(held: set<Lock>, from: nat)
    requires from <= MAX_PLAYERS && forall h :: h in held ==> h < 3 + from
    ensures Ordered(held, Slots(from, true)) && Held(held, Slots(from, true)) == held + SlotsFrom(from)
    decreases MAX_PLAYERS - from
  {
    if from < MAX_PLAYERS {
      SlotsAcquired(held + {Slot(from)}, from + 1);
      assert Slots(from, true)[1..] == Slots(from + 1, true);
      assert held + {Slot(from)} + SlotsFrom(from + 1) == held + SlotsFrom(from);
    } else {
      assert SlotsFrom(from) == {};
    }
  }

  /** ... and gives them all back. */
  lemma {:induction false} SlotsReleased(held: set<Lock>, from: nat)
    requires from <= MAX_PLAYERS && SlotsFrom(from) <= held
    ensures Ordered(held, Slots(from, false)) && Held(held, Slots(from, false)) == held - SlotsFrom(from)
    decreases MAX_PLAYERS - from
  {
    if from < MAX_PLAYERS {
      assert Slot(from) in SlotsFrom(from);
      SlotsReleased(held - {Slot(from)}, from + 1);
      assert Slots(from, false)[1..] == Slots(from + 1, false);
      assert held - {Slot(from)} - SlotsFrom(from + 1) == held - SlotsFrom(from);
    } else {
      assert SlotsFrom(from) == {};
    }
  }

  /** Taking a lock above all those held, and giving it back at the end. */
  lemma LockedIsOrdered(held: set<Lock>, lock: Lock, inner: Program)
    requires forall h :: h in held ==> h < lock
    requires Ordered(held + {lock}, inner) && Held(held + {lock}, inner) == held + {lock}
    ensures Ordered(held, Locked(lock, inner)) && Held(held, Locked(lock, inner)) == held
  {
    var release: Program := [Release(lock)];
    assert Locked(lock, inner)[1..] == inner + release;
    assert release[1..] == [] && held + {lock} - {lock} == held;
    assert Ordered(held, []) && Ordered(held + {lock}, release);
    Concatenate(held + {lock}, inner, release);
    assert Locked(lock, inner)[0] == Acquire(lock);
    assert Ordered(held + {lock}, Locked(lock, inner)[1..]);
  }

  lemma SlotsAreOrdered()
    ensures var slots := Slots(0, true) + Slots(0, false);
      Ordered({MAP, CHANGELOG}, slots) && Held({MAP, CHANGELOG}, slots) == {MAP, CHANGELOG}
  {
    var held := {MAP, CHANGELOG};
    SlotsAcquired(held, 0);
    SlotsReleased(held + SlotsFrom(0), 0);
    Concatenate(held, Slots(0, true), Slots(0, false));
    assert held + SlotsFrom(0) - SlotsFrom(0) == held;
  }

  lemma TickIsOrdered()
    ensures Ordered({}, ProgramOf(Tick)) && Held({}, ProgramOf(Tick)) == {}
  {
    var slots := Slots(0, true) + Slots(0, false);
    SlotsAreOrdered();
    assert {MAP} + {CHANGELOG} == {MAP, CHANGELOG} && {} + {MAP} == {MAP};
    LockedIsOrdered({MAP}, CHANGELOG, slots);
    var field := Locked(CHANGELOG, slots);
    LockedIsOrdered({}, MAP, field);
    LockedIsOrdered({}, TICKER, []);
    Concatenate({}, Locked(MAP, field), Locked(TICKER, []));
  }

  /** Every section takes its locks in order and gives them back. */
  lemma SectionIsOrdered(s: Section)
    requires s.UseSlot? ==> s.p < MAX_PLAYERS
    ensures Ordered({}, ProgramOf(s)) && Held({}, ProgramOf(s)) == {}
  {
    match s
    case Tick => TickIsOrdered();
    case SendMap => LockedIsOrdered({}, MAP, []);
    case CopyLog => LockedIsOrdered({}, CHANGELOG, []);
    case UseSlot(p) => LockedIsOrdered({}, Slot(p), []);
    case AwaitTick => LockedIsOrdered({}, TICKER, []);
    case DrawField =>
      LockedIsOrdered({} + {QUEUE}, MAP, []);
      LockedIsOrdered({}, QUEUE, Locked(MAP, []));
    case DrawUpdates => LockedIsOrdered({}, QUEUE, []);
    case RequestDraw => LockedIsOrdered({}, QUEUE, []);
  }

  /** What a thread holds and what it has still to do. */
  datatype Thread = Thread(held: set<Lock>, todo: Program)

  /** Any sequence of sections. */
  function Sections(ss: seq<Section>): Program
    requires forall i :: 0 <= i < |ss| && ss[i].UseSlot? ==> ss[i].p < MAX_PLAYERS
  {
    if ss == [] then [] else ProgramOf(ss[0]) + Sections(ss[1..])
  }

  lemma {:induction false} SectionsAreOrdered(ss: seq<Section>)
    requires forall i :: 0 <= i < |ss| && ss[i].UseSlot? ==> ss[i].p < MAX_PLAYERS
    ensures Ordered({}, Sections(ss)) && Held({}, Sections(ss)) == {}
  {
    if ss != [] {
      SectionIsOrdered(ss[0]);
      SectionsAreOrdered(ss[1..]);
      Concatenate({}, ProgramOf(ss[0]), Sections(ss[1..]));
    }
  }

  ghost predicate Free(ts: seq<Thread>, lock: Lock) {
    forall i :: 0 <= i < |ts| ==> lock !in ts[i].held
  }

  /** Thread i can take its next step: a lock is acquired only while no thread holds it. */
  ghost predicate CanStep(ts: seq<Thread>, i: nat) {
    i < |ts| && ts[i].todo != [] && (ts[i].todo[0].Acquire? ==> Free(ts, ts[i].todo[0].lock))
  }

  ghost function Stepped(t: Thread): Thread
    requires t.todo != []
  {
    match t.todo[0]
    case Acquire(lock) => Thread(t.held + {lock}, t.todo[1..])
    case Release(lock) => Thread(t.held - {lock}, t.todo[1..])
  }

  ghost predicate Starts(ts: seq<Thread>) {
    forall i :: 0 <= i < |ts| ==> ts[i].held == {} && Disciplined(ts[i])
  }

  ghost predicate Disciplined(t: Thread) {
    Ordered(t.held, t.todo) && Held(t.held, t.todo) == {}
  }

  /** All threads keep the discipline and no lock is held twice. */
  ghost predicate Safe(ts: seq<Thread>) {
    && (forall i :: 0 <= i < |ts| ==> Disciplined(ts[i]))
    && (forall i, j :: 0 <= i < j < |ts| ==> ts[i].held !! ts[j].held)
  }

  ghost predicate Run(rs: seq<seq<Thread>>, who: seq<nat>) {
    && |rs| == |who| + 1 && Starts(rs[0])
    && forall k :: 0 <= k < |who| ==> CanStep(rs[k], who[k]) && rs[k + 1] == rs[k][who[k] := Stepped(rs[k][who[k]])]
  }

  lemma {:induction false} RunStaysSafe(rs: seq<seq<Thread>>, who: seq<nat>, k: nat)
    requires Run(rs, who) && k < |rs|
    ensures Safe(rs[k])
  {
    if k > 0 {
      RunStaysSafe(rs, who, k - 1);
      assert CanStep(rs[k - 1], who[k - 1]) && rs[k - 1 + 1] == rs[k - 1][who[k - 1] := Stepped(rs[k - 1][who[k - 1]])];
    }
  }

  /** A thread that cannot step waits for a lock held by a thread that waits for a higher one;
      following the waiting leads to a thread that can step. */
  lemma {:induction false} SomeoneSteps(ts: seq<Thread>, i: nat) returns (j: nat)
    requires Safe(ts) && i < |ts| && ts[i].todo != []
    ensures CanStep(ts, j)
    decreases if ts[i].todo[0].Acquire? then 4 + MAX_PLAYERS - ts[i].todo[0].lock else 0
  {
    if CanStep(ts, i) {
      return i;
    }
    var lock := ts[i].todo[0].lock;
    var k :| 0 <= k < |ts| && lock in ts[k].held;
    assert Disciplined(ts[k]);
    assert ts[k].todo != [];
    if CanStep(ts, k) {
      return k;
    }
    j := SomeoneSteps(ts, k);
  }

  /** In every reachable state in which some thread has work left, some thread can go on: no
      circular wait arises, whatever sections the threads run and however they interleave. */
  lemma NoDeadlock(rs: seq<seq<Thread>>, who: seq<nat>, k: nat)
    requires Run(rs, who) && k < |rs| && exists i :: 0 <= i < |rs[k]| && rs[k][i].todo != []
    ensures exists j :: CanStep(rs[k], j)
  {
    RunStaysSafe(rs, who, k);
    var i :| 0 <= i < |rs[k]| && rs[k][i].todo != [];
    var j := SomeoneSteps(rs[k], i);
  }

  /** Threads made of sections may start such a run. */
  lemma SectionsStart(ss: seq<Section>)
    requires forall i :: 0 <= i < |ss| && ss[i].UseSlot? ==> ss[i].p < MAX_PLAYERS
    ensures Disciplined(Thread({}, Sections(ss)))
  {
    SectionsAreOrdered(ss);
  }

  /** What server_tick has done under locks when it starts processing players. */
  function TickStart(): Program {
    [Acquire(MAP)] + ([Acquire(CHANGELOG)] + Slots(0, true))
  }

  lemma StartOf(m: Program, c: Program, a: Program, r: Program, y: Program, x: Program, z: Program)
    ensures m + (c + (a + r) + y) + x + z == m + (c + a) + (r + y + x + z)
  {
  }

  lemma TickUnfolds()
    ensures ProgramOf(Tick) ==
      [Acquire(MAP)] + ([Acquire(CHANGELOG)] + (Slots(0, true) + Slots(0, false)) + [Release(CHANGELOG)])
        + [Release(MAP)] + Locked(TICKER, [])
  {
  }

  lemma TickBegins()
    ensures exists rest :: ProgramOf(Tick) == TickStart() + rest
  {
    var release, map_, ticker: Program := [Release(CHANGELOG)], [Release(MAP)], Locked(TICKER, []);
    StartOf([Acquire(MAP)], [Acquire(CHANGELOG)], Slots(0, true), Slots(0, false), release, map_, ticker);
    TickUnfolds();
    assert TickStart() + (Slots(0, false) + release + map_ + ticker) == ProgramOf(Tick);
  }

  lemma TakeFirst(held: set<Lock>, lock: Lock, rest: Program)
    ensures Held(held, [Acquire(lock)] + rest) == Held(held + {lock}, rest)
  {
    assert ([Acquire(lock)] + rest)[1..] == rest;
  }

  /** What a section works on, named by the lock that guards it. */
  predicate WorksOn(s: Section, lock: Lock) {
    match s
    case Tick => lock == MAP || lock == CHANGELOG || exists p :: 0 <= p < MAX_PLAYERS && lock == Slot(p)
    case SendMap => lock == MAP
    case CopyLog => lock == CHANGELOG
    case UseSlot(p) => p < MAX_PLAYERS && lock == Slot(p)
    case AwaitTick => lock == TICKER
    case DrawField => lock == QUEUE || lock == MAP
    case DrawUpdates => lock == QUEUE
    case RequestDraw => lock == QUEUE
  }

  /** With the first part of a section done, its work goes on under all its locks. */
  ghost predicate HoldsMidway(s: Section, first: Program, rest: Program)
    requires s.UseSlot? ==> s.p < MAX_PLAYERS
  {
    ProgramOf(s) == first + rest && forall lock :: WorksOn(s, lock) ==> lock in Held({}, first)
  }

  lemma SectionHolds(s: Section) returns (first: Program, rest: Program)
    requires s.UseSlot? ==> s.p < MAX_PLAYERS
    ensures HoldsMidway(s, first, rest)
  {
    if s == Tick {
      first, rest := TickHolds();
    } else if s == DrawField {
      first, rest := [Acquire(QUEUE), Acquire(MAP)], [Release(MAP), Release(QUEUE)];
      TakeFirst({}, QUEUE, [Acquire(MAP)]);
      TakeFirst({} + {QUEUE}, MAP, []);
      assert first == [Acquire(QUEUE)] + [Acquire(MAP)] && [Acquire(MAP)] == [Acquire(MAP)] + [];
      assert ProgramOf(s) == first + rest;
    } else {
      var lock := OnlyLock(s);
      first, rest := [Acquire(lock)], [Release(lock)];
      TakeFirst({}, lock, []);
      assert first == first + [];
      assert ProgramOf(s) == first + rest;
    }
  }

  function OnlyLock(s: Section): (lock: Lock)
    requires s != Tick && s != DrawField && (s.UseSlot? ==> s.p < MAX_PLAYERS)
    ensures ProgramOf(s) == Locked(lock, []) && forall l :: WorksOn(s, l) ==> l == lock
  {
    match s
    case SendMap => MAP
    case CopyLog => CHANGELOG
    case UseSlot(p) => Slot(p)
    case AwaitTick => TICKER
    case _ => QUEUE
  }

  lemma TickHolds() returns (first: Program, rest: Program)
    ensures HoldsMidway(Tick, first, rest)
  {
    TickBegins();
    first := TickStart();
    rest :| ProgramOf(Tick) == first + rest;
    forall lock | WorksOn(Tick, lock) ensures lock in Held({}, first) {
      StartHolds(0);
      if p :| 0 <= p < MAX_PLAYERS && lock == Slot(p) {
        StartHolds(p);
      }
    }
  }

  lemma StartHolds(p: nat)
    requires p < MAX_PLAYERS
    ensures MAP in Held({}, TickStart()) && CHANGELOG in Held({}, TickStart()) && Slot(p) in Held({}, TickStart())
  {
    TakeFirst({}, MAP, [Acquire(CHANGELOG)] + Slots(0, true));
    TakeFirst({} + {MAP}, CHANGELOG, Slots(0, true));
    SlotsAcquired({} + {MAP} + {CHANGELOG}, 0);
    assert Slot(p) in SlotsFrom(0);
  }

  /** The tick processes players holding the locks of the map, the changelog and all slots. */
  lemma TickHoldsAllSlots(p: nat)
    requires p < MAX_PLAYERS
    ensures exists rest :: ProgramOf(Tick) == TickStart() + rest
    ensures MAP in Held({}, TickStart()) && CHANGELOG in Held({}, TickStart()) && Slot(p) in Held({}, TickStart())
  {
    TickBegins();
    StartHolds(p);
  }

  /** While one thread holds the lock of a slot, the lock is taken from every other thread: a
      player the tick looks ahead at does not change before the tick lets go. */
  lemma SlotIsExclusive(rs: seq<seq<Thread>>, who: seq<nat>, k: nat, i: nat, j: nat, lock: Lock)
    requires Run(rs, who) && k < |rs| && i < |rs[k]| && j < |rs[k]| && i != j && lock in rs[k][i].held
    ensures lock !in rs[k][j].held
    ensures rs[k][j].todo != [] && rs[k][j].todo[0] == Acquire(lock) ==> !CanStep(rs[k], j)
  {
    RunStaysSafe(rs, who, k);
  }
}
