/** How a client's copy of the field is kept in step (server/client_connection.c, libsnake/ticker.c). */
module Mirrors {
  import opened Torus
  import opened Field
  import opened Changes
  import opened Histories

  class Ticker {
    var tick: nat

    constructor ()
      ensures tick == 0
    {
      tick := 0;
    }

    method Tick()
      modifies this
      ensures tick == old(tick) + 1
    {
      tick := tick + 1;
    }
  }

  class TickerObserver {
    const ticker: Ticker
    var lastTick: nat

    constructor (ticker: Ticker)
      ensures this.ticker == ticker && lastTick == ticker.tick
    {
      this.ticker := ticker;
      lastTick := ticker.tick;
    }

    /** ticker_observer_wait_for_next_tick, from the moment the awaited tick has come. */
    method WaitForNextTick() returns (difference: nat)
      requires lastTick < ticker.tick
      modifies this
      ensures lastTick == ticker.tick && difference == ticker.tick - old(lastTick) > 0
    {
      difference := ticker.tick - lastTick;
      lastTick := ticker.tick;
    }
  }

  /** What the sending thread does next. */
  datatype Phase = Registered | Observing | Waiting | Woken(ticksPassed: nat)

  /** The server's published version, the ticker, and one sending thread with the client's
      mirror of the field. `seen` is the version the mirror shows. */
  datatype System = System(
    version: nat, tick: nat, phase: Phase, last: nat, mirror: map<Coord, Tile>, seen: nat)

  datatype Action =
    | Publish         // server_tick, under the map and changelog locks
    | Announce        // ticker_tick, after the locks are released
    | Observe         // ticker_observer_init
    | SendFirstMap
    | Wake            // ticker_observer_wait_for_next_tick returns
    | SendMap         // more than one tick has passed
    | SendLog         // one tick has passed

  ghost predicate Starts(m: System) {
    m.version == m.tick && m.phase == Registered
  }

  ghost predicate Acts(h: History, m: System, a: Action, n: System)
    requires h.Valid()
  {
    match a
    case Publish =>
      m.version == m.tick && m.version + 1 < |h.maps| && n == m.(version := m.version + 1)
    case Announce =>
      m.tick < m.version && n == m.(tick := m.tick + 1)
    case Observe =>
      m.phase == Registered && n == m.(phase := Observing, last := m.tick)
    case SendFirstMap =>
      m.phase == Observing && m.version < |h.maps| && n == ShowMap(h, m)
    case Wake =>
      m.phase == Waiting && m.last < m.tick && n == m.(phase := Woken(m.tick - m.last), last := m.tick)
    case SendMap =>
      m.phase.Woken? && m.phase.ticksPassed > 1 && m.version < |h.maps| && n == ShowMap(h, m)
    case SendLog =>
      m.phase.Woken? && m.phase.ticksPassed <= 1 && m.version < |h.maps| && n == ShowLog(h, m)
  }

  /** The client replaces its field by the one sent. */
  ghost function ShowMap(h: History, m: System): System
    requires m.version < |h.maps|
  {
    m.(phase := Waiting, mirror := h.maps[m.version], seen := m.version)
  }

  /** The client applies the changes sent one by one. */
  ghost function ShowLog(h: History, m: System): System
    requires h.Valid() && m.version < |h.maps|
  {
    m.(phase := Waiting, mirror := Replay(h.logs[m.version], m.mirror), seen := m.version)
  }

  /** No version lies between the one the mirror shows and the one whose log is copied. */
  ghost predicate Timely(m: System, a: Action) {
    a == SendLog ==> m.version <= m.seen + 1
  }

  /** The mirror shows the field of a version no older than the tick last observed (or, just
      after waking, than the tick observed before). */
  ghost predicate InStep(h: History, m: System)
    requires h.Valid()
  {
    && m.tick <= m.version <= m.tick + 1 && m.version < |h.maps|
    && (m.phase != Registered ==> m.last <= m.tick)
    && (m.phase == Waiting || m.phase.Woken? ==> m.seen <= m.version && m.mirror == h.maps[m.seen])
    && (m.phase == Waiting ==> m.last <= m.seen)
    && (m.phase.Woken? ==> 0 < m.phase.ticksPassed <= m.last <= m.seen + m.phase.ticksPassed)
  }

  /** Replaying the log of version w over the field of version v. */
  lemma ReplayFrom(h: History, v: nat, w: nat)
    requires h.Valid() && v <= w <= v + 1 && 0 < w < |h.maps|
    ensures Replay(h.logs[w], h.maps[v]) == h.maps[w]
  {
    assert Replay(h.logs[w - 1 + 1], h.maps[w - 1]) == h.maps[w];
    if v == w {
      ReplayIdempotent(h.logs[w], h.maps[w - 1]);
    }
  }

  /** A log copied before the next tick replaces it is copied in time. */
  lemma PromptIsTimely(h: History, m: System, n: System)
    requires h.Valid() && InStep(h, m) && Acts(h, m, SendLog, n) && m.version == m.last
    ensures Timely(m, SendLog)
  {
  }

  lemma ActKeepsInStep(h: History, m: System, a: Action, n: System)
    requires h.Valid() && InStep(h, m) && Acts(h, m, a, n) && Timely(m, a)
    ensures InStep(h, n)
  {
    if a == SendLog {
      ReplayFrom(h, m.seen, m.version);
    }
  }

  /** Any sequence of actions. */
  ghost predicate Happens(h: History, ms: seq<System>, acts: seq<Action>)
    requires h.Valid()
  {
    && |ms| == |acts| + 1 && Starts(ms[0]) && ms[0].version < |h.maps|
    && forall i :: 0 <= i < |acts| ==> Acts(h, ms[i], acts[i], ms[i + 1])
  }

  ghost predicate Schedule(h: History, ms: seq<System>, acts: seq<Action>)
    requires h.Valid()
  {
    Happens(h, ms, acts) && forall i :: 0 <= i < |acts| ==> Timely(ms[i], acts[i])
  }

  /** In every schedule in which each log is copied in time, the mirror after every message is the
      server's field after some tick no earlier than the last one observed. */
  lemma {:induction false} MirrorStaysInStep(h: History, ms: seq<System>, acts: seq<Action>, i: nat)
    requires h.Valid() && Schedule(h, ms, acts) && i < |ms|
    ensures InStep(h, ms[i])
    decreases i
  {
    if i > 0 {
      MirrorStaysInStep(h, ms, acts, i - 1);
      ActKeepsInStep(h, ms[i - 1], acts[i - 1], ms[i - 1 + 1]);
    }
  }

  /** The same for the history of any run of the game. */
  lemma MirrorFollowsRun(gs: seq<Runs.Game>, es: seq<Runs.Event>, ms: seq<System>, acts: seq<Action>, i: nat)
    requires Runs.Run(gs, es)
    requires var h := Published(gs, es, |es|); h.Valid() ==> Schedule(h, ms, acts)
    requires i < |ms| && ms[i].phase == Waiting
    ensures var h := Published(gs, es, |es|);
      h.Valid() && ms[i].last <= ms[i].seen < |h.maps| && ms[i].mirror == h.maps[ms[i].seen]
  {
    RunPublishesHistory(gs, es, |es|);
    MirrorStaysInStep(Published(gs, es, |es|), ms, acts, i);
  }

  /** A history in which one tile changes in tick v + 1 and nothing changes afterwards. */
  function OneChange(v: nat, n: nat): History {
    History(seq(n, k => OneTile(if k > v then 1 else 0)), seq(n, k => if k == v + 1 then [ONE_CHANGE] else []))
  }

  const ONE_CHANGE := Change(Coord(0, 0), Tile(1, Fruit, 0))

  function OneTile(order: nat): map<Coord, Tile> {
    map[Coord(0, 0) := Tile(order, Fruit, 0)]
  }

  lemma OneTileChanges()
    ensures Replay([ONE_CHANGE], OneTile(0)) == OneTile(1) != OneTile(0)
  {
    ReplayPush([], ONE_CHANGE, OneTile(0));
    assert [] + [ONE_CHANGE] == [ONE_CHANGE];
    assert OneTile(0)[Coord(0, 0)] != OneTile(1)[Coord(0, 0)];
  }

  lemma OneChangeStep(v: nat, n: nat, k: nat)
    requires k + 1 < n
    ensures var h := OneChange(v, n); Replay(h.logs[k + 1], h.maps[k]) == h.maps[k + 1]
  {
    OneTileChanges();
  }

  lemma OneChangeIsHistory(v: nat, n: nat)
    requires n > 0
    ensures OneChange(v, n).Valid()
  {
    forall k | 0 <= k < n - 1
      ensures Replay(OneChange(v, n).logs[k + 1], OneChange(v, n).maps[k]) == OneChange(v, n).maps[k + 1]
    {
      OneChangeStep(v, n, k);
    }
  }

  /** Applying the log of version w to a mirror of version v is right for every history exactly
      if no version between the two was skipped. */
  lemma LogFitsExactlyNextVersion(v: nat, w: nat)
    requires v <= w && 0 < w
    ensures (forall h: History :: h.Valid() && w < |h.maps| ==> Replay(h.logs[w], h.maps[v]) == h.maps[w])
            <==> w <= v + 1
  {
    if w <= v + 1 {
      forall h: History | h.Valid() && w < |h.maps| ensures Replay(h.logs[w], h.maps[v]) == h.maps[w] {
        ReplayFrom(h, v, w);
      }
    } else {
      var h := OneChange(v, w + 1);
      OneChangeIsHistory(v, w + 1);
      assert Replay(h.logs[w], h.maps[v]) == h.maps[v];
      OneTileChanges();
    }
  }
}
