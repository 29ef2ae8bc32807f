/** The WebSocket manager: three session maps and a gauge, changed by endpoint calls and by a keepalive
    task that yields at its awaits. One event is one stretch of code without an await (the keepalive's
    visit to one session is an event of its own, a finer interleaving than the event loop's). */
module WsSessions {

  type SessionId = string

  const MAX_SESSIONS: nat := 100
  const IDLE_TIMEOUT_S: real := 1800.0
  const PING_WAIT_S: real := 10.0
  const KEEPALIVE_TICK_S: real := 30.0

  /** The keepalive task: asleep until a time, or on a tick that started at `now` with ids left to visit. */
  datatype Phase = Sleeping(wakeAt: real) | Visiting(now: real, todo: seq<SessionId>)

  /** What happened to sessions, in order; `wasLive` marks a registration over a live id. */
  datatype Fact =
    | Registered(sid: SessionId, at: real, wasLive: bool)
    | Removed(sid: SessionId, at: real)
    | Touched(sid: SessionId, at: real)
    | PingIssued(sid: SessionId, at: real)
    | TimedOut(sid: SessionId, at: real)

  datatype Hub = Hub(
    sessions: map<SessionId, nat>, activity: map<SessionId, real>, pings: map<SessionId, real>,
    gauge: int, clock: real, phase: Phase, facts: seq<Fact>)

  /** `SendFailed` is the end of any send that raised, however long ago it started. */
  datatype Event =
    | Register(at: real, sid: SessionId, ws: nat)
    | Unregister(at: real, sid: SessionId)
    | Touch(at: real, sid: SessionId)
    | SendFailed(at: real, sid: SessionId)
    | Wake(at: real, snapshot: seq<SessionId>)
    | Visit(at: real)

  const EmptyHub: Hub := Hub(map[], map[], map[], 0, 0.0, Sleeping(KEEPALIVE_TICK_S), [])

  // ----- One event -----

  function Drop<V>(m: map<SessionId, V>, sid: SessionId): map<SessionId, V> {
    m - {sid}
  }

  function Registering(h: Hub, sid: SessionId, ws: nat): Hub {
    if |h.sessions| >= MAX_SESSIONS then h
    else h.(sessions := h.sessions[sid := ws], activity := h.activity[sid := h.clock], pings := Drop(h.pings, sid),
            gauge := h.gauge + 1, facts := h.facts + [Registered(sid, h.clock, sid in h.sessions)])
  }

  /** Removal by the endpoint or a failed send (`fact` says which). */
  function Removing(h: Hub, sid: SessionId, fact: Fact): Hub {
    h.(sessions := Drop(h.sessions, sid), activity := Drop(h.activity, sid), pings := Drop(h.pings, sid),
       gauge := if sid in h.sessions then h.gauge - 1 else h.gauge,
       facts := if sid in h.sessions then h.facts + [fact] else h.facts)
  }

  function Touching(h: Hub, sid: SessionId): Hub {
    if sid !in h.sessions then h
    else h.(activity := h.activity[sid := h.clock], pings := Drop(h.pings, sid),
            facts := h.facts + [Touched(sid, h.clock)])
  }

  predicate PingExpired(h: Hub, sid: SessionId, now: real) {
    sid in h.pings && now - h.pings[sid] > PING_WAIT_S
  }

  predicate Idle(h: Hub, sid: SessionId, now: real) {
    sid in h.activity && now - h.activity[sid] > IDLE_TIMEOUT_S
  }

  /** The keepalive's treatment of one session; `now` is the time its tick started. */
  function Checking(h: Hub, sid: SessionId, now: real): Hub {
    if sid in h.pings then
      if PingExpired(h, sid, now) then Removing(h, sid, TimedOut(sid, h.clock)) else h
    else if Idle(h, sid, now) then
      h.(pings := h.pings[sid := now],
         facts := if sid in h.sessions then h.facts + [PingIssued(sid, h.clock)] else h.facts)
    else h
  }

  function Advance(h: Hub, now: real, todo: seq<SessionId>): Hub {
    h.(phase := if todo == [] then Sleeping(h.clock + KEEPALIVE_TICK_S) else Visiting(now, todo))
  }

  ghost predicate IsSnapshot(keys: seq<SessionId>, sessions: map<SessionId, nat>) {
    && (forall s :: s in keys <==> s in sessions)
    && (forall i, j :: 0 <= i < j < |keys| ==> keys[i] != keys[j])
  }

  /** Time moves forward, the sleep lasts at least its length, and a tick lists the sessions once each. */
  ghost predicate Enabled(h: Hub, e: Event) {
    && e.at >= h.clock
    && match e
       case Wake(at, snapshot) => h.phase.Sleeping? && at >= h.phase.wakeAt && IsSnapshot(snapshot, h.sessions)
       case Visit(_) => h.phase.Visiting? && h.phase.todo != []
       case _ => true
  }

  function Step(h0: Hub, e: Event): Hub {
    var h := h0.(clock := e.at);
    match e
    case Register(_, sid, ws) => Registering(h, sid, ws)
    case Unregister(at, sid) => Removing(h, sid, Removed(sid, at))
    case Touch(_, sid) => Touching(h, sid)
    case SendFailed(at, sid) => Removing(h, sid, Removed(sid, at))
    case Wake(at, snapshot) => Advance(h, at, snapshot)
    case Visit(_) =>
      if h.phase.Visiting? && h.phase.todo != [] then
        Advance(Checking(h, h.phase.todo[0], h.phase.now), h.phase.now, h.phase.todo[1..])
      else h
  }

  /** Events that the program cannot produce are skipped, so every sequence is a possible run. */
  ghost function Run(events: seq<Event>): Hub {
    if events == [] then EmptyHub
    else
      var h, e := Run(events[..|events| - 1]), events[|events| - 1];
      if Enabled(h, e) then Step(h, e) else h
  }

  // ----- The manager -----

  class WebSocketManager {
    var sessions: map<SessionId, nat>
    var activity: map<SessionId, real>
    var pings: map<SessionId, real>
    var gauge: int
    ghost var clock: real
    var phase: Phase
    ghost var facts: seq<Fact>

    ghost function State(): Hub
      reads this
    {
      Hub(sessions, activity, pings, gauge, clock, phase, facts)
    }

    constructor ()
      ensures State() == EmptyHub
    {
      sessions, activity, pings, gauge := map[], map[], map[], 0;
      clock, phase, facts := 0.0, Sleeping(KEEPALIVE_TICK_S), [];
    }

    /** `false` is the RuntimeError raised at capacity, also for a live id. */
    method RegisterSession(sid: SessionId, ws: nat, now: real) returns (ok: bool)
      modifies this
      ensures State() == Step(old(State()), Register(now, sid, ws))
      ensures ok <==> |old(sessions)| < MAX_SESSIONS
    {
      clock := now;
      if |sessions| >= MAX_SESSIONS { return false; }
      facts := facts + [Registered(sid, now, sid in sessions)];
      sessions := sessions[sid := ws];
      activity := activity[sid := now];
      pings := pings - {sid};
      gauge := gauge + 1;
      ok := true;
    }

    method UnregisterSession(sid: SessionId, now: real)
      modifies this
      ensures State() == Step(old(State()), Unregister(now, sid))
    {
      clock := now;
      Remove(sid, Removed(sid, now));
    }

    method Remove(sid: SessionId, ghost fact: Fact)
      modifies this
      ensures State() == Removing(old(State()), sid, fact)
    {
      var existed := sid in sessions;
      sessions := sessions - {sid};
      activity := activity - {sid};
      pings := pings - {sid};
      if existed {
        gauge := gauge - 1;
        facts := facts + [fact];
      }
    }

    method TouchSession(sid: SessionId, now: real)
      modifies this
      ensures State() == Step(old(State()), Touch(now, sid))
    {
      clock := now;
      if sid in sessions {
        activity := activity[sid := now];
        pings := pings - {sid};
        facts := facts + [Touched(sid, now)];
      }
    }

    method StartTick(snapshot: seq<SessionId>, now: real)
      modifies this
      ensures State() == Step(old(State()), Wake(now, snapshot))
    {
      clock := now;
      phase := if snapshot == [] then Sleeping(now + KEEPALIVE_TICK_S) else Visiting(now, snapshot);
    }

    /** One round of the keepalive's inner loop; `true` asks the caller to send a ping. */
    method VisitNext(time: real) returns (ping: bool)
      requires phase.Visiting? && phase.todo != []
      modifies this
      ensures State() == Step(old(State()), Visit(time))
      ensures ping <==>
                var sid, now := old(phase).todo[0], old(phase).now;
                sid !in old(pings) && sid in old(sessions) && sid in old(activity)
                  && now - old(activity)[sid] > IDLE_TIMEOUT_S
    {
      clock := time;
      var sid, now, rest := phase.todo[0], phase.now, phase.todo[1..];
      ping := false;
      if sid in pings {
        if now - pings[sid] > PING_WAIT_S {
          Remove(sid, TimedOut(sid, time));
        }
      } else {
        var idle := now - (if sid in activity then activity[sid] else now);
        if idle > IDLE_TIMEOUT_S {
          pings := pings[sid := now];
          ping := sid in sessions;
          if ping {
            facts := facts + [PingIssued(sid, time)];
          }
        }
      }
      phase := if rest == [] then Sleeping(time + KEEPALIVE_TICK_S) else Visiting(now, rest);
    }
  }

  // ----- What holds at every await point -----

  ghost predicate MapsAgree(h: Hub) {
    && |h.sessions| <= 100
    && (forall s :: s in h.activity <==> s in h.sessions)
    && (forall s :: s in h.pings ==> s in h.sessions)
  }

  /** No fact from index `i` on concerns the session, apart from pings. */
  ghost predicate QuietSince(facts: seq<Fact>, i: int, sid: SessionId) {
    forall k :: 0 <= i <= k < |facts| && facts[k].sid == sid ==> facts[k].PingIssued?
  }

  /** The pending ping of a session was issued by fact `i`, and nothing happened to the session since. */
  ghost predicate PingFrom(h: Hub, sid: SessionId, i: nat) {
    && sid in h.pings && i < |h.facts|
    && h.facts[i].PingIssued? && h.facts[i].sid == sid
    && h.pings[sid] <= h.facts[i].at <= h.clock && QuietSince(h.facts, i, sid)
  }

  /** A pending ping is from this tick, whose visit to the session is over, or a whole sleep old. */
  ghost predicate PingIsOld(phase: Phase, sid: SessionId, at: real) {
    match phase
    case Sleeping(wakeAt) => at + 30.0 <= wakeAt
    case Visiting(now, todo) => sid in todo ==> at + 30.0 <= now
  }

  ghost predicate PingIsFair(h: Hub, sid: SessionId) {
    exists i: nat :: PingFrom(h, sid, i) && PingIsOld(h.phase, sid, h.facts[i].at)
  }

  ghost predicate PhaseIsSane(h: Hub) {
    h.phase.Visiting? ==>
      && h.phase.now <= h.clock
      && forall i, j :: 0 <= i < j < |h.phase.todo| ==> h.phase.todo[i] != h.phase.todo[j]
  }

  /** The close recorded by fact `j` was deserved: the ping was issued at least a whole sleep earlier, and
      nothing was heard from or done to the session in between. */
  ghost predicate DeservedClose(facts: seq<Fact>, j: nat) {
    j < |facts| && facts[j].TimedOut? ==> exists i :: 0 <= i < j && IssuedBefore(facts, i, j)
  }

  ghost predicate IssuedBefore(facts: seq<Fact>, i: nat, j: nat)
    requires i < j < |facts|
  {
    && facts[i].PingIssued? && facts[i].sid == facts[j].sid
    && facts[j].at - facts[i].at >= 30.0
    && QuietSince(facts[..j], i, facts[j].sid)
  }

  /** How often a live id was registered again. */
  function ReRegistrations(facts: seq<Fact>): nat {
    if facts == [] then 0
    else
      var n, last := ReRegistrations(facts[..|facts| - 1]), facts[|facts| - 1];
      if last.Registered? && last.wasLive then n + 1 else n
  }

  /** The maps agree, and the gauge is off by exactly the number of live ids registered again. */
  ghost predicate Tallied(h: Hub) {
    MapsAgree(h) && h.gauge == |h.sessions| + ReRegistrations(h.facts)
  }

  ghost predicate Good(h: Hub) {
    && Tallied(h) && PhaseIsSane(h)
    && (forall s :: s in h.pings ==> PingIsFair(h, s))
    && (forall j: nat :: j < |h.facts| ==> DeservedClose(h.facts, j))
  }

  // ----- Preservation -----

  lemma {:induction false} DropCount(m: map<SessionId, nat>, sid: SessionId)
    ensures |Drop(m, sid)| == if sid in m then |m| - 1 else |m|
  {
    assert Drop(m, sid).Keys == m.Keys - {sid};
    assert |m.Keys| == |m| && |Drop(m, sid).Keys| == |Drop(m, sid)|;
  }

  lemma {:induction false} UpdateCount(m: map<SessionId, nat>, sid: SessionId, ws: nat)
    ensures |m[sid := ws]| == if sid in m then |m| else |m| + 1
  {
    assert m[sid := ws].Keys == m.Keys + {sid};
    assert |m.Keys| == |m| && |m[sid := ws].Keys| == |m[sid := ws]|;
  }

  lemma {:induction false} CountOneMore(facts: seq<Fact>, f: Fact)
    ensures ReRegistrations(facts + [f])
         == ReRegistrations(facts) + if f.Registered? && f.wasLive then 1 else 0
  {
    assert (facts + [f])[..|facts|] == facts;
  }

  lemma {:induction false} RegisteringKeepsTally(h: Hub, sid: SessionId, ws: nat)
    requires Tallied(h)
    ensures Tallied(Registering(h, sid, ws))
  {
    UpdateCount(h.sessions, sid, ws);
    CountOneMore(h.facts, Registered(sid, h.clock, sid in h.sessions));
  }

  lemma {:induction false} RemovingKeepsTally(h: Hub, sid: SessionId, fact: Fact)
    requires Tallied(h) && !fact.Registered?
    ensures Tallied(Removing(h, sid, fact))
  {
    DropCount(h.sessions, sid);
    CountOneMore(h.facts, fact);
  }

  lemma {:induction false} TouchingKeepsTally(h: Hub, sid: SessionId)
    requires Tallied(h)
    ensures Tallied(Touching(h, sid))
  {
    CountOneMore(h.facts, Touched(sid, h.clock));
  }

  lemma {:induction false} CheckingKeepsTally(h: Hub, sid: SessionId, now: real)
    requires Tallied(h)
    ensures Tallied(Checking(h, sid, now))
  {
    hide Removing, ReRegistrations;
    RemovingKeepsTally(h, sid, TimedOut(sid, h.clock));
    CountOneMore(h.facts, PingIssued(sid, h.clock));
  }

  lemma {:induction false} AdvanceKeepsTally(h: Hub, now: real, todo: seq<SessionId>)
    requires Tallied(h)
    ensures Tallied(Advance(h, now, todo))
  {
  }

  /** The maps, the bound and the gauge, for any event. */
  lemma {:induction false} StepKeepsTally(h0: Hub, e: Event)
    requires Tallied(h0)
    ensures Tallied(Step(h0, e))
  {
    var h := h0.(clock := e.at);
    assert Tallied(h);
    hide Tallied, Registering, Removing, Touching, Checking, Advance;
    match e
    case Register(at, sid, ws) => RegisteringKeepsTally(h, sid, ws);
    case Unregister(at, sid) => RemovingKeepsTally(h, sid, Removed(sid, at));
    case Touch(at, sid) => TouchingKeepsTally(h, sid);
    case SendFailed(at, sid) => RemovingKeepsTally(h, sid, Removed(sid, at));
    case Wake(at, snapshot) => AdvanceKeepsTally(h, at, snapshot);
    case Visit(at) =>
      if h.phase.Visiting? && h.phase.todo != [] {
        CheckingKeepsTally(h, h.phase.todo[0], h.phase.now);
        AdvanceKeepsTally(Checking(h, h.phase.todo[0], h.phase.now), h.phase.now, h.phase.todo[1..]);
      }
  }

  lemma {:induction false} StepKeepsPhase(h: Hub, e: Event)
    requires PhaseIsSane(h) && Enabled(h, e)
    ensures PhaseIsSane(Step(h, e))
  {
  }

  /** A pending ping stays accounted for while later facts concern other sessions. */
  lemma {:induction false} PingStays(h: Hub, h': Hub, sid: SessionId, i: nat)
    requires PingFrom(h, sid, i) && h.clock <= h'.clock
    requires sid in h'.pings && h'.pings[sid] == h.pings[sid]
    requires h'.facts == h.facts || (|h'.facts| == |h.facts| + 1 && h'.facts[..|h.facts|] == h.facts
               && h'.facts[|h.facts|].sid != sid)
    ensures PingFrom(h', sid, i) && h'.facts[i] == h.facts[i]
  {
    assert forall k :: 0 <= k < |h.facts| ==> h'.facts[k] == h.facts[k];
  }

  lemma {:induction false} PhaseKeepsPingOld(h: Hub, e: Event, sid: SessionId, at: real)
    requires Enabled(h, e) && PhaseIsSane(h) && PingIsOld(h.phase, sid, at) && at <= h.clock
    ensures PingIsOld(Step(h, e).phase, sid, at)
  {
  }

  lemma {:induction false} StepKeepsOtherPing(h: Hub, e: Event, sid: SessionId)
    requires PhaseIsSane(h) && MapsAgree(h) && Enabled(h, e) && sid in h.pings && PingIsFair(h, sid)
    requires sid in Step(h, e).pings && Step(h, e).pings[sid] == h.pings[sid]
    requires var h' := Step(h, e);
             h'.facts == h.facts || (|h'.facts| == |h.facts| + 1 && h'.facts[..|h.facts|] == h.facts
               && h'.facts[|h.facts|].sid != sid)
    ensures PingIsFair(Step(h, e), sid)
  {
    hide Step, Enabled, PhaseIsSane, PingIsOld, MapsAgree;
    var i: nat :| PingFrom(h, sid, i) && PingIsOld(h.phase, sid, h.facts[i].at);
    assert Step(h, e).clock >= h.clock by { StepKeepsTime(h, e); }
    PingStays(h, Step(h, e), sid, i);
    PhaseKeepsPingOld(h, e, sid, h.facts[i].at);
  }

  lemma {:induction false} StepKeepsTime(h: Hub, e: Event)
    requires Enabled(h, e)
    ensures Step(h, e).clock == e.at >= h.clock
  {
  }

  /** The visit that issues a ping leaves it accounted for. */
  lemma {:induction false} NewPingIsFair(h: Hub, e: Event, sid: SessionId)
    requires PhaseIsSane(h) && MapsAgree(h) && Enabled(h, e)
    requires sid in Step(h, e).pings && sid !in h.pings
    ensures PingIsFair(Step(h, e), sid)
  {
    var h' := Step(h, e);
    assert e.Visit? && sid == h.phase.todo[0];
    assert h'.facts == h.facts + [PingIssued(sid, e.at)];
    assert PingFrom(h', sid, |h.facts|);
    assert PingIsOld(h'.phase, sid, e.at);
  }

  /** How one event changes the facts and a ping it does not create. */
  lemma {:induction false} StepIsLocal(h: Hub, e: Event, sid: SessionId)
    requires PhaseIsSane(h) && MapsAgree(h) && Enabled(h, e)
    requires sid in Step(h, e).pings && sid in h.pings
    ensures var h' := Step(h, e);
            && h'.pings[sid] == h.pings[sid]
            && (h'.facts == h.facts || (|h'.facts| == |h.facts| + 1 && h'.facts[..|h.facts|] == h.facts
                  && h'.facts[|h.facts|].sid != sid))
  {
    var h' := Step(h, e);
    if h'.facts != h.facts {
      assert h'.facts == h.facts + [h'.facts[|h.facts|]];
    }
  }

  lemma {:induction false} StepKeepsPings(h: Hub, e: Event)
    requires Good(h) && Enabled(h, e)
    ensures forall sid :: sid in Step(h, e).pings ==> PingIsFair(Step(h, e), sid)
  {
    hide Step, Enabled, PingIsFair, PhaseIsSane, MapsAgree;
    forall sid | sid in Step(h, e).pings ensures PingIsFair(Step(h, e), sid) {
      if sid in h.pings {
        StepIsLocal(h, e, sid);
        StepKeepsOtherPing(h, e, sid);
      } else {
        NewPingIsFair(h, e, sid);
      }
    }
  }

  lemma {:induction false} DeservedStays(facts: seq<Fact>, f: Fact, j: nat)
    requires j < |facts| && DeservedClose(facts, j)
    ensures DeservedClose(facts + [f], j)
  {
    var more := facts + [f];
    if facts[j].TimedOut? {
      var i :| 0 <= i < j && IssuedBefore(facts, i, j);
      assert more[..j] == facts[..j] && more[i] == facts[i] && more[j] == facts[j];
      assert IssuedBefore(more, i, j);
    }
  }

  /** The keepalive closes a session only on a ping that is a whole sleep old. */
  lemma {:induction false} NewCloseIsDeserved(h: Hub, e: Event, sid: SessionId)
    requires PhaseIsSane(h) && sid in h.pings && PingIsFair(h, sid)
    requires Enabled(h, e) && e.Visit? && sid == h.phase.todo[0]
    ensures DeservedClose(h.facts + [TimedOut(sid, e.at)], |h.facts|)
  {
    var i: nat :| PingFrom(h, sid, i) && PingIsOld(h.phase, sid, h.facts[i].at);
    var facts := h.facts + [TimedOut(sid, e.at)];
    assert facts[..|h.facts|] == h.facts;
    assert IssuedBefore(facts, i, |h.facts|);
  }

  lemma {:induction false} StepAddsFact(h: Hub, e: Event) returns (f: Fact)
    requires Enabled(h, e)
    ensures Step(h, e).facts == h.facts || Step(h, e).facts == h.facts + [f]
    ensures f.TimedOut? && Step(h, e).facts != h.facts ==>
              e.Visit? && f == TimedOut(h.phase.todo[0], e.at) && f.sid in h.pings
  {
    match e
    case Register(at, sid, _) => f := Registered(sid, at, sid in h.sessions);
    case Unregister(at, sid) => f := Removed(sid, at);
    case Touch(at, sid) => f := Touched(sid, at);
    case SendFailed(at, sid) => f := Removed(sid, at);
    case Wake(at, _) => f := Touched("", at);
    case Visit(at) =>
      var sid := h.phase.todo[0];
      f := if sid in h.pings then TimedOut(sid, at) else PingIssued(sid, at);
  }

  lemma {:induction false} StepKeepsCloses(h: Hub, e: Event)
    requires Good(h) && Enabled(h, e)
    ensures forall j: nat :: j < |Step(h, e).facts| ==> DeservedClose(Step(h, e).facts, j)
  {
    hide Step, Enabled, DeservedClose, PingIsFair, PhaseIsSane, MapsAgree;
    var f := StepAddsFact(h, e);
    if Step(h, e).facts != h.facts {
      forall j: nat | j < |h.facts| + 1 ensures DeservedClose(h.facts + [f], j) {
        if j < |h.facts| {
          DeservedStays(h.facts, f, j);
        } else if f.TimedOut? {
          NewCloseIsDeserved(h, e, f.sid);
        } else {
          NotAClose(h.facts + [f], j);
        }
      }
    }
  }

  lemma {:induction false} NotAClose(facts: seq<Fact>, j: nat)
    requires j < |facts| && !facts[j].TimedOut?
    ensures DeservedClose(facts, j)
  {
  }

  // ----- Main results -----

  /** At every await point of every interleaving: at most 100 sessions, activity keys equal session keys,
      ping keys are among them, the gauge is off by exactly the number of live ids registered again, and
      every timeout close was deserved. */
  lemma {:induction false} EveryRunIsGood(events: seq<Event>)
    ensures Good(Run(events))
  {
    if events == [] {
      assert Good(EmptyHub);
    } else {
      var h, e := Run(events[..|events| - 1]), events[|events| - 1];
      EveryRunIsGood(events[..|events| - 1]);
      hide Step, Enabled, DeservedClose, PingIsFair, PhaseIsSane, Tallied;
      if Enabled(h, e) {
        StepKeepsTally(h, e);
        StepKeepsPhase(h, e);
        StepKeepsPings(h, e);
        StepKeepsCloses(h, e);
      }
    }
  }

  /** A timeout close hits only a session whose ping was issued more than 10 seconds earlier (a whole
      30-second sleep, in fact) and that was neither touched, re-registered nor removed since. */
  lemma {:induction false} TimeoutCloseIsDeserved(events: seq<Event>, j: nat) returns (i: nat)
    requires j < |Run(events).facts| && Run(events).facts[j].TimedOut?
    ensures var facts := Run(events).facts;
            && i < j && facts[i].PingIssued? && facts[i].sid == facts[j].sid
            && facts[j].at - facts[i].at >= 30.0
            && forall k :: i < k < j && facts[k].sid == facts[j].sid ==> facts[k].PingIssued?
  {
    EveryRunIsGood(events);
    var facts := Run(events).facts;
    hide Run, MapsAgree, PhaseIsSane, PingIsFair;
    assert DeservedClose(facts, j);
    var n :| 0 <= n < j && IssuedBefore(facts, n, j);
    i := n;
    forall k | i < k < j && facts[k].sid == facts[j].sid ensures facts[k].PingIssued? {
      assert facts[..j][k] == facts[k];
    }
  }

  /** The gauge equals the number of sessions if and only if no live id was ever registered again. */
  lemma {:induction false} GaugeIsRightIff(events: seq<Event>)
    ensures Run(events).gauge == |Run(events).sessions|
       <==> forall k :: 0 <= k < |Run(events).facts| ==>
              !(Run(events).facts[k].Registered? && Run(events).facts[k].wasLive)
  {
    EveryRunIsGood(events);
    ReRegistrationsMeaning(Run(events).facts);
  }

  lemma {:induction false} ReRegistrationsMeaning(facts: seq<Fact>)
    ensures ReRegistrations(facts) == 0 <==> forall k :: 0 <= k < |facts| ==>
              !(facts[k].Registered? && facts[k].wasLive)
  {
    if facts != [] {
      ReRegistrationsMeaning(facts[..|facts| - 1]);
    }
  }

  /** No session outlives an unanswered ping by more than one visit: whenever the keepalive comes back to
      a session that still has a pending ping, it closes it. */
  lemma {:induction false} PendingPingIsAlwaysClosed(events: seq<Event>, at: real)
    requires var h := Run(events); Enabled(h, Visit(at)) && h.phase.todo[0] in h.pings
    ensures var h, sid := Run(events), Run(events).phase.todo[0];
            var h' := Step(h, Visit(at));
            sid !in h'.sessions && sid !in h'.pings && h'.facts == h.facts + [TimedOut(sid, at)]
  {
    EveryRunIsGood(events);
    var h, sid := Run(events), Run(events).phase.todo[0];
    hide Run;
    assert PingIsFair(h, sid);
    var i: nat :| PingFrom(h, sid, i) && PingIsOld(h.phase, sid, h.facts[i].at);
  }

  /** One session registered twice: the gauge says two. */
  lemma {:induction false} RegisteringTwiceCountsTwice(sid: SessionId)
    ensures var h := Run([Register(1.0, sid, 1), Register(2.0, sid, 2)]);
            h.sessions == map[sid := 2] && |h.sessions| == 1 && h.gauge == 2
  {
    var events := [Register(1.0, sid, 1), Register(2.0, sid, 2)];
    assert events[..1] == [Register(1.0, sid, 1)] && events[..1][..0] == [];
    assert Run(events[..1]).sessions == map[sid := 1] && Run(events[..1]).gauge == 1;
  }
}
