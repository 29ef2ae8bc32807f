/** A relay that gives up has a reason for every model of its list. */
module RelayReach {
  import opened Text
  import opened Relay
  import opened RelayRuns
  import C = Cooldowns
  import H = KeyHealth
  import L = RelayCooldowns

  // ----- Reasons, told by the cooldowns at the start and the log -----

  /** A call of the run put the triple on cooldown. */
  ghost predicate Cooled(g: Segment, t: C.Triple) {
    !g.script.ending.Ended? && H.IsRetryable(ErrorOf(g.model, g.script.ending)) && Triple(g.model, g.keyId) == t
  }

  ghost predicate CooledIn(log: seq<Segment>, t: C.Triple) {
    exists j :: 0 <= j < |log| && Cooled(log[j], t)
  }

  /** A call made before query `q` put the triple on cooldown. */
  ghost predicate CooledBefore(log: seq<Segment>, q: nat, t: C.Triple) {
    exists j :: 0 <= j < |log| && log[j].queries <= q && Cooled(log[j], t)
  }

  /** At query `q` every live key of the model was cooling when the run began, or had been put on cooldown by
      a call of the run. */
  ghost predicate AllOut(w: World, m: Model, start: C.Limits, log: seq<Segment>, q: nat) {
    forall id :: id in LiveIds(w.keys(q), m.platform) ==>
      C.IsCooling(start, Triple(m, id), w.clock(0)) || CooledBefore(log, q, Triple(m, id))
  }

  /** Place `i` has no provider, or a query that the run made for it found no key to use. */
  ghost predicate Beyond(w: World, req: Request, start: C.Limits, asked: seq<nat>, log: seq<Segment>, i: nat)
    requires i < |req.models|
  {
    || req.models[i].platform !in req.registered
    || exists q: nat :: q < |asked| && asked[q] == i && AllOut(w, req.models[i], start, log, q)
  }

  ghost predicate FailedIn(log: seq<Segment>, id: int) {
    exists j :: 0 <= j < |log| && log[j].model.id == id && !Worked(log[j])
  }

  /** A call of this model failed or stayed blank, or it has no provider or no key left. */
  ghost predicate Lost(w: World, req: Request, start: C.Limits, asked: seq<nat>, log: seq<Segment>, id: int) {
    || FailedIn(log, id)
    || exists i: nat :: i < |req.models| && req.models[i].id == id && Beyond(w, req, start, asked, log, i)
  }

  ghost predicate Accounted(w: World, req: Request, start: C.Limits, asked: seq<nat>, log: seq<Segment>, i: nat)
    requires i < |req.models|
  {
    req.models[i].platform in BarredPlatforms(log) || Lost(w, req, start, asked, log, req.models[i].id)
  }

  // ----- The invariant -----

  /** Every cooldown is one from the start or was set by a call of the run. */
  ghost predicate CooldownsKnown(start: C.Limits, log: seq<Segment>, limits: C.Limits) {
    forall t :: t in limits.cooldowns ==>
      (t in start.cooldowns && start.cooldowns[t] == limits.cooldowns[t]) || CooledIn(log, t)
  }

  ghost predicate DropsKnown(w: World, req: Request, start: C.Limits, asked: seq<nat>, log: seq<Segment>,
                             ids: set<int>) {
    forall id :: id in ids ==> Lost(w, req, start, asked, log, id)
  }

  ghost predicate PlacesKnown(w: World, req: Request, start: C.Limits, asked: seq<nat>, log: seq<Segment>, idx: nat) {
    forall i: nat :: i < idx && i < |req.models| ==> Accounted(w, req, start, asked, log, i)
  }

  /** Every call so far came after at most all queries so far. */
  ghost predicate QueriesInOrder(s: State) {
    forall j :: 0 <= j < |s.log| ==> s.log[j].queries <= |s.asked|
  }

  ghost predicate Known(w: World, req: Request, start: C.Limits, s: State) {
    && CooldownsKnown(start, s.log, s.limits) && DropsKnown(w, req, start, s.asked, s.log, s.skipIds)
    && PlacesKnown(w, req, start, s.asked, s.log, s.idx) && QueriesInOrder(s)
  }

  // ----- Choosing a model -----

  lemma {:induction false} UnusableIsBeyond(w: World, req: Request, start: C.Limits, s: State, s': State, i: nat)
    requires ForwardClock(w) && CooldownsKnown(start, s.log, s.limits) && QueriesInOrder(s)
    requires i < |req.models| && Unusable(w, req, s, s', i)
    ensures Beyond(w, req, start, s'.asked, s.log, i)
  {
    hide Cooled, LiveIds;
    var m := req.models[i];
    if m.platform in req.registered {
      var q: nat :| |s.asked| <= q < |s'.asked| && s'.asked[q] == i && Keyless(w, m, s.limits, w.clock(s.tick), q);
      assert w.clock(0) <= w.clock(s.tick);
      forall id | id in LiveIds(w.keys(q), m.platform)
        ensures C.IsCooling(start, Triple(m, id), w.clock(0)) || CooledBefore(s.log, q, Triple(m, id))
      {
        CooledSoFar(s, q, Triple(m, id));
      }
      assert AllOut(w, m, start, s.log, q);
    }
  }

  lemma {:induction false} CooledSoFar(s: State, q: nat, t: C.Triple)
    requires QueriesInOrder(s) && |s.asked| <= q
    ensures CooledIn(s.log, t) ==> CooledBefore(s.log, q, t)
  {
    hide Cooled;
  }

  lemma {:induction false} ChoosingKnows(w: World, req: Request, start: C.Limits, s: State)
    requires ForwardClock(w) && Known(w, req, start, s) && s.skipPlatforms == BarredPlatforms(s.log)
    ensures Known(w, req, start, Select(w, req, s).0)
  {
    hide Select, Beyond, Unusable, Usable, CooledIn, FailedIn, BarredPlatforms, ForwardClock;
    var s' := Select(w, req, s).0;
    SelectMeaning(w, req, s);
    assert s.log + [] == s.log;
    forall id | id in s'.skipIds ensures Lost(w, req, start, s'.asked, s.log, id) {
      if id in s.skipIds {
        LostStays(w, req, start, s.asked, s'.asked, s.log, [], id);
      } else {
        var i :| DroppedAt(w, req, s, s', i, id);
        UnusableIsBeyond(w, req, start, s, s', i);
      }
    }
    forall i: nat | i < s'.idx && i < |req.models| ensures Accounted(w, req, start, s'.asked, s.log, i) {
      if i < s.idx {
        AccountedStays(w, req, start, s.asked, s'.asked, s.log, [], i);
      } else {
        PassedIsAccounted(w, req, start, s, s', i);
      }
    }
  }

  lemma {:induction false} PassedIsAccounted(w: World, req: Request, start: C.Limits, s: State, s': State, i: nat)
    requires ForwardClock(w) && Known(w, req, start, s) && s.skipPlatforms == BarredPlatforms(s.log)
             && s.asked <= s'.asked
    requires i < |req.models| && Passed(w, req, s, s', i)
    ensures Accounted(w, req, start, s'.asked, s.log, i)
  {
    hide Beyond, Unusable, CooldownsKnown, FailedIn, BarredPlatforms, ForwardClock;
    var m := req.models[i];
    assert s.log + [] == s.log;
    if m.platform !in s.skipPlatforms {
      if m.id in s.skipIds {
        LostStays(w, req, start, s.asked, s'.asked, s.log, [], m.id);
      } else {
        var i0: nat :| s.idx <= i0 <= i && req.models[i0].id == m.id && Unusable(w, req, s, s', i0);
        UnusableIsBeyond(w, req, start, s, s', i0);
      }
    }
  }

  // ----- One more call -----

  lemma {:induction false} CooledInGrows(log: seq<Segment>, g: Segment, t: C.Triple)
    ensures CooledIn(log + [g], t) <==> CooledIn(log, t) || Cooled(g, t)
  {
    hide Cooled;
    var more := log + [g];
    if j :| 0 <= j < |log| && Cooled(log[j], t) { assert more[j] == log[j]; }
    if Cooled(g, t) { assert more[|log|] == g; }
  }

  /** A reason stays one as more queries and calls are made. */
  lemma {:induction false} LostStays(w: World, req: Request, start: C.Limits, asked: seq<nat>, asked': seq<nat>,
                                     log: seq<Segment>, more: seq<Segment>, id: int)
    requires Lost(w, req, start, asked, log, id) && asked <= asked'
    ensures Lost(w, req, start, asked', log + more, id)
  {
    hide AllOut, Worked;
    if j :| 0 <= j < |log| && log[j].model.id == id && !Worked(log[j]) {
      assert (log + more)[j] == log[j];
    } else {
      var i: nat :| i < |req.models| && req.models[i].id == id && Beyond(w, req, start, asked, log, i);
      if req.models[i].platform in req.registered {
        var q: nat :| q < |asked| && asked[q] == i && AllOut(w, req.models[i], start, log, q);
        AllOutStays(w, req.models[i], start, log, more, q);
        assert asked'[q] == i;
      }
      assert Beyond(w, req, start, asked', log + more, i);
    }
  }

  lemma {:induction false} AllOutStays(w: World, m: Model, start: C.Limits, log: seq<Segment>, more: seq<Segment>,
                                       q: nat)
    requires AllOut(w, m, start, log, q)
    ensures AllOut(w, m, start, log + more, q)
  {
    hide Cooled, LiveIds, C.IsCooling;
    forall id | id in LiveIds(w.keys(q), m.platform) && CooledBefore(log, q, Triple(m, id))
      ensures CooledBefore(log + more, q, Triple(m, id))
    {
      var j :| 0 <= j < |log| && log[j].queries <= q && Cooled(log[j], Triple(m, id));
      assert (log + more)[j] == log[j];
    }
  }

  lemma {:induction false} AccountedStays(w: World, req: Request, start: C.Limits, asked: seq<nat>, asked': seq<nat>,
                                          log: seq<Segment>, more: seq<Segment>, i: nat)
    requires i < |req.models| && Accounted(w, req, start, asked, log, i) && asked <= asked'
    ensures Accounted(w, req, start, asked', log + more, i)
  {
    hide Lost, Barring;
    if Lost(w, req, start, asked, log, req.models[i].id) {
      LostStays(w, req, start, asked, asked', log, more, req.models[i].id);
    } else {
      var j :| 0 <= j < |log| && Barring(log[j]) && log[j].model.platform == req.models[i].platform;
      assert (log + more)[j] == log[j];
    }
  }

  lemma {:induction false} SegmentKnows(w: World, req: Request, start: C.Limits, s: State, m: Model, keyId: nat,
                                        at: real)
    requires Known(w, req, start, s) && s.idx < |req.models| && m == req.models[s.idx]
    ensures Known(w, req, start, RunSegment(w, req, s, m, keyId, at).0)
  {
    hide RunSegment, Lost, CooledIn, Barring, Worked, BarredPlatforms, H.IsRetryable, ErrorOf;
    SegmentMeaning(w, req, s, m, keyId, at);
    L.SegmentLimits(w, req, s, m, keyId, at);
    var s' := RunSegment(w, req, s, m, keyId, at).0;
    var g := s'.log[|s.log|];
    assert s'.log == s.log + [g];
    forall t | t in s'.limits.cooldowns
      ensures (t in start.cooldowns && start.cooldowns[t] == s'.limits.cooldowns[t]) || CooledIn(s'.log, t)
    {
      CooledInGrows(s.log, g, t);
    }
    forall id | id in s'.skipIds ensures Lost(w, req, start, s.asked, s'.log, id) {
      if id in s.skipIds {
        LostStays(w, req, start, s.asked, s.asked, s.log, [g], id);
      } else {
        NewlyLost(w, req, start, s.asked, s.log, g);
      }
    }
    forall i: nat | i < s'.idx && i < |req.models| ensures Accounted(w, req, start, s.asked, s'.log, i) {
      if i < s.idx {
        AccountedStays(w, req, start, s.asked, s.asked, s.log, [g], i);
      } else {
        NewlyLost(w, req, start, s.asked, s.log, g);
      }
    }
  }

  lemma {:induction false} NewlyLost(w: World, req: Request, start: C.Limits, asked: seq<nat>, log: seq<Segment>,
                                     g: Segment)
    requires !Worked(g)
    ensures Lost(w, req, start, asked, log + [g], g.model.id)
  {
    hide Worked;
    assert (log + [g])[|log|] == g;
  }

  // ----- Whole runs -----

  lemma {:induction false} LoopKnows(w: World, req: Request, start: C.Limits, deadline: real, s: State)
    requires ForwardClock(w) && Good(w, req, s) && AllTruncated(s.log) && Known(w, req, start, s)
    ensures Known(w, req, start, Loop(w, req, deadline, s))
    decreases MAX_ITERS - s.iters
  {
    hide Select, RunSegment, Good, AllTruncated, Completed, ForwardClock, Known;
    if s.iters < MAX_ITERS && w.clock(s.tick) < deadline {
      var s1 := s.(tick := s.tick + 1);
      ChoosingKeeps(w, req, s, s1.(iters := s.iters + 1));
      TurnKnows(w, req, start, s, s1.(iters := s.iters + 1));
      TurnKeeps(w, req, s1.(iters := s.iters + 1));
      var (s', more) := Turn(w, req, s1);
      if more { LoopKnows(w, req, start, deadline, s'); }
    } else {
      KnownLater(w, req, start, s, s.(tick := s.tick + 1));
    }
  }

  lemma {:induction false} KnownLater(w: World, req: Request, start: C.Limits, s: State, s': State)
    requires Known(w, req, start, s) && s'.limits == s.limits && s'.log == s.log && s'.skipIds == s.skipIds
             && s'.idx == s.idx
    requires s'.asked == s.asked
    ensures Known(w, req, start, s')
  {
  }

  lemma {:induction false} TurnKnows(w: World, req: Request, start: C.Limits, s0: State, s: State)
    requires ForwardClock(w) && Good(w, req, s) && Known(w, req, start, s0)
    requires s.limits == s0.limits && s.log == s0.log && s.skipIds == s0.skipIds && s.idx == s0.idx
             && s.asked == s0.asked
    ensures var (s1, c) := Select(w, req, s);
            var s2 := match c
                      case NoModel => s1
                      case Chosen(m, keyId, at) => RunSegment(w, req, s1, m, keyId, at).0;
            Known(w, req, start, s2)
  {
    hide Select, RunSegment, InOrder, CallsAreRight, AllBehind, ForwardClock, Known, Passed, Usable;
    KnownLater(w, req, start, s0, s);
    ChoosingKnows(w, req, start, s);
    SelectMeaning(w, req, s);
    var (s1, c) := Select(w, req, s);
    match c
    case NoModel =>
    case Chosen(m, keyId, at) => SegmentKnows(w, req, start, s1, m, keyId, at);
  }

  /** A run that stops with its answer incomplete, before twelve turns and before the deadline, has a reason
      for every model of the list: a call of it failed or stayed blank, its platform was barred by an
      authorization error, it has no provider, or at a query the run made for it each live key was cooling
      from the start or had been put on cooldown by an earlier call of the run. */
  lemma {:induction false} NoModelLeftBehind(w: World, req: Request, limits: C.Limits, i: nat)
    requires ForwardClock(w) && i < |req.models|
    requires var s := Run(w, req, limits);
             && !Completed(s.log) && s.iters < 12
             && forall t :: 0 <= t < s.tick ==> w.clock(t) < w.clock(0) + 240.0
    ensures Accounted(w, req, limits, Run(w, req, limits).asked, Run(w, req, limits).log, i)
  {
    hide Loop, Good, Accounted, Completed, ForwardClock;
    EveryRelayIsGood(w, req, limits);
    StartIsGood(w, req, limits);
    StartIsKnown(w, req, limits);
    LoopKnows(w, req, limits, w.clock(0) + BUDGET_S, Start(limits));
  }

  // ----- The deadline -----

  /** Every call before the last was over before the deadline; and the last was over by `now`. */
  ghost predicate InBudget(log: seq<Segment>, deadline: real, now: real) {
    && (forall k :: 0 <= k < |log| ==> k + 1 == |log| || log[k].overAt < deadline)
    && (log != [] ==> log[|log| - 1].overAt <= now)
  }

  lemma {:induction false} SegmentInBudget(w: World, req: Request, s: State, m: Model, keyId: nat, at: real,
                                           deadline: real)
    requires ForwardClock(w) && forall k :: 0 <= k < |s.log| ==> s.log[k].overAt < deadline
    ensures var s' := RunSegment(w, req, s, m, keyId, at).0; InBudget(s'.log, deadline, w.clock(s'.tick))
  {
    hide H.IsRetryable, ContainsAny, Prompt, Produced, Contents, Reason, Blank, ErrorOf, C.AfterFailure,
         C.AfterSuccess, Announcement, Credit;
  }

  lemma {:induction false} LoopInBudget(w: World, req: Request, deadline: real, s: State)
    requires ForwardClock(w) && InBudget(s.log, deadline, w.clock(s.tick))
    ensures var s' := Loop(w, req, deadline, s); InBudget(s'.log, deadline, w.clock(s'.tick))
    decreases MAX_ITERS - s.iters
  {
    hide Select, RunSegment;
    if s.iters < MAX_ITERS && w.clock(s.tick) < deadline {
      var s1 := s.(tick := s.tick + 1);
      var s0 := s1.(iters := s1.iters + 1);
      SelectMeaning(w, req, s0);
      SelectCountsNothing(w, req, s0);
      var (s2, c) := Select(w, req, s0);
      var (s', more) := Turn(w, req, s1);
      match c
      case NoModel =>
      case Chosen(m, keyId, at) =>
        SegmentInBudget(w, req, s2, m, keyId, at, deadline);
        SegmentCounts(w, req, s2, m, keyId, at);
      if more {
        LoopInBudget(w, req, deadline, s');
      }
    }
  }

  lemma {:induction false} SegmentCounts(w: World, req: Request, s: State, m: Model, keyId: nat, at: real)
    ensures RunSegment(w, req, s, m, keyId, at).0.iters == s.iters
  {
    hide H.IsRetryable, ContainsAny, Prompt, Produced, Contents, Reason, Blank, ErrorOf, C.AfterFailure,
         C.AfterSuccess, Announcement, Credit;
  }

  /** No call is made once a call was over 240 seconds or more after the start of the run. */
  lemma {:induction false} NoCallPastTheBudget(w: World, req: Request, limits: C.Limits, j: nat, k: nat)
    requires ForwardClock(w) && j < k < |Run(w, req, limits).log|
    ensures Run(w, req, limits).log[j].overAt < w.clock(0) + 240.0
  {
    hide Loop;
    LoopInBudget(w, req, w.clock(0) + BUDGET_S, Start(limits));
  }

  lemma {:induction false} StartIsKnown(w: World, req: Request, limits: C.Limits)
    ensures Known(w, req, limits, Start(limits))
  {
  }

  /** A last call that left text and was cut off by the token cap does not end a run that has turns and time
      left: the run went on to look for a model, and has a reason for every model of the list, its own too. */
  lemma {:induction false} CutOffCallIsContinued(w: World, req: Request, limits: C.Limits, i: nat)
    requires ForwardClock(w) && i < |req.models|
    requires var s := Run(w, req, limits);
             && s.log != [] && Worked(s.log[|s.log| - 1]) && CutOff(s.log[|s.log| - 1].script.parts)
             && s.iters < 12 && forall t :: 0 <= t < s.tick ==> w.clock(t) < w.clock(0) + 240.0
    ensures Run(w, req, limits).idx >= |req.models|
    ensures Accounted(w, req, limits, Run(w, req, limits).asked, Run(w, req, limits).log, i)
  {
    hide Run, Good, Accounted, CutOff, Worked;
    EveryRelayIsGood(w, req, limits);
    NoModelLeftBehind(w, req, limits, i);
  }
}
