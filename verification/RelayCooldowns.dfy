/** A relay run against the cooldowns it shares with the router: its calls tell all it does to them, and
    each call uses a key that is live and ready. */
module RelayCooldowns {
  import opened Relay
  import opened RelayRuns
  import opened Picking
  import C = Cooldowns
  import H = KeyHealth
  import Router

  // ----- What the log says happened to the cooldowns -----

  /** The cooldown operations behind one call. Asking about keys that are cooling changes nothing. */
  function OpsOf(g: Segment): seq<C.Op> {
    var t := Triple(g.model, g.keyId);
    if g.script.ending.Ended? then [C.Asked(t, g.at), C.Succeeded(t)]
    else if H.IsRetryable(ErrorOf(g.model, g.script.ending)) then [C.Asked(t, g.at), C.Failed(t, g.overAt)]
    else [C.Asked(t, g.at)]
  }

  function Ops(log: seq<Segment>): seq<C.Op> {
    if log == [] then [] else Ops(log[..|log| - 1]) + OpsOf(log[|log| - 1])
  }

  /** By the cooldowns at the start and the calls before it, the key of call `k` was not cooling. */
  ghost predicate WarmCall(start: C.Limits, log: seq<Segment>, k: nat)
    requires k < |log|
  {
    !C.IsCooling(C.ApplyAll(start, Ops(log[..k])), Triple(log[k].model, log[k].keyId), log[k].at)
  }

  ghost predicate AllWarm(start: C.Limits, log: seq<Segment>) {
    forall k: nat :: k < |log| ==> WarmCall(start, log, k)
  }

  /** Nothing in `ops` was recorded or asked before `time`. */
  ghost predicate NotBefore(ops: seq<C.Op>, time: real) {
    forall i :: 0 <= i < |ops| && !ops[i].Succeeded? ==> time <= ops[i].at
  }

  /** The log's operations give the cooldowns, and happened in order between the start of the run and now. */
  ghost predicate Kept(w: World, start: C.Limits, s: State) {
    && s.limits == C.ApplyAll(start, Ops(s.log)) && AllWarm(start, s.log)
    && C.InTimeOrder(Ops(s.log)) && NotBefore(Ops(s.log), w.clock(0)) && C.NotAfter(Ops(s.log), w.clock(s.tick))
  }

  // ----- One call -----

  lemma {:induction false} SegmentLimits(w: World, req: Request, s: State, m: Model, keyId: nat, at: real)
    ensures var g := SegmentOf(w, req, s, m, keyId, at);
            var s' := RunSegment(w, req, s, m, keyId, at).0;
            && s'.log == s.log + [g] && s.tick <= s'.tick
            && s'.limits == if g.script.ending.Ended? then C.AfterSuccess(s.limits, Triple(m, keyId))
                            else if H.IsRetryable(ErrorOf(m, g.script.ending))
                            then C.AfterFailure(s.limits, Triple(m, keyId), g.overAt)
                            else s.limits
  {
    hide H.IsRetryable, Produced, Contents, Reason, Prompt, ErrorOf, Announcement, C.AfterFailure, C.AfterSuccess;
  }

  lemma {:induction false} OpsNext(log: seq<Segment>, g: Segment)
    ensures Ops(log + [g]) == Ops(log) + OpsOf(g)
  {
    assert (log + [g])[..|log|] == log;
  }

  lemma {:induction false} WarmNext(start: C.Limits, log: seq<Segment>, g: Segment)
    requires AllWarm(start, log) && !C.IsCooling(C.ApplyAll(start, Ops(log)), Triple(g.model, g.keyId), g.at)
    ensures AllWarm(start, log + [g])
  {
    hide C.IsCooling, C.ApplyAll, Ops;
    var more := log + [g];
    forall k: nat | k < |more| ensures WarmCall(start, more, k) {
      if k < |log| {
        assert WarmCall(start, log, k) && more[..k] == log[..k] && more[k] == log[k];
      } else {
        assert more[..k] == log && more[k] == g;
      }
    }
  }

  lemma {:induction false} TimesNext(ops: seq<C.Op>, g: Segment, from: real, now: real)
    requires C.InTimeOrder(ops) && NotBefore(ops, from) && C.NotAfter(ops, now)
    requires from <= now <= g.at <= g.overAt
    ensures C.InTimeOrder(ops + OpsOf(g)) && NotBefore(ops + OpsOf(g), from) && C.NotAfter(ops + OpsOf(g), g.overAt)
  {
    hide H.IsRetryable, ErrorOf;
  }

  lemma {:induction false} LimitsNext(limits: C.Limits, g: Segment)
    ensures var t := Triple(g.model, g.keyId);
            var asked := C.AfterAsking(limits, t, g.at);
            C.ApplyAll(limits, OpsOf(g))
              == if g.script.ending.Ended? then C.AfterSuccess(asked, t)
                 else if H.IsRetryable(ErrorOf(g.model, g.script.ending)) then C.AfterFailure(asked, t, g.overAt)
                 else asked
  {
    hide C.AfterAsking, C.AfterFailure, C.AfterSuccess, C.ApplyAll, H.IsRetryable, ErrorOf;
    var t := Triple(g.model, g.keyId);
    C.ApplyOne(limits, C.Asked(t, g.at));
    C.ApplyTwo(limits, C.Asked(t, g.at), C.Succeeded(t));
    C.ApplyTwo(limits, C.Asked(t, g.at), C.Failed(t, g.overAt));
  }

  // ----- Whole runs -----

  lemma {:induction false} TurnKept(w: World, req: Request, start: C.Limits, s: State)
    requires ForwardClock(w) && Kept(w, start, s)
    ensures Kept(w, start, Turn(w, req, s).0)
  {
    hide Select, RunSegment, AllWarm, Passed, C.InTimeOrder, C.NotAfter, NotBefore, OpsOf, C.IsCooling, C.ApplyAll,
         LiveIds;
    var s0 := s.(iters := s.iters + 1);
    SelectMeaning(w, req, s0);
    var (s1, c) := Select(w, req, s0);
    if c.NoModel? {
      LaterKept(w, start, s, s1);
    } else {
      var g := SegmentOf(w, req, s1, c.model, c.keyId, c.at);
      SegmentLimits(w, req, s1, c.model, c.keyId, c.at);
      var s2 := RunSegment(w, req, s1, c.model, c.keyId, c.at).0;
      OpsNext(s.log, g);
      WarmNext(start, s.log, g);
      TimesNext(Ops(s.log), g, w.clock(0), w.clock(s.tick));
      LimitsNext(s.limits, g);
      C.ApplyAppends(start, Ops(s.log), OpsOf(g));
      NotAfterLater(Ops(s2.log), w.clock(s1.tick), w.clock(s2.tick));
    }
  }

  lemma {:induction false} NotAfterLater(ops: seq<C.Op>, time: real, later: real)
    requires C.NotAfter(ops, time) && time <= later
    ensures C.NotAfter(ops, later)
  {
  }

  lemma {:induction false} LaterKept(w: World, start: C.Limits, s: State, s': State)
    requires ForwardClock(w) && Kept(w, start, s)
    requires s'.limits == s.limits && s'.log == s.log && s.tick <= s'.tick
    ensures Kept(w, start, s')
  {
    hide AllWarm, Ops, C.ApplyAll, C.InTimeOrder, NotBefore;
    NotAfterLater(Ops(s.log), w.clock(s.tick), w.clock(s'.tick));
  }

  lemma {:induction false} LoopKept(w: World, req: Request, start: C.Limits, deadline: real, s: State)
    requires ForwardClock(w) && Kept(w, start, s)
    ensures Kept(w, start, Loop(w, req, deadline, s))
    decreases MAX_ITERS - s.iters
  {
    hide Select, RunSegment, Kept, ForwardClock;
    if s.iters < MAX_ITERS {
      var s1 := s.(tick := s.tick + 1);
      LaterKept(w, start, s, s1);
      if w.clock(s.tick) < deadline {
        TurnKept(w, req, start, s1);
        var (s2, more) := Turn(w, req, s1);
        SelectCountsNothing(w, req, s1.(iters := s1.iters + 1));
        TurnCounts(w, req, s1);
        if more { LoopKept(w, req, start, deadline, s2); }
      }
    }
  }

  lemma {:induction false} TurnCounts(w: World, req: Request, s: State)
    ensures Turn(w, req, s).0.iters == s.iters + 1
  {
    hide Select;
    SelectCountsNothing(w, req, s.(iters := s.iters + 1));
  }

  lemma {:induction false} StartIsKept(w: World, limits: C.Limits)
    ensures Kept(w, limits, Start(limits))
  {
  }

  // ----- Main results -----

  /** The cooldowns after a run are those at its start with the operations its calls tell, and no call was
      made on a key that was cooling by them. */
  lemma {:induction false} RunIsToldByItsCalls(w: World, req: Request, limits: C.Limits)
    requires ForwardClock(w)
    ensures Kept(w, limits, Run(w, req, limits))
  {
    hide Loop, Kept, ForwardClock;
    StartIsKept(w, limits);
    LoopKept(w, req, limits, w.clock(0) + BUDGET_S, Start(limits));
  }

  lemma {:induction false} LiveIdsMeaning(rows: seq<H.KeyRow>, platform: string)
    ensures forall id :: id in LiveIds(rows, platform) <==> HasLive(rows, id, platform)
  {
    if rows != [] {
      var front, last := rows[..|rows| - 1], rows[|rows| - 1];
      LiveIdsMeaning(front, platform);
      forall id | id in LiveIds(front, platform) ensures HasLive(rows, id, platform) {
        var i :| 0 <= i < |front| && IsLive(front[i], id, platform);
        assert rows[i] == front[i];
      }
    }
  }

  function LiveFor(platform: string): H.KeyRow -> bool {
    (r: H.KeyRow) => r.platform == platform && r.enabled && r.status != H.Error
  }

  /** The query returns the keys that are enabled and not marked dead, in the order of the table. */
  lemma {:induction false} LiveKeysInOrder(rows: seq<H.KeyRow>, platform: string) returns (places: seq<nat>)
    ensures Picks(rows, LiveFor(platform), places) && |LiveIds(rows, platform)| == |places|
    ensures forall k :: 0 <= k < |places| ==>
              places[k] < |rows| && LiveIds(rows, platform)[k] == rows[places[k]].id
  {
    hide Picks;
    places := [];
    PicksNone(LiveFor(platform));
    if rows != [] {
      var front, last := rows[..|rows| - 1], rows[|rows| - 1];
      places := LiveKeysInOrder(front, platform);
      PicksNext(front, last, LiveFor(platform), places);
      assert front + [last] == rows;
      if LiveFor(platform)(last) {
        places := places + [|front|];
      }
    }
  }

  predicate HasLive(rows: seq<H.KeyRow>, id: nat, platform: string) {
    exists i :: 0 <= i < |rows| && IsLive(rows[i], id, platform)
  }

  predicate IsLive(r: H.KeyRow, id: nat, platform: string) {
    r.id == id && r.platform == platform && r.enabled && r.status != H.Error
  }

  /** Every call uses a key that the query made just before it, for that model, returned enabled and not
      marked dead, however old a mark is; and by the cooldowns at the start and the calls of the run before
      it, the key was not cooling when it was chosen. */
  lemma {:induction false} CallsUseReadyKeys(w: World, req: Request, limits: C.Limits, k: nat)
    requires ForwardClock(w) && k < |Run(w, req, limits).log|
    ensures var s := Run(w, req, limits);
            var g := s.log[k];
            && 0 < g.queries <= |s.asked| && s.asked[g.queries - 1] == g.idx
            && HasLive(w.keys(g.queries - 1), g.keyId, g.model.platform)
            && !C.IsCooling(C.ApplyAll(limits, Ops(s.log[..k])), Triple(g.model, g.keyId), g.at)
  {
    hide Run, LiveIds, HasLive, C.IsCooling, C.ApplyAll, Ops;
    EveryRelayIsGood(w, req, limits);
    RunIsToldByItsCalls(w, req, limits);
    var s := Run(w, req, limits);
    assert CallIsRight(w, req, s.asked, s.log, k) && WarmCall(limits, s.log, k);
    LiveIdsMeaning(w.keys(s.log[k].queries - 1), s.log[k].model.platform);
  }

  /** The router takes a key that the relay leaves out if and only if the key is enabled and marked dead, and
      the mark has no time or is more than 30 minutes old. */
  lemma {:induction false} ReadmissionDiffersIff(r: H.KeyRow, now: real)
    ensures r.id in Router.UsableIds([r], r.platform, now) && r.id !in LiveIds([r], r.platform)
       <==> r.enabled && r.status == H.Error && (r.lastChecked.Unchecked? || r.lastChecked.at < now - 1800.0)
  {
    assert [r][..0] == [] && [r][1..] == [];
  }
}
