/** What every single request guarantees, whatever providers answer: each candidate is called at most
    once, a platform is dropped only for cause, and no dropped platform is called again. */
module RouterRequest {
  import opened Router
  import C = Cooldowns
  import H = KeyHealth

  // ----- Reading the trace -----

  predicate IsFatal(e: Event) {
    e.Called? && e.result.Failed? && e.result.found == H.DeadKey
  }

  /** A failure that set a cooldown. */
  predicate Cools(e: Event) {
    e.Called? && e.result.Failed? && e.result.found != H.DeadKey && H.IsRetryable(e.result.msg)
  }

  /** A failure the quota rule counts. */
  predicate IsQuotaHit(e: Event) {
    Cools(e) && H.IsQuota(e.result.msg)
  }

  /** From here on `trace` is the part of the trace that one request has written so far. */
  predicate FatalIn(trace: seq<Event>, platform: string) {
    exists i :: 0 <= i < |trace| && IsFatal(trace[i]) && trace[i].id.platform == platform
  }

  function QuotaHits(trace: seq<Event>, platform: string): nat {
    if trace == [] then 0
    else
      var n, last := QuotaHits(trace[..|trace| - 1], platform), trace[|trace| - 1];
      if IsQuotaHit(last) && last.id.platform == platform then n + 1 else n
  }

  predicate WasCalled(trace: seq<Event>, id: C.Triple) {
    exists i :: 0 <= i < |trace| && trace[i].Called? && trace[i].id == id
  }

  // ----- The effect of one key -----

  predicate SameSkips(s: State, s': State) {
    s'.skipKeys == s.skipKeys && s'.skipModels == s.skipModels && s'.skipPlatforms == s.skipPlatforms
    && s'.quota == s.quota
  }

  /** How a call that did not answer changes the skip structures. */
  ghost predicate FailureEffect(req: Request, m: Model, e: Event, s: State, s': State, v: Verdict) {
    && s'.skipKeys == s.skipKeys + {e.id} && !v.Done?
    && s'.skipModels == (if v.LeaveModel? then s.skipModels + {m.id} else s.skipModels)
    && (IsFatal(e) ==> v.LeaveModel? && s'.quota == s.quota && s'.skipPlatforms == s.skipPlatforms + {m.platform})
    && (IsQuotaHit(e) ==> v.LeaveModel? && s'.quota == CountQuota(req, s, m).quota
                          && s'.skipPlatforms == CountQuota(req, s, m).skipPlatforms)
    && (!IsFatal(e) && !IsQuotaHit(e) ==> s'.quota == s.quota && s'.skipPlatforms == s.skipPlatforms)
  }

  ghost predicate Effect(req: Request, m: Model, keyId: nat, s: State, s': State, v: Verdict) {
    var id := IdOf(m, keyId);
    if s'.trace == s.trace then v.NextKey? && id in s.skipKeys && SameSkips(s, s')
    else
      && |s'.trace| == |s.trace| + 1
      && var e := s'.trace[|s.trace|];
      && s'.trace == s.trace + [e] && e.id == id
      && if e.Skipped? then v.NextKey? && SameSkips(s, s')
         else
           && id !in s.skipKeys
           && if e.result.Answered? then v.Done? && SameSkips(s, s') else FailureEffect(req, m, e, s, s', v)
  }

  lemma {:induction false} FailEffect(w: World, req: Request, m: Model, s: State, keyId: nat, at: real, msg: string)
    ensures var (s', v) := Fail(w, req, m, s, IdOf(m, keyId), at, msg);
            && |s'.trace| == |s.trace| + 1
            && var e := s'.trace[|s.trace|];
            && s'.trace == s.trace + [e] && e.id == IdOf(m, keyId) && e.Called? && e.result.Failed?
            && FailureEffect(req, m, e, s, s', v)
  {
    hide H.ReportedFailure, H.AfterFailure, H.IsRetryable, H.IsQuota, H.IsNotFound, C.AfterFailure;
  }

  lemma {:induction false} KeyEffect(w: World, req: Request, m: Model, keyId: nat, s: State)
    ensures Effect(req, m, keyId, s, TryKey(w, req, m, keyId, s).0, TryKey(w, req, m, keyId, s).1)
  {
    hide Fail, C.IsCooling, C.AfterAsking, C.AfterSuccess, H.AfterSuccess, Interpret;
    var id := IdOf(m, keyId);
    var now := w.clock(s.tick);
    if id !in s.skipKeys && !C.IsCooling(s.limits, id, now) {
      var asked := s.(limits := C.AfterAsking(s.limits, id, now), tick := s.tick + 1, calls := s.calls + 1);
      match Interpret(req.mode, m, w.reply(s.calls))
      case Text(_) =>
      case Silent =>
      case Raises(msg) =>
        FailEffect(w, req, m, asked, keyId, now, msg);
    }
  }

  /** The quota rule touches nothing but its own count and the skipped platforms. */
  lemma {:induction false} CountingIsPrivate(req: Request, m: Model)
    ensures forall s :: var s' := CountQuota(req, s, m);
              s'.limits == s.limits && s'.rows == s.rows && s'.trace == s.trace && s'.tick == s.tick
              && s'.calls == s.calls && s'.skipModels == s.skipModels
  {
  }

  // ----- The invariant of a request -----

  /** No two calls go to the same (platform, model, key). */
  ghost predicate Once(trace: seq<Event>) {
    forall i, j :: 0 <= i < j < |trace| && trace[i].Called? && trace[j].Called? ==> trace[i].id != trace[j].id
  }

  ghost predicate KeysMatch(trace: seq<Event>, skipKeys: set<C.Triple>) {
    forall id :: id in skipKeys <==> WasCalled(trace, id)
  }

  ghost predicate CountsMatch(trace: seq<Event>, s: State) {
    forall p :: QuotaOf(s, p) == QuotaHits(trace, p)
  }

  /** A platform is skipped only after a dead key or at least three quota failures of its own. */
  ghost predicate SkippedForCause(req: Request, trace: seq<Event>, skipPlatforms: set<string>) {
    forall p :: p in skipPlatforms ==>
      p in Platforms(req.models) && (FatalIn(trace, p) || QuotaHits(trace, p) >= 3)
  }

  /** Listed platform `q` has given no cause to be skipped. */
  ghost predicate NoCause(req: Request, trace: seq<Event>, q: string) {
    q in Platforms(req.models) && !FatalIn(trace, q) && QuotaHits(trace, q) < 3
  }

  /** Event `i` is a dead key, or at least the third quota failure of its platform while another listed
      platform had given no cause. */
  ghost predicate Drops(req: Request, trace: seq<Event>, i: nat)
    requires i < |trace|
  {
    var p := trace[i].id.platform;
    || IsFatal(trace[i])
    || (IsQuotaHit(trace[i]) && QuotaHits(trace[..i + 1], p) >= 3
        && AnotherInPlay(req, trace[..i + 1], p))
  }

  ghost predicate AnotherInPlay(req: Request, trace: seq<Event>, p: string) {
    exists q :: q != p && NoCause(req, trace, q)
  }

  ghost predicate DropsAreSkipped(req: Request, trace: seq<Event>, skipPlatforms: set<string>) {
    forall i :: 0 <= i < |trace| && Drops(req, trace, i) ==> trace[i].id.platform in skipPlatforms
  }

  /** No call goes to a platform after an event that drops it. */
  ghost predicate DropsAreFinal(req: Request, trace: seq<Event>) {
    forall i, j :: 0 <= i < j < |trace| && Drops(req, trace, i) && trace[j].Called? ==>
      trace[i].id.platform != trace[j].id.platform
  }

  /** Without a dead key some listed platform stays in play. */
  ghost predicate OneLeft(req: Request, trace: seq<Event>, skipPlatforms: set<string>) {
    (exists p :: p in Platforms(req.models) && p !in skipPlatforms) || (exists p :: FatalIn(trace, p))
  }

  ghost predicate Always(req: Request, trace: seq<Event>, s: State) {
    && Once(trace) && DropsAreFinal(req, trace)
    && CountsMatch(trace, s) && SkippedForCause(req, trace, s.skipPlatforms)
    && DropsAreSkipped(req, trace, s.skipPlatforms)
    && (req.models != [] ==> OneLeft(req, trace, s.skipPlatforms))
  }

  ghost predicate Running(req: Request, trace: seq<Event>, s: State) {
    Always(req, trace, s) && KeysMatch(trace, s.skipKeys)
  }

  /** The model may be called: it is listed, and neither it nor its platform is skipped. */
  ghost predicate Admitted(req: Request, m: Model, s: State) {
    m in req.models && m.id !in s.skipModels && m.platform !in s.skipPlatforms
  }

  // ----- One event more -----

  lemma {:induction false} WasCalledNext(trace: seq<Event>, e: Event, id: C.Triple)
    ensures WasCalled(trace + [e], id) <==> WasCalled(trace, id) || (e.Called? && e.id == id)
  {
    var more := trace + [e];
    assert more[|trace|] == e;
    if i :| 0 <= i < |trace| && trace[i].Called? && trace[i].id == id {
      assert more[i] == trace[i];
    }
  }

  lemma {:induction false} FatalInNext(trace: seq<Event>, e: Event, p: string)
    ensures FatalIn(trace + [e], p) <==> FatalIn(trace, p) || (IsFatal(e) && e.id.platform == p)
  {
    var more := trace + [e];
    assert more[|trace|] == e;
    if i :| 0 <= i < |trace| && IsFatal(trace[i]) && trace[i].id.platform == p {
      assert more[i] == trace[i];
    }
  }

  lemma {:induction false} DropsNext(req: Request, trace: seq<Event>, e: Event, i: nat)
    requires i < |trace|
    ensures Drops(req, trace + [e], i) <==> Drops(req, trace, i)
  {
    assert (trace + [e])[..i + 1] == trace[..i + 1];
    assert (trace + [e])[i] == trace[i];
  }

  lemma {:induction false} KeysMatchNext(trace: seq<Event>, e: Event, skipKeys: set<C.Triple>)
    requires KeysMatch(trace, skipKeys)
    ensures KeysMatch(trace + [e], if e.Called? then skipKeys + {e.id} else skipKeys)
  {
    forall id ensures id in (if e.Called? then skipKeys + {e.id} else skipKeys) <==> WasCalled(trace + [e], id) {
      WasCalledNext(trace, e, id);
    }
  }

  /** A call to a platform that is not skipped keeps drops final. */
  lemma {:induction false} DropsFinalNext(req: Request, trace: seq<Event>, e: Event, skipPlatforms: set<string>)
    requires DropsAreFinal(req, trace) && DropsAreSkipped(req, trace, skipPlatforms)
    requires e.Called? ==> e.id.platform !in skipPlatforms
    ensures DropsAreFinal(req, trace + [e])
  {
    hide Drops;
    var more := trace + [e];
    forall i, j | 0 <= i < j < |more| && Drops(req, more, i) && more[j].Called?
      ensures more[i].id.platform != more[j].id.platform
    {
      DropsNext(req, trace, e, i);
      assert more[i] == trace[i];
      if j < |trace| {
        assert more[j] == trace[j];
      }
    }
  }

  lemma {:induction false} DropsSkippedNext(req: Request, trace: seq<Event>, e: Event, was: set<string>,
                                            now: set<string>)
    requires DropsAreSkipped(req, trace, was) && was <= now
    requires Drops(req, trace + [e], |trace|) ==> e.id.platform in now
    ensures DropsAreSkipped(req, trace + [e], now)
  {
    hide Drops;
    var more := trace + [e];
    forall i | 0 <= i < |more| && Drops(req, more, i) ensures more[i].id.platform in now {
      if i < |trace| {
        DropsNext(req, trace, e, i);
        assert more[i] == trace[i];
      }
    }
  }

  lemma {:induction false} OneLeftStays(req: Request, trace: seq<Event>, e: Event, was: set<string>)
    requires OneLeft(req, trace, was)
    ensures OneLeft(req, trace + [e], was)
  {
    if p :| FatalIn(trace, p) {
      FatalInNext(trace, e, p);
    }
  }

  lemma {:induction false} CountsNext(trace: seq<Event>, e: Event, s: State, s': State)
    requires CountsMatch(trace, s)
    requires forall p :: QuotaOf(s', p) == QuotaOf(s, p) + if IsQuotaHit(e) && e.id.platform == p then 1 else 0
    ensures CountsMatch(trace + [e], s')
  {
    hide QuotaOf;
    assert forall p :: QuotaOf(s', p) == QuotaHits(trace + [e], p);
  }

  // ----- One event keeps the invariant -----

  /** An event that changes neither the platforms nor the counts: a cooling key, an answer, an empty
      stream, or an ordinary failure. */
  lemma {:induction false} PlainEvent(req: Request, trace: seq<Event>, e: Event, s: State, s': State)
    requires Always(req, trace, s) && !IsFatal(e) && !IsQuotaHit(e)
    requires s'.skipPlatforms == s.skipPlatforms && s'.quota == s.quota
    requires e.Called? ==> e.id.platform !in s.skipPlatforms && !WasCalled(trace, e.id)
    ensures Always(req, trace + [e], s')
  {
    DropsFinalNext(req, trace, e, s.skipPlatforms);
    DropsSkippedNext(req, trace, e, s.skipPlatforms, s'.skipPlatforms);
    CountsNext(trace, e, s, s');
    hide DropsAreSkipped, DropsAreFinal, Once, CountsMatch, SkippedForCause, OneLeft;
    if req.models != [] {
      OneLeftStays(req, trace, e, s.skipPlatforms);
    }
  }

  lemma {:induction false} FatalEvent(req: Request, trace: seq<Event>, e: Event, s: State, s': State)
    requires Always(req, trace, s) && IsFatal(e) && e.id.platform in Platforms(req.models)
    requires s'.skipPlatforms == s.skipPlatforms + {e.id.platform} && s'.quota == s.quota
    requires e.id.platform !in s.skipPlatforms && !WasCalled(trace, e.id)
    ensures Always(req, trace + [e], s')
  {
    DropsFinalNext(req, trace, e, s.skipPlatforms);
    assert (trace + [e])[|trace|] == e;
    DropsSkippedNext(req, trace, e, s.skipPlatforms, s'.skipPlatforms);
    FatalInNext(trace, e, e.id.platform);
    CountsNext(trace, e, s, s');
    hide DropsAreSkipped, DropsAreFinal, Once, CountsMatch, FatalIn;
  }

  lemma {:induction false} QuotaEvent(req: Request, trace: seq<Event>, e: Event, m: Model, s: State, s': State)
    requires Always(req, trace, s) && IsQuotaHit(e) && e.id.platform == m.platform && m in req.models
    requires s'.skipPlatforms == CountQuota(req, s, m).skipPlatforms && s'.quota == CountQuota(req, s, m).quota
    requires m.platform !in s.skipPlatforms && !WasCalled(trace, e.id)
    ensures Always(req, trace + [e], s')
  {
    DropsFinalNext(req, trace, e, s.skipPlatforms);
    QuotaDropIsSkipped(req, trace, e, m, s, s');
    DropsSkippedNext(req, trace, e, s.skipPlatforms, s'.skipPlatforms);
    CountsNext(trace, e, s, s');
    hide DropsAreSkipped, DropsAreFinal, Once, CountsMatch, SkippedForCause;
  }

  lemma {:induction false} QuotaDropIsSkipped(req: Request, trace: seq<Event>, e: Event, m: Model, s: State, s': State)
    requires CountsMatch(trace, s) && SkippedForCause(req, trace, s.skipPlatforms)
    requires IsQuotaHit(e) && e.id.platform == m.platform
    requires s'.skipPlatforms == CountQuota(req, s, m).skipPlatforms
    ensures Drops(req, trace + [e], |trace|) ==> e.id.platform in s'.skipPlatforms
  {
    var more, p := trace + [e], m.platform;
    assert more[|trace|] == e && more[..|trace| + 1] == more;
    if QuotaHits(more, p) >= PLATFORM_429_LIMIT {
      if AnotherInPlay(req, more, p) {
        var q :| q != p && NoCause(req, more, q);
        FatalInNext(trace, e, q);
        assert q !in s.skipPlatforms;
        assert q in Platforms(req.models) - s.skipPlatforms - {p};
      }
    }
  }

  /** One key of an admitted model. */
  lemma {:induction false} KeyKeeps(w: World, req: Request, m: Model, keyId: nat, before: seq<Event>,
                                    trace: seq<Event>, s: State)
    requires Running(req, trace, s) && Admitted(req, m, s) && s.trace == before + trace
    ensures var (s', v) := TryKey(w, req, m, keyId, s);
            && |before| <= |s'.trace| && s'.trace[..|before|] == before
            && Always(req, s'.trace[|before|..], s')
            && (!v.Done? ==> Running(req, s'.trace[|before|..], s'))
            && (v.NextKey? ==> Admitted(req, m, s'))
  {
    KeyEffect(w, req, m, keyId, s);
    var (s', v) := TryKey(w, req, m, keyId, s);
    hide TryKey;
    if s'.trace == s.trace {
      assert s'.trace[|before|..] == trace;
    } else {
      var e := s'.trace[|s.trace|];
      assert s'.trace == before + (trace + [e]);
      assert s'.trace[|before|..] == trace + [e];
      EventKeeps(req, m, keyId, trace, e, s, s', v);
    }
  }

  lemma {:induction false} EventKeeps(req: Request, m: Model, keyId: nat, trace: seq<Event>, e: Event,
                                      s: State, s': State, v: Verdict)
    requires Running(req, trace, s) && Admitted(req, m, s) && e.id == IdOf(m, keyId)
    requires if e.Skipped? then v.NextKey? && SameSkips(s, s')
             else
               && e.id !in s.skipKeys
               && if e.result.Answered? then v.Done? && SameSkips(s, s') else FailureEffect(req, m, e, s, s', v)
    ensures Always(req, trace + [e], s') && (!v.Done? ==> KeysMatch(trace + [e], s'.skipKeys))
    ensures v.NextKey? ==> Admitted(req, m, s')
  {
    hide Always, CountQuota;
    assert e.Called? ==> !WasCalled(trace, e.id);
    KeysMatchNext(trace, e, s.skipKeys);
    if IsFatal(e) {
      FatalEvent(req, trace, e, s, s');
    } else if IsQuotaHit(e) {
      QuotaEvent(req, trace, e, m, s, s');
    } else {
      PlainEvent(req, trace, e, s, s');
    }
  }

  // ----- The loops keep it -----

  lemma {:induction false} KeysKeep(w: World, req: Request, m: Model, ids: seq<nat>, before: seq<Event>, s: State)
    requires |before| <= |s.trace| && s.trace[..|before|] == before
    requires Running(req, s.trace[|before|..], s) && Admitted(req, m, s)
    ensures var (s', v) := TryKeys(w, req, m, ids, s);
            && |before| <= |s'.trace| && s'.trace[..|before|] == before
            && Always(req, s'.trace[|before|..], s')
            && (!v.Done? ==> Running(req, s'.trace[|before|..], s'))
  {
    hide TryKey, Always, KeysMatch, Admitted;
    if ids != [] {
      assert s.trace == before + s.trace[|before|..];
      KeyKeeps(w, req, m, ids[0], before, s.trace[|before|..], s);
      var (s', v) := TryKey(w, req, m, ids[0], s);
      if v.NextKey? {
        KeysKeep(w, req, m, ids[1..], before, s');
      }
    }
  }

  lemma {:induction false} TicksKeep(req: Request, trace: seq<Event>, s: State, s': State)
    requires Running(req, trace, s) && SameSkips(s, s')
    ensures Running(req, trace, s')
  {
  }

  lemma {:induction false} ModelsKeep(w: World, req: Request, deadline: real, models: seq<Model>,
                                      before: seq<Event>, s: State)
    requires forall m :: m in models ==> m in req.models
    requires |before| <= |s.trace| && s.trace[..|before|] == before && Running(req, s.trace[|before|..], s)
    ensures var (s', r) := TryModels(w, req, deadline, models, s);
            && |before| <= |s'.trace| && s'.trace[..|before|] == before
            && Always(req, s'.trace[|before|..], s')
            && (!r.Answer? ==> Running(req, s'.trace[|before|..], s'))
  {
    hide TryKeys, UsableIds;
    if models != [] {
      var m, s1 := models[0], s.(tick := s.tick + 1);
      TicksKeep(req, s.trace[|before|..], s, s1);
      if w.clock(s.tick) <= deadline {
        if Passed(req, m, s1) {
          ModelsKeep(w, req, deadline, models[1..], before, s1);
        } else {
          var ids := UsableIds(s1.rows, m.platform, w.clock(s1.tick));
          var s2 := s1.(tick := s1.tick + 1);
          TicksKeep(req, s.trace[|before|..], s1, s2);
          KeysKeep(w, req, m, ids, before, s2);
          var (s3, v) := TryKeys(w, req, m, ids, s2);
          if !v.Done? {
            ModelsKeep(w, req, deadline, models[1..], before, s3);
          }
        }
      }
    }
  }

  lemma {:induction false} AttemptsKeep(w: World, req: Request, deadline: real, attempt: nat, before: seq<Event>,
                                        s: State)
    requires |before| <= |s.trace| && s.trace[..|before|] == before && Running(req, s.trace[|before|..], s)
    ensures var s' := TryAttempts(w, req, deadline, attempt, s).0;
            && |before| <= |s'.trace| && s'.trace[..|before|] == before
            && Always(req, s'.trace[|before|..], s')
    decreases req.maxRetries - attempt
  {
    hide TryModels;
    if attempt < req.maxRetries {
      ModelsKeep(w, req, deadline, req.models, before, s);
      var (s', r) := TryModels(w, req, deadline, req.models, s);
      if !r.Answer? {
        AttemptsKeep(w, req, deadline, attempt + 1, before, s');
      }
    }
  }

  lemma {:induction false} FreshIsRunning(req: Request, s: State)
    requires s.skipKeys == {} && s.skipPlatforms == {} && s.quota == map[]
    ensures Running(req, [], s)
  {
    if req.models != [] {
      assert req.models[0].platform in Platforms(req.models);
    }
  }

  /** The part of the trace that a request writes. */
  function Written(s: State, s': State): seq<Event>
    requires |s.trace| <= |s'.trace|
  {
    s'.trace[|s.trace|..]
  }

  lemma {:induction false} RequestKeeps(w: World, req: Request, s: State)
    ensures var s' := Route(w, req, s).0;
            && |s.trace| <= |s'.trace| && s'.trace[..|s.trace|] == s.trace
            && Always(req, Written(s, s'), s')
  {
    hide TryAttempts;
    var s0 := Fresh(s);
    assert s.trace[|s.trace|..] == [];
    FreshIsRunning(req, s0);
    var s1 := s0.(tick := s.tick + 1);
    FreshIsRunning(req, s1);
    if !(req.deep && req.models == []) {
      AttemptsKeep(w, req, w.clock(s.tick) + OVERALL_BUDGET_S, 0, s.trace, s1);
    }
  }

  // ----- Main results -----

  /** Each (platform, model, key) is called at most once per request, whatever `max_retries` is. */
  lemma {:induction false} EachCandidateCalledOnce(w: World, req: Request, s: State, i: nat, j: nat)
    requires |s.trace| <= i < j < |Route(w, req, s).0.trace|
    requires Route(w, req, s).0.trace[i].Called? && Route(w, req, s).0.trace[j].Called?
    ensures Route(w, req, s).0.trace[i].id != Route(w, req, s).0.trace[j].id
  {
    hide Route, DropsAreFinal, DropsAreSkipped, SkippedForCause, CountsMatch, OneLeft;
    RequestKeeps(w, req, s);
    var t := Written(s, Route(w, req, s).0);
    assert t[i - |s.trace|] == Route(w, req, s).0.trace[i] && t[j - |s.trace|] == Route(w, req, s).0.trace[j];
  }

  /** A platform is skipped only for a dead key of its own or for at least three quota failures of its
      own in this request, and without any dead key the skipped platforms are a proper subset of the
      listed ones: the quota rule never abandons the last provider. */
  lemma {:induction false} SkippedPlatformsHaveCause(w: World, req: Request, s: State, platform: string)
    requires req.models != []
    ensures var s' := Route(w, req, s).0;
            && |s.trace| <= |s'.trace|
            && var t := Written(s, s');
            && (platform in s'.skipPlatforms ==>
                  platform in Platforms(req.models)
                  && (FatalIn(t, platform) || QuotaHits(t, platform) >= 3))
            && (!(exists p :: FatalIn(t, p)) ==> s'.skipPlatforms < Platforms(req.models))
  {
    hide Route, Once, DropsAreFinal, DropsAreSkipped, CountsMatch, FatalIn;
    RequestKeeps(w, req, s);
  }

  /** No call ever goes to a platform after one of its keys was found dead, or after the third quota
      failure it had while another listed platform had given no cause to be skipped. */
  lemma {:induction false} DroppedPlatformIsNotCalled(w: World, req: Request, s: State, i: nat, j: nat)
    requires |s.trace| <= |Route(w, req, s).0.trace|
    requires i < j < |Written(s, Route(w, req, s).0)|
    requires var t := Written(s, Route(w, req, s).0); Drops(req, t, i) && t[j].Called?
    ensures var t := Written(s, Route(w, req, s).0); t[i].id.platform != t[j].id.platform
  {
    hide Route, Once, Drops, DropsAreSkipped, SkippedForCause, CountsMatch, OneLeft;
    RequestKeeps(w, req, s);
  }
}
