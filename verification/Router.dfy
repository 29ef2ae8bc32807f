/** The fallback router: attempts x models x keys, with four growing skip structures, a deadline, and
    cooldowns and key health that outlive the request. Provider replies, clock readings and failed
    database writes are arbitrary; both front ends (`route_chat` and `route_stream_chat`) are covered. */
module Router {
  import opened Text
  import C = Cooldowns
  import H = KeyHealth

  /** Whether the answer is awaited whole or only its first chunk. */
  datatype Mode = Chat | Stream

  /** `name` is the display name in lower case. */
  datatype Model = Model(id: int, platform: string, modelId: string, name: string)

  /** A provider's reply: some text, an end without text, or an error with this (lowered) message. */
  datatype Reply = Text(content: string) | Silent | Raises(msg: string)

  /** The n-th clock reading, the n-th provider reply, and whether its health record could be saved. */
  datatype World = World(clock: nat -> real, reply: nat -> Reply, saved: nat -> bool)

  datatype Request = Request(mode: Mode, models: seq<Model>, registered: set<string>, maxRetries: int, deep: bool)

  datatype CallResult =
    | Answered(saved: bool, healthAt: real)
    | Empty
    | Failed(msg: string, found: H.Finding, healthAt: real, coolAt: real)

  /** What the router did with a key, and when it looked at its cooldown. */
  datatype Event = Called(id: C.Triple, at: real, result: CallResult) | Skipped(id: C.Triple, at: real)

  datatype State = State(
    limits: C.Limits, rows: seq<H.KeyRow>, tick: nat, calls: nat, trace: seq<Event>,
    skipKeys: set<C.Triple>, skipModels: set<int>, skipPlatforms: set<string>, quota: map<string, nat>)

  datatype Verdict = NextKey | LeaveModel | Done(content: string)

  datatype Walk = GoOn | OutOfTime | Answer(content: string, model: Model)

  datatype Outcome = Routed(content: string, model: Model, attempts: nat) | Exhausted | Unavailable

  const OVERALL_BUDGET_S: real := 20.0
  const PLATFORM_429_LIMIT: nat := 3

  // ----- One key -----

  function IdOf(m: Model, keyId: nat): C.Triple {
    C.Triple(m.platform, m.modelId, keyId)
  }

  /** A blank completion counts as an error whose message names the model; a stream only has to start. */
  function Interpret(mode: Mode, m: Model, reply: Reply): Reply {
    match reply
    case Raises(_) => reply
    case Text(c) =>
      if mode.Chat? && Blank(c) then Raises("empty response from " + m.name)
      else if c == "" then Silent
      else reply
    case Silent => if mode.Chat? then Raises("empty response from " + m.name) else Silent
  }

  function Platforms(models: seq<Model>): set<string> {
    set m | m in models :: m.platform
  }

  function QuotaOf(s: State, platform: string): nat {
    if platform in s.quota then s.quota[platform] else 0
  }

  function Succeed(w: World, s: State, id: C.Triple, at: real): State {
    var healthAt, saved := w.clock(s.tick), w.saved(s.calls);
    s.(limits := C.AfterSuccess(s.limits, id), rows := H.AfterSuccess(s.rows, id.keyId, saved, healthAt),
       tick := s.tick + 1, trace := s.trace + [Called(id, at, Answered(saved, healthAt))])
  }

  function Note(w: World, s: State, id: C.Triple, at: real, msg: string): (State, H.Finding) {
    var healthAt, saved := w.clock(s.tick), w.saved(s.calls);
    var found := H.ReportedFailure(s.rows, id.keyId, msg, saved);
    (s.(rows := H.AfterFailure(s.rows, id.keyId, msg, saved, healthAt), tick := s.tick + 2,
        skipKeys := s.skipKeys + {id},
        trace := s.trace + [Called(id, at, Failed(msg, found, healthAt, w.clock(s.tick + 1)))]),
     found)
  }

  /** The quota rule: count, and drop the platform once it has failed often enough and is not the last. */
  function CountQuota(req: Request, s: State, m: Model): State {
    var n := QuotaOf(s, m.platform) + 1;
    var others := Platforms(req.models) - s.skipPlatforms - {m.platform};
    s.(quota := s.quota[m.platform := n],
       skipPlatforms := if n >= PLATFORM_429_LIMIT && others != {} then s.skipPlatforms + {m.platform}
                        else s.skipPlatforms)
  }

  function DropModel(s: State, m: Model): State {
    s.(skipModels := s.skipModels + {m.id})
  }

  function Fail(w: World, req: Request, m: Model, s0: State, id: C.Triple, at: real, msg: string): (State, Verdict) {
    var (s, found) := Note(w, s0, id, at, msg);
    if found == H.DeadKey then
      (DropModel(s.(skipPlatforms := s.skipPlatforms + {m.platform}), m), LeaveModel)
    else if H.IsRetryable(msg) then
      var cooled := s.(limits := C.AfterFailure(s.limits, id, w.clock(s0.tick + 1)));
      if H.IsQuota(msg) then (DropModel(CountQuota(req, cooled, m), m), LeaveModel)
      else if H.IsNotFound(msg) then (DropModel(cooled, m), LeaveModel)
      else (cooled, NextKey)
    else (DropModel(s, m), LeaveModel)
  }

  function TryKey(w: World, req: Request, m: Model, keyId: nat, s: State): (State, Verdict) {
    var id := IdOf(m, keyId);
    if id in s.skipKeys then (s, NextKey)
    else
      var now := w.clock(s.tick);
      if C.IsCooling(s.limits, id, now) then
        (s.(tick := s.tick + 1, trace := s.trace + [Skipped(id, now)]), NextKey)
      else
        var asked := s.(limits := C.AfterAsking(s.limits, id, now), tick := s.tick + 1, calls := s.calls + 1);
        match Interpret(req.mode, m, w.reply(s.calls))
        case Text(c) => (Succeed(w, asked, id, now), Done(c))
        case Silent =>
          (asked.(skipKeys := asked.skipKeys + {id}, trace := asked.trace + [Called(id, now, Empty)]), NextKey)
        case Raises(msg) => Fail(w, req, m, asked, id, now, msg)
  }

  // ----- The loops -----

  function TryKeys(w: World, req: Request, m: Model, ids: seq<nat>, s: State): (State, Verdict) {
    if ids == [] then (s, NextKey)
    else
      var (s', v) := TryKey(w, req, m, ids[0], s);
      if v.NextKey? then TryKeys(w, req, m, ids[1..], s') else (s', v)
  }

  /** The ids of the rows the key query returns. */
  function UsableIds(rows: seq<H.KeyRow>, platform: string, now: real): seq<nat> {
    if rows == [] then []
    else
      var rest := UsableIds(rows[1..], platform, now);
      if rows[0].platform == platform && rows[0].enabled && H.Usable(rows[0], now) then [rows[0].id] + rest else rest
  }

  predicate Passed(req: Request, m: Model, s: State) {
    m.id in s.skipModels || m.platform in s.skipPlatforms || m.platform !in req.registered
  }

  function TryModels(w: World, req: Request, deadline: real, models: seq<Model>, s: State): (State, Walk) {
    if models == [] then (s, GoOn)
    else
      var m, s1 := models[0], s.(tick := s.tick + 1);
      if w.clock(s.tick) > deadline then (s1, OutOfTime)
      else if Passed(req, m, s1) then TryModels(w, req, deadline, models[1..], s1)
      else
        var ids := UsableIds(s1.rows, m.platform, w.clock(s1.tick));
        var (s2, v) := TryKeys(w, req, m, ids, s1.(tick := s1.tick + 1));
        if v.Done? then (s2, Answer(v.content, m)) else TryModels(w, req, deadline, models[1..], s2)
  }

  function TryAttempts(w: World, req: Request, deadline: real, attempt: nat, s: State): (State, Outcome)
    decreases req.maxRetries - attempt
  {
    if attempt >= req.maxRetries then (s, Exhausted)
    else
      var (s', r) := TryModels(w, req, deadline, req.models, s);
      if r.Answer? then (s', Routed(r.content, r.model, attempt)) else TryAttempts(w, req, deadline, attempt + 1, s')
  }

  function Fresh(s: State): State {
    s.(skipKeys := {}, skipModels := {}, skipPlatforms := {}, quota := map[])
  }

  /** One request, on the state earlier requests left. */
  function Route(w: World, req: Request, s: State): (State, Outcome) {
    if req.deep && req.models == [] then (Fresh(s), Unavailable)
    else
      var s1 := Fresh(s).(tick := s.tick + 1);
      TryAttempts(w, req, w.clock(s.tick) + OVERALL_BUDGET_S, 0, s1)
  }

  // ----- The loops, with the cooldown dictionaries and the key table updated in place -----

  class RequestRun {
    const w: World
    const req: Request
    const limits: C.RateLimits
    const table: H.KeyTable
    var tick: nat
    var calls: nat
    ghost var trace: seq<Event>
    var skipKeys: set<C.Triple>
    var skipModels: set<int>
    var skipPlatforms: set<string>
    var quota: map<string, nat>

    ghost function Now(): State
      reads this, limits, table
    {
      State(limits.State(), table.rows, tick, calls, trace, skipKeys, skipModels, skipPlatforms, quota)
    }

    constructor (w: World, req: Request, limits: C.RateLimits, table: H.KeyTable, tick: nat, calls: nat,
                 ghost trace: seq<Event>)
      ensures this.w == w && this.req == req && this.limits == limits && this.table == table
      ensures Now() == State(limits.State(), table.rows, tick, calls, trace, {}, {}, {}, map[])
    {
      this.w, this.req, this.limits, this.table := w, req, limits, table;
      this.tick, this.calls, this.trace := tick, calls, trace;
      skipKeys, skipModels, skipPlatforms, quota := {}, {}, {}, map[];
    }

    method ReadClock() returns (now: real)
      modifies this`tick
      ensures now == w.clock(old(tick)) && tick == old(tick) + 1
    {
      now := w.clock(tick);
      tick := tick + 1;
    }

    method OneKey(m: Model, keyId: nat) returns (v: Verdict)
      modifies this, limits, table
      ensures (Now(), v) == TryKey(w, req, m, keyId, old(Now()))
    {
      var id := IdOf(m, keyId);
      if id in skipKeys { return NextKey; }
      var now := ReadClock();
      var cooling := limits.IsOnCooldown(id, now);
      if cooling {
        trace := trace + [Skipped(id, now)];
        return NextKey;
      }
      var reply := Interpret(req.mode, m, w.reply(calls));
      calls := calls + 1;
      match reply
      case Text(c) =>
        limits.RecordSuccess(id);
        var saved := w.saved(calls);
        var healthAt := ReadClock();
        table.RecordSuccess(keyId, saved, healthAt);
        trace := trace + [Called(id, now, Answered(saved, healthAt))];
        v := Done(c);
      case Silent =>
        skipKeys := skipKeys + {id};
        trace := trace + [Called(id, now, Empty)];
        v := NextKey;
      case Raises(msg) =>
        v := OneFailure(m, id, now, msg);
    }

    /** The `except` branch. */
    method OneFailure(m: Model, id: C.Triple, at: real, msg: string) returns (v: Verdict)
      modifies this, limits, table
      ensures (Now(), v) == Fail(w, req, m, old(Now()), id, at, msg)
    {
      hide H.AfterFailure, C.AfterFailure, H.ReportedFailure, H.IsQuota, H.IsRetryable, H.IsNotFound, CountQuota;
      skipKeys := skipKeys + {id};
      var healthAt := ReadClock();
      var found := table.RecordFailure(id.keyId, msg, w.saved(calls), healthAt);
      var coolAt := ReadClock();
      trace := trace + [Called(id, at, Failed(msg, found, healthAt, coolAt))];
      if found == H.DeadKey {
        skipPlatforms := skipPlatforms + {m.platform};
        skipModels := skipModels + {m.id};
        return LeaveModel;
      }
      if H.IsRetryable(msg) {
        limits.SetCooldown(id, coolAt);
        if H.IsQuota(msg) {
          QuotaFailure(m);
          skipModels := skipModels + {m.id};
          return LeaveModel;
        }
        if H.IsNotFound(msg) {
          skipModels := skipModels + {m.id};
          return LeaveModel;
        }
        return NextKey;
      }
      skipModels := skipModels + {m.id};
      v := LeaveModel;
    }

    method QuotaFailure(m: Model)
      modifies this`quota, this`skipPlatforms
      ensures Now() == CountQuota(req, old(Now()), m)
    {
      var n := (if m.platform in quota then quota[m.platform] else 0) + 1;
      quota := quota[m.platform := n];
      var others := Platforms(req.models) - skipPlatforms - {m.platform};
      if n >= PLATFORM_429_LIMIT && others != {} {
        skipPlatforms := skipPlatforms + {m.platform};
      }
    }

    method KeyLoop(m: Model, ids: seq<nat>) returns (v: Verdict)
      modifies this, limits, table
      ensures (Now(), v) == TryKeys(w, req, m, ids, old(Now()))
    {
      hide TryKey;
      ghost var all := TryKeys(w, req, m, ids, Now());
      var rest := ids;
      while rest != []
        invariant TryKeys(w, req, m, rest, Now()) == all
        decreases |rest|
      {
        v := OneKey(m, rest[0]);
        if !v.NextKey? { return; }
        rest := rest[1..];
      }
      v := NextKey;
    }

    method ModelLoop(deadline: real) returns (r: Walk)
      modifies this, limits, table
      ensures (Now(), r) == TryModels(w, req, deadline, req.models, old(Now()))
    {
      hide TryKeys, UsableIds;
      ghost var all := TryModels(w, req, deadline, req.models, Now());
      var rest := req.models;
      while rest != []
        invariant TryModels(w, req, deadline, rest, Now()) == all
        decreases |rest|
      {
        var m := rest[0];
        var time := ReadClock();
        if time > deadline { return OutOfTime; }
        if m.id !in skipModels && m.platform !in skipPlatforms && m.platform in req.registered {
          var queried := ReadClock();
          var ids := UsableIds(table.rows, m.platform, queried);
          var v := KeyLoop(m, ids);
          if v.Done? { return Answer(v.content, m); }
        }
        rest := rest[1..];
      }
      r := GoOn;
    }

    method RouteRequest() returns (out: Outcome)
      requires Now() == Fresh(Now())
      modifies this, limits, table
      ensures (Now(), out) == Route(w, req, old(Now()))
    {
      if req.deep && req.models == [] { return Unavailable; }
      hide TryModels;
      var start := ReadClock();
      var deadline := start + OVERALL_BUDGET_S;
      ghost var all := TryAttempts(w, req, deadline, 0, Now());
      var attempt := 0;
      while attempt < req.maxRetries
        invariant TryAttempts(w, req, deadline, attempt, Now()) == all
        decreases req.maxRetries - attempt
      {
        var r := ModelLoop(deadline);
        if r.Answer? { return Routed(r.content, r.model, attempt); }
        attempt := attempt + 1;
      }
      out := Exhausted;
    }
  }
}
