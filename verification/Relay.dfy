/** The Deep Research relay: one answer stitched together from up to twelve calls to large models. Which
    keys exist, what the clock says, and what each provider streams before it ends, raises or stalls
    are arbitrary. */
module Relay {
  import opened Text
  import C = Cooldowns
  import H = KeyHealth

  /** `lowered` is the display name in lower case, as it shows in a stall's message. */
  datatype Model = Model(id: int, platform: string, modelId: string, name: string, lowered: string)

  datatype Message = Message(role: string, content: string)

  /** What a provider streams. A finish without a reason is `Finish("")`; other events are `Ignored`. */
  datatype Part = Piece(text: string) | Finish(reason: string) | Ignored

  /** How a stream stops; a raised message is given in lower case. */
  datatype Ending = Ended | Stalled | Raised(msg: string)

  datatype Script = Script(parts: seq<Part>, ending: Ending)

  /** The n-th clock reading, the key table at the n-th query, and what the n-th call streams. */
  datatype World = World(clock: nat -> real, keys: nat -> seq<H.KeyRow>, script: nat -> Script)

  datatype Request = Request(models: seq<Model>, registered: set<string>, base: seq<Message>)

  datatype Event = Handoff(name: string) | Content(text: string) | Done(used: seq<string>, producedAny: bool)

  /** One call: the model's place, the key and when it was found ready, how many queries of the key table
      had been made (the last of them for this call), what the model was given and streamed, and the time
      when the stream was over. */
  datatype Segment = Segment(
    idx: nat, model: Model, keyId: nat, at: real, queries: nat, prompt: seq<Message>, script: Script, overAt: real)

  /** `asked` lists, for each query of the key table, the place of the model it was made for. */
  datatype State = State(
    idx: nat, iters: nat, accumulated: string, used: seq<string>, skipPlatforms: set<string>, skipIds: set<int>,
    limits: C.Limits, tick: nat, asked: seq<nat>, out: seq<Event>, log: seq<Segment>)

  datatype Choice = NoModel | Chosen(model: Model, keyId: nat, at: real)

  const MAX_ITERS: nat := 12
  const BUDGET_S: real := 240.0
  const CONTEXT_CHARS: nat := 80000

  const RESUME: Message := Message("user",
    "The assistant response above is your work so far but it was cut off. "
    + "Continue the implementation EXACTLY where it stopped. Do NOT repeat, "
    + "re-list, or restate any file or code already produced above; if you were "
    + "in the middle of a file, resume from the exact point (even mid-line). "
    + "Keep the same project structure and file-path headers, and keep going "
    + "until the entire project is fully implemented.")

  const AUTH_WORDS: seq<string> :=
    ["401", "403", "unauthorized", "forbidden", "permission", "invalid api key", "authentication"]

  // ----- One segment -----

  function Prompt(base: seq<Message>, text: string): seq<Message> {
    if text == "" then base
    else
      var tail := if |text| <= CONTEXT_CHARS then text else text[|text| - CONTEXT_CHARS..];
      base + [Message("assistant", tail), RESUME]
  }

  /** The text a stream adds. */
  function Produced(parts: seq<Part>): string {
    if parts == [] then ""
    else
      var last := parts[|parts| - 1];
      Produced(parts[..|parts| - 1]) + if last.Piece? then last.text else ""
  }

  /** The last finish reason. */
  function Reason(parts: seq<Part>): string {
    if parts == [] then ""
    else
      var last := parts[|parts| - 1];
      if last.Finish? then last.reason else Reason(parts[..|parts| - 1])
  }

  function Contents(parts: seq<Part>): seq<Event> {
    if parts == [] then []
    else
      var last := parts[|parts| - 1];
      Contents(parts[..|parts| - 1]) + if last.Piece? && last.text != "" then [Content(last.text)] else []
  }

  function ErrorOf(m: Model, ending: Ending): string
    requires !ending.Ended?
  {
    if ending.Stalled? then m.lowered + " stalled — no output for 30s" else ending.msg
  }

  /** The announcement of a change of model. */
  function Announcement(text: string, used: seq<string>, m: Model): seq<Event> {
    if text != "" && used != [] && m.name != used[|used| - 1] then [Handoff(m.name)] else []
  }

  function Credit(used: seq<string>, name: string): seq<string> {
    if used == [] || used[|used| - 1] != name then used + [name] else used
  }

  function MoveOn(s: State, m: Model): State {
    s.(skipIds := s.skipIds + {m.id}, idx := s.idx + 1)
  }

  function Triple(m: Model, keyId: nat): C.Triple {
    C.Triple(m.platform, m.modelId, keyId)
  }

  function SegmentOf(w: World, req: Request, s: State, m: Model, keyId: nat, at: real): Segment {
    Segment(s.idx, m, keyId, at, |s.asked|, Prompt(req.base, s.accumulated), w.script(|s.log|), w.clock(s.tick))
  }

  /** The stream itself, with the announcement before it. */
  function Streamed(w: World, req: Request, s: State, m: Model, keyId: nat, at: real): State {
    var script := w.script(|s.log|);
    s.(accumulated := s.accumulated + Produced(script.parts),
       out := s.out + Announcement(s.accumulated, s.used, m) + Contents(script.parts),
       log := s.log + [SegmentOf(w, req, s, m, keyId, at)])
  }

  /** The `except` branch. */
  function AfterError(w: World, s: State, m: Model, keyId: nat, msg: string): State {
    if !H.IsRetryable(msg) then MoveOn(s, m)
    else
      var cooled := s.(limits := C.AfterFailure(s.limits, Triple(m, keyId), w.clock(s.tick)), tick := s.tick + 1);
      var barred := cooled.(skipPlatforms := s.skipPlatforms + {m.platform});
      MoveOn(if ContainsAny(msg, AUTH_WORDS) then barred else cooled, m)
  }

  /** One call, and whether the relay goes on. */
  function RunSegment(w: World, req: Request, s: State, m: Model, keyId: nat, at: real): (State, bool) {
    var script := w.script(|s.log|);
    var s1 := Streamed(w, req, s, m, keyId, at);
    if !script.ending.Ended? then (AfterError(w, s1, m, keyId, ErrorOf(m, script.ending)), true)
    else
      var s2 := s1.(limits := C.AfterSuccess(s1.limits, Triple(m, keyId)));
      if Blank(Produced(script.parts)) then (MoveOn(s2, m), true)
      else (s2.(used := Credit(s1.used, m.name)), Reason(script.parts) == "length")
  }

  // ----- Choosing a model -----

  /** The keys the query returns: unlike the router's, a key marked dead stays out however old the mark. */
  function LiveIds(rows: seq<H.KeyRow>, platform: string): seq<nat> {
    if rows == [] then []
    else
      var front, r := LiveIds(rows[..|rows| - 1], platform), rows[|rows| - 1];
      if r.platform == platform && r.enabled && r.status != H.Error then front + [r.id] else front
  }

  /** The first key that is not cooling. */
  function PickKey(w: World, m: Model, ids: seq<nat>, s: State): (r: (State, Choice))
    ensures r.0.idx == s.idx
  {
    if ids == [] then (s, NoModel)
    else
      var id, now, s1 := Triple(m, ids[0]), w.clock(s.tick), s.(tick := s.tick + 1);
      if C.IsCooling(s.limits, id, now) then PickKey(w, m, ids[1..], s1)
      else (s1.(limits := C.AfterAsking(s.limits, id, now)), Chosen(m, ids[0], now))
  }

  function Select(w: World, req: Request, s: State): (State, Choice)
    decreases |req.models| - s.idx
  {
    if s.idx >= |req.models| then (s, NoModel)
    else
      var m := req.models[s.idx];
      if m.platform in s.skipPlatforms || m.id in s.skipIds then Select(w, req, s.(idx := s.idx + 1))
      else if m.platform !in req.registered then Select(w, req, MoveOn(s, m))
      else
        var (s1, c) := PickKey(w, m, LiveIds(w.keys(|s.asked|), m.platform), s.(asked := s.asked + [s.idx]));
        if c.NoModel? then Select(w, req, MoveOn(s1, m)) else (s1, c)
  }

  // ----- The relay -----

  /** One turn of the outer loop, and whether the relay goes on. */
  function Turn(w: World, req: Request, s: State): (State, bool) {
    var (s1, c) := Select(w, req, s.(iters := s.iters + 1));
    match c
    case NoModel => (s1, false)
    case Chosen(m, keyId, at) => RunSegment(w, req, s1, m, keyId, at)
  }

  lemma {:induction false} SelectCountsNothing(w: World, req: Request, s: State)
    ensures Select(w, req, s).0.iters == s.iters
    decreases |req.models| - s.idx
  {
    if s.idx < |req.models| {
      var m := req.models[s.idx];
      if m.platform in s.skipPlatforms || m.id in s.skipIds {
        SelectCountsNothing(w, req, s.(idx := s.idx + 1));
      } else if m.platform !in req.registered {
        SelectCountsNothing(w, req, MoveOn(s, m));
      } else {
        var ids, s0 := LiveIds(w.keys(|s.asked|), m.platform), s.(asked := s.asked + [s.idx]);
        PickCountsNothing(w, m, ids, s0);
        var (s1, c) := PickKey(w, m, ids, s0);
        if c.NoModel? { SelectCountsNothing(w, req, MoveOn(s1, m)); }
      }
    }
  }

  lemma {:induction false} PickCountsNothing(w: World, m: Model, ids: seq<nat>, s: State)
    ensures PickKey(w, m, ids, s).0.iters == s.iters
  {
    if ids != [] { PickCountsNothing(w, m, ids[1..], s.(tick := s.tick + 1)); }
  }

  function Loop(w: World, req: Request, deadline: real, s: State): State
    decreases MAX_ITERS - s.iters
  {
    if s.iters >= MAX_ITERS then s
    else
      var s1 := s.(tick := s.tick + 1);
      if w.clock(s.tick) >= deadline then s1
      else
        var (s2, more) := Turn(w, req, s1);
        SelectCountsNothing(w, req, s1.(iters := s1.iters + 1));
        if more then Loop(w, req, deadline, s2) else s2
  }

  function Start(limits: C.Limits): State {
    State(0, 0, "", [], {}, {}, limits, 1, [], [], [])
  }

  function Finished(s: State): seq<Event> {
    s.out + [Done(s.used, !Blank(s.accumulated))]
  }

  function Run(w: World, req: Request, limits: C.Limits): State {
    Loop(w, req, w.clock(0) + BUDGET_S, Start(limits))
  }

  /** The events the relay yields. */
  function Events(w: World, req: Request, limits: C.Limits): seq<Event> {
    Finished(Run(w, req, limits))
  }

  // ----- The generator, on its local variables and the shared cooldown dictionaries -----

  class RelayRun {
    const w: World
    const req: Request
    const limits: C.RateLimits
    var idx: nat
    var iters: nat
    var accumulated: string
    var used: seq<string>
    var skipPlatforms: set<string>
    var skipIds: set<int>
    var tick: nat
    var queries: nat
    var out: seq<Event>
    var calls: nat
    ghost var asked: seq<nat>
    ghost var log: seq<Segment>

    ghost predicate Valid()
      reads this
    {
      calls == |log| && queries == |asked|
    }

    ghost function Now(): State
      reads this, limits
    {
      State(idx, iters, accumulated, used, skipPlatforms, skipIds, limits.State(), tick, asked, out, log)
    }

    constructor (w: World, req: Request, limits: C.RateLimits)
      ensures this.w == w && this.req == req && this.limits == limits
      ensures Valid() && Now() == Start(limits.State())
    {
      this.w, this.req, this.limits := w, req, limits;
      idx, iters, accumulated, used, skipPlatforms, skipIds := 0, 0, "", [], {}, {};
      tick, queries, asked, out, calls, log := 1, 0, [], [], 0, [];
    }

    method ChooseKey(m: Model, ids: seq<nat>) returns (c: Choice)
      requires Valid()
      modifies this, limits
      ensures Valid() && (Now(), c) == PickKey(w, m, ids, old(Now()))
    {
      ghost var all := PickKey(w, m, ids, Now());
      var rest := ids;
      while rest != []
        invariant Valid() && PickKey(w, m, rest, Now()) == all
        decreases |rest|
      {
        var now := w.clock(tick);
        tick := tick + 1;
        var cooling := limits.IsOnCooldown(Triple(m, rest[0]), now);
        if !cooling { return Chosen(m, rest[0], now); }
        rest := rest[1..];
      }
      c := NoModel;
    }

    method ChooseModel() returns (c: Choice)
      requires Valid()
      modifies this, limits
      ensures Valid() && (Now(), c) == Select(w, req, old(Now()))
    {
      hide PickKey;
      ghost var all := Select(w, req, Now());
      while idx < |req.models|
        invariant Valid() && Select(w, req, Now()) == all
        decreases |req.models| - idx
      {
        var m := req.models[idx];
        if m.platform in skipPlatforms || m.id in skipIds {
          idx := idx + 1;
        } else if m.platform !in req.registered {
          skipIds := skipIds + {m.id};
          idx := idx + 1;
        } else {
          var ids := LiveIds(w.keys(queries), m.platform);
          queries, asked := queries + 1, asked + [idx];
          c := ChooseKey(m, ids);
          if c.Chosen? { return; }
          skipIds := skipIds + {m.id};
          idx := idx + 1;
        }
      }
      c := NoModel;
    }

    /** The inner `while True`: each non-empty piece is kept and passed on at once. */
    method Stream(parts: seq<Part>) returns (produced: string, reason: string)
      requires Valid()
      modifies this`accumulated, this`out
      ensures produced == Produced(parts) && reason == Reason(parts)
      ensures accumulated == old(accumulated) + produced && out == old(out) + Contents(parts)
    {
      produced, reason := "", "";
      for i := 0 to |parts|
        invariant produced == Produced(parts[..i]) && reason == Reason(parts[..i])
        invariant accumulated == old(accumulated) + produced && out == old(out) + Contents(parts[..i])
      {
        assert parts[..i + 1][..i] == parts[..i];
        match parts[i]
        case Piece(text) =>
          if text != "" {
            produced := produced + text;
            accumulated := accumulated + text;
            out := out + [Content(text)];
          }
        case Finish(r) => reason := r;
        case Ignored =>
      }
      assert parts[..|parts|] == parts;
    }

    /** Announces a change of model, then calls it. */
    method Call(m: Model, keyId: nat, at: real) returns (ending: Ending, produced: string, reason: string)
      requires Valid()
      modifies this
      ensures Valid() && Now() == Streamed(w, req, old(Now()), m, keyId, at) && iters == old(iters)
      ensures ending == w.script(old(|log|)).ending
      ensures produced == Produced(w.script(old(|log|)).parts) && reason == Reason(w.script(old(|log|)).parts)
    {
      hide Produced, Contents, Reason, Prompt;
      if accumulated != "" && used != [] && m.name != used[|used| - 1] {
        out := out + [Handoff(m.name)];
      }
      var prompt := Prompt(req.base, accumulated);
      var script := w.script(calls);
      log := log + [Segment(idx, m, keyId, at, queries, prompt, script, w.clock(tick))];
      calls := calls + 1;
      produced, reason := Stream(script.parts);
      ending := script.ending;
    }

    method OneSegment(m: Model, keyId: nat, at: real) returns (more: bool)
      requires Valid()
      modifies this, limits
      ensures Valid() && (Now(), more) == RunSegment(w, req, old(Now()), m, keyId, at)
      ensures iters == old(iters)
    {
      hide AfterError, Streamed, C.AfterSuccess, Produced, Reason;
      var ending, produced, reason := Call(m, keyId, at);
      if !ending.Ended? {
        Recover(m, keyId, ErrorOf(m, ending));
        return true;
      }
      limits.RecordSuccess(Triple(m, keyId));
      if Blank(produced) {
        skipIds := skipIds + {m.id};
        idx := idx + 1;
        return true;
      }
      if used == [] || used[|used| - 1] != m.name {
        used := used + [m.name];
      }
      more := reason == "length";
    }

    method Recover(m: Model, keyId: nat, msg: string)
      requires Valid()
      modifies this, limits
      ensures Valid() && Now() == AfterError(w, old(Now()), m, keyId, msg)
      ensures iters == old(iters)
    {
      hide H.IsRetryable, C.AfterFailure, ContainsAny;
      if H.IsRetryable(msg) {
        limits.SetCooldown(Triple(m, keyId), w.clock(tick));
        tick := tick + 1;
        if ContainsAny(msg, AUTH_WORDS) {
          skipPlatforms := skipPlatforms + {m.platform};
        }
      }
      skipIds := skipIds + {m.id};
      idx := idx + 1;
    }

    method Generate()
      requires Valid() && Now() == Start(limits.State())
      modifies this, limits
      ensures Valid() && out == Events(w, req, old(limits.State()))
      ensures limits.State() == Run(w, req, old(limits.State())).limits
    {
      hide Select, RunSegment;
      var deadline := w.clock(0) + BUDGET_S;
      ghost var all := Loop(w, req, deadline, Now());
      var going := true;
      while going && iters < MAX_ITERS
        invariant Valid() && (if going then Loop(w, req, deadline, Now()) else Now()) == all
        decreases going, MAX_ITERS - iters
      {
        var time := w.clock(tick);
        tick := tick + 1;
        if time >= deadline {
          going := false;
        } else {
          iters := iters + 1;
          SelectCountsNothing(w, req, Now());
          var c := ChooseModel();
          if c.NoModel? {
            going := false;
          } else {
            going := OneSegment(c.model, c.keyId, c.at);
          }
        }
      }
      out := out + [Done(used, !Blank(accumulated))];
    }
  }
}
