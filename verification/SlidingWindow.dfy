/** The two in-process sliding-window limiters: the per-tool `RateLimiter` of the tool executor
    and the per-token limiter of the agent gateway. Both keep a pruned queue of admission times;
    the theorems compare that queue with the full, never-pruned history. Time is a `real`. */
module SlidingWindow {

  const WINDOW_S: real := 60.0

  /** `EmptyQueueError` is the IndexError raised when a limit of 0 or less meets an empty queue. */
  datatype Answer = Allowed | Refused(retryAfter: real) | EmptyQueueError

  // ----- The pruned queue -----

  /** Drops leading times before `cutoff`, as the popleft loop does. */
  function Prune(q: seq<real>, cutoff: real): seq<real> {
    if q != [] && q[0] < cutoff then Prune(q[1..], cutoff) else q
  }

  /** Pruning cuts the queue at the first entry that is not older than `cutoff`. */
  lemma {:induction false} PruneCuts(q: seq<real>, cutoff: real) returns (k: nat)
    ensures k <= |q| && Prune(q, cutoff) == q[k..]
    ensures forall i :: 0 <= i < k ==> q[i] < cutoff
    ensures k < |q| ==> q[k] >= cutoff
  {
    if q != [] && q[0] < cutoff {
      var j := PruneCuts(q[1..], cutoff);
      k := j + 1;
      forall i | 0 <= i < k ensures q[i] < cutoff {
        if i > 0 {
          assert q[i] == q[1..][i - 1];
        }
      }
    } else {
      k := 0;
    }
  }

  /** One call against a queue: the queue left behind, and the answer. */
  function Step(q: seq<real>, limit: int, now: real): (seq<real>, Answer) {
    var kept := Prune(q, now - WINDOW_S);
    if |kept| < limit then (kept + [now], Allowed)
    else if kept == [] then (kept, EmptyQueueError)
    else
      var wait := kept[0] + WINDOW_S - now;
      (kept, Refused(if wait < 0.0 then 0.0 else wait))
  }

  // ----- The full history -----

  /** How many of the recorded times lie in the closed interval [lo, hi]. */
  function CountWithin(h: seq<real>, lo: real, hi: real): (n: nat)
    ensures n <= |h|
  {
    if h == [] then 0
    else
      CountWithin(h[..|h| - 1], lo, hi) + if lo <= h[|h| - 1] <= hi then 1 else 0
  }

  /** The first recorded time at or after `lo`, or `lo` when there is none. */
  function OldestSince(h: seq<real>, lo: real): real {
    if h == [] then lo else if h[0] >= lo then h[0] else OldestSince(h[1..], lo)
  }

  /** The limiter as documented: it forgets nothing and counts the last 60 seconds each time. */
  function FullHistoryAnswer(h: seq<real>, limit: int, now: real): Answer {
    var n := CountWithin(h, now - WINDOW_S, now);
    if n < limit then Allowed
    else if n == 0 then EmptyQueueError
    else Refused(OldestSince(h, now - WINDOW_S) + WINDOW_S - now)
  }

  datatype Call = Call(now: real, limit: int)

  datatype Trace = Trace(queue: seq<real>, admitted: seq<real>, answers: seq<Answer>)

  function Extend(t: Trace, c: Call): Trace {
    var (q, a) := Step(t.queue, c.limit, c.now);
    Trace(q, if a.Allowed? then t.admitted + [c.now] else t.admitted, t.answers + [a])
  }

  /** A whole run of the pruned limiter, together with everything it ever admitted. */
  function Run(calls: seq<Call>): (t: Trace)
    ensures |t.answers| == |calls|
  {
    if calls == [] then Trace([], [], [])
    else
      Extend(Run(calls[..|calls| - 1]), calls[|calls| - 1])
  }

  /** The same run by the limiter that keeps the whole history. */
  function FullRun(calls: seq<Call>): (seq<real>, seq<Answer>) {
    if calls == [] then ([], [])
    else
      var (h, answers) := FullRun(calls[..|calls| - 1]);
      var c := calls[|calls| - 1];
      var a := FullHistoryAnswer(h, c.limit, c.now);
      (if a.Allowed? then h + [c.now] else h, answers + [a])
  }

  ghost predicate ClockMovesForward(calls: seq<Call>) {
    forall i, j :: 0 <= i < j < |calls| ==> calls[i].now <= calls[j].now
  }

  ghost predicate Sorted(h: seq<real>) {
    forall i, j :: 0 <= i < j < |h| ==> h[i] <= h[j]
  }

  /** The queue is the part of the history that the last cutoff did not throw away. */
  ghost predicate QueueIsRecentHistory(t: Trace, clock: real) {
    && Sorted(t.admitted)
    && (forall i :: 0 <= i < |t.admitted| ==> t.admitted[i] <= clock)
    && |t.queue| <= |t.admitted|
    && t.queue == t.admitted[|t.admitted| - |t.queue|..]
    && (forall i :: 0 <= i < |t.admitted| - |t.queue| ==> t.admitted[i] < clock - WINDOW_S)
  }

  // ----- Counting -----

  lemma {:induction false} CountOfSuffix(h: seq<real>, k: nat, lo: real, hi: real)
    requires k <= |h|
    requires forall i :: 0 <= i < k ==> h[i] < lo
    requires forall i :: k <= i < |h| ==> lo <= h[i] <= hi
    ensures CountWithin(h, lo, hi) == |h| - k
  {
    if h != [] {
      var front := h[..|h| - 1];
      CountOfSuffix(front, if k == |h| then k - 1 else k, lo, hi);
    }
  }

  lemma {:induction false} CountShrinks(h: seq<real>, lo: real, hi: real, lo': real, hi': real)
    requires forall i :: 0 <= i < |h| && lo <= h[i] <= hi ==> lo' <= h[i] <= hi'
    ensures CountWithin(h, lo, hi) <= CountWithin(h, lo', hi')
  {
    if h != [] {
      CountShrinks(h[..|h| - 1], lo, hi, lo', hi');
    }
  }

  lemma {:induction false} OldestOfSuffix(h: seq<real>, k: nat, lo: real)
    requires k < |h| && h[k] >= lo
    requires forall i :: 0 <= i < k ==> h[i] < lo
    ensures OldestSince(h, lo) == h[k]
  {
    if k > 0 {
      OldestOfSuffix(h[1..], k - 1, lo);
    }
  }

  /** Pruning the queue is pruning the history: it keeps exactly the admissions of the window. */
  lemma {:induction false} PruningSplitsHistory(t: Trace, clock: real, now: real) returns (k: nat)
    requires QueueIsRecentHistory(t, clock) && clock <= now
    ensures k <= |t.admitted| && Prune(t.queue, now - WINDOW_S) == t.admitted[k..]
    ensures forall i :: 0 <= i < k ==> t.admitted[i] < now - WINDOW_S
    ensures forall i :: k <= i < |t.admitted| ==> now - WINDOW_S <= t.admitted[i] <= now
  {
    var gone := |t.admitted| - |t.queue|;
    var cut := PruneCuts(t.queue, now - WINDOW_S);
    k := gone + cut;
    forall i | 0 <= i < k ensures t.admitted[i] < now - WINDOW_S {
      if i >= gone {
        assert t.admitted[i] == t.queue[i - gone];
      }
    }
    if k < |t.admitted| {
      assert t.admitted[k] == t.queue[cut];
    }
  }

  /** Whenever pruning keeps exactly the admissions of the window, the step answers like counting. */
  lemma {:induction false} StepAnswersLikeFullHistory(q: seq<real>, h: seq<real>, k: nat, limit: int, now: real)
    requires k <= |h| && Prune(q, now - WINDOW_S) == h[k..]
    requires forall i :: 0 <= i < k ==> h[i] < now - WINDOW_S
    requires forall i :: k <= i < |h| ==> now - WINDOW_S <= h[i] <= now
    ensures Step(q, limit, now).1 == FullHistoryAnswer(h, limit, now)
  {
    CountOfSuffix(h, k, now - WINDOW_S, now);
    if k < |h| {
      OldestOfSuffix(h, k, now - WINDOW_S);
      assert h[k..][0] == h[k];
    }
  }

  lemma {:induction false} ExtendKeepsRecentHistory(t: Trace, clock: real, c: Call)
    requires QueueIsRecentHistory(t, clock) && clock <= c.now
    ensures QueueIsRecentHistory(Extend(t, c), c.now)
  {
    var k := PruningSplitsHistory(t, clock, c.now);
    var h, t' := t.admitted, Extend(t, c);
    if |h| - k < c.limit {
      var h' := h + [c.now];
      assert t'.admitted == h' && t'.queue == h'[k..];
      assert forall i :: 0 <= i < |h| ==> h'[i] == h[i];
    } else {
      assert t'.admitted == h && t'.queue == h[k..];
    }
  }

  lemma {:induction false} RunKeepsRecentHistory(calls: seq<Call>, now: real)
    requires ClockMovesForward(calls)
    requires forall i :: 0 <= i < |calls| ==> calls[i].now <= now
    ensures exists clock :: clock <= now && QueueIsRecentHistory(Run(calls), clock)
    ensures FullRun(calls) == (Run(calls).admitted, Run(calls).answers)
  {
    if calls == [] {
      assert QueueIsRecentHistory(Run(calls), now);
    } else {
      var front, c := calls[..|calls| - 1], calls[|calls| - 1];
      RunKeepsRecentHistory(front, c.now);
      var clock :| clock <= c.now && QueueIsRecentHistory(Run(front), clock);
      var k := PruningSplitsHistory(Run(front), clock, c.now);
      StepAnswersLikeFullHistory(Run(front).queue, Run(front).admitted, k, c.limit, c.now);
      ExtendKeepsRecentHistory(Run(front), clock, c);
      assert c.now <= now && QueueIsRecentHistory(Run(calls), c.now);
    }
  }

  // ----- Main results -----

  /** Forgetting old admissions never changes an answer, over any run with a forward clock. */
  lemma {:induction false} PruningIsInvisible(calls: seq<Call>)
    requires ClockMovesForward(calls)
    ensures Run(calls).answers == FullRun(calls).1
  {
    if calls != [] {
      RunKeepsRecentHistory(calls, calls[|calls| - 1].now);
    }
  }

  /** A call is turned away exactly when its limit was already used up in the 60 seconds before it. */
  lemma {:induction false} TurnedAwayIffWindowFull(calls: seq<Call>, call: Call)
    requires ClockMovesForward(calls)
    requires forall i :: 0 <= i < |calls| ==> calls[i].now <= call.now
    ensures !Step(Run(calls).queue, call.limit, call.now).1.Allowed?
       <==> CountWithin(Run(calls).admitted, call.now - 60.0, call.now) >= call.limit
  {
    RunAnswersLikeFullHistory(calls, call);
  }

  lemma {:induction false} RunAnswersLikeFullHistory(calls: seq<Call>, call: Call)
    requires ClockMovesForward(calls)
    requires forall i :: 0 <= i < |calls| ==> calls[i].now <= call.now
    ensures Step(Run(calls).queue, call.limit, call.now).1
         == FullHistoryAnswer(Run(calls).admitted, call.limit, call.now)
  {
    RunKeepsRecentHistory(calls, call.now);
    var t := Run(calls);
    var clock :| clock <= call.now && QueueIsRecentHistory(t, clock);
    var k := PruningSplitsHistory(t, clock, call.now);
    StepAnswersLikeFullHistory(t.queue, t.admitted, k, call.limit, call.now);
  }

  /** A call reads an empty deque, and so raises, if and only if its limit is 0 or less and nothing was
      admitted in the 60 seconds before it. */
  lemma {:induction false} EmptyQueueErrorIff(calls: seq<Call>, call: Call)
    requires ClockMovesForward(calls)
    requires forall i :: 0 <= i < |calls| ==> calls[i].now <= call.now
    ensures Step(Run(calls).queue, call.limit, call.now).1.EmptyQueueError?
       <==> call.limit <= 0 && CountWithin(Run(calls).admitted, call.now - 60.0, call.now) == 0
  {
    RunAnswersLikeFullHistory(calls, call);
  }

  /** The first call of a tool that is limited to 0 raises. */
  lemma {:induction false} FirstCallAtLimitZeroRaises(now: real)
    ensures Run([Call(now, 0)]).answers == [EmptyQueueError]
  {
    assert [Call(now, 0)][..0] == [];
  }

  /** Any closed 60-second interval of any run holds at most as many admissions as the largest limit. */
  lemma {:induction false} AtMostLimitInAnyWindow(calls: seq<Call>, limit: nat, from: real)
    requires ClockMovesForward(calls)
    requires forall i :: 0 <= i < |calls| ==> calls[i].limit <= limit
    ensures CountWithin(Run(calls).admitted, from, from + 60.0) <= limit
  {
    if calls != [] {
      var front, c := calls[..|calls| - 1], calls[|calls| - 1];
      AtMostLimitInAnyWindow(front, limit, from);
      if Step(Run(front).queue, c.limit, c.now).1.Allowed? {
        AdmissionStaysInLimit(front, c, limit, from);
      }
    }
  }

  lemma {:induction false} AdmissionStaysInLimit(calls: seq<Call>, c: Call, limit: nat, from: real)
    requires ClockMovesForward(calls) && c.limit <= limit
    requires forall i :: 0 <= i < |calls| ==> calls[i].now <= c.now
    requires Step(Run(calls).queue, c.limit, c.now).1.Allowed?
    requires CountWithin(Run(calls).admitted, from, from + WINDOW_S) <= limit
    ensures CountWithin(Run(calls).admitted + [c.now], from, from + WINDOW_S) <= limit
  {
    hide Step, Run, FullHistoryAnswer, CountWithin, QueueIsRecentHistory;
    var h := Run(calls).admitted;
    CountNext(h, c.now, from, from + WINDOW_S);
    if from <= c.now <= from + WINDOW_S {
      TurnedAwayIffWindowFull(calls, c);
      HistoryIsPast(calls, c.now);
      CountShrinks(h, from, from + WINDOW_S, c.now - 60.0, c.now);
    }
  }

  lemma {:induction false} CountNext(h: seq<real>, x: real, lo: real, hi: real)
    ensures CountWithin(h + [x], lo, hi) == CountWithin(h, lo, hi) + if lo <= x <= hi then 1 else 0
  {
    assert (h + [x])[..|h|] == h;
  }

  lemma {:induction false} HistoryIsPast(calls: seq<Call>, now: real)
    requires ClockMovesForward(calls) && forall i :: 0 <= i < |calls| ==> calls[i].now <= now
    ensures forall i :: 0 <= i < |Run(calls).admitted| ==> Run(calls).admitted[i] <= now
  {
    hide Run;
    RunKeepsRecentHistory(calls, now);
  }

  /** After a queue has refused a call, a later call with the same limit gets in exactly once the
      time has moved strictly past the expiry of the `limit`-th newest entry. */
  lemma {:induction false} AdmittedAgainIff(q: seq<real>, limit: nat, later: real)
    requires Sorted(q) && 1 <= limit <= |q|
    ensures Step(q, limit, later).1.Allowed? <==> later > q[|q| - limit] + 60.0
  {
    var cut := PruneCuts(q, later - WINDOW_S);
    if |q| - cut >= limit {
      assert q[cut] <= q[|q| - limit];
    } else {
      assert q[|q| - limit] < later - WINDOW_S;
    }
  }

  /** `retry_after` names the last refused instant, not the first free one: at now + retryAfter the
      call is still refused, and if the queue holds just `limit` entries any later instant is admitted. */
  lemma {:induction false} RetryAfterIsTheLastRefusal(q: seq<real>, limit: nat, now: real, later: real)
    requires Sorted(q) && limit >= 1 && now <= later
    requires Step(q, limit, now).1.Refused?
    ensures var (left, a) := Step(q, limit, now);
            && (later <= now + a.retryAfter ==> Step(left, limit, later).1.Refused?)
            && (later > now + a.retryAfter && |left| == limit ==> Step(left, limit, later).1.Allowed?)
  {
    var (left, a) := Step(q, limit, now);
    var cut := PruneCuts(q, now - WINDOW_S);
    assert left == q[cut..];
    AdmittedAgainIff(left, limit, later);
    assert left[0] <= left[|left| - limit];
  }

  // ----- Several tools share one limiter -----

  datatype ToolCall = ToolCall(tool: string, call: Call)

  function QueueOf(queues: map<string, seq<real>>, tool: string): seq<real> {
    if tool in queues then queues[tool] else []
  }

  /** The limiter's dictionary after a run of calls for any mix of tools. */
  function Queues(calls: seq<ToolCall>): map<string, seq<real>> {
    if calls == [] then map[]
    else
      var m := Queues(calls[..|calls| - 1]);
      var c := calls[|calls| - 1];
      m[c.tool := Step(QueueOf(m, c.tool), c.call.limit, c.call.now).0]
  }

  /** The calls made for one tool, in order. */
  function CallsFor(calls: seq<ToolCall>, tool: string): seq<Call> {
    if calls == [] then []
    else
      var front := CallsFor(calls[..|calls| - 1], tool);
      if calls[|calls| - 1].tool == tool then front + [calls[|calls| - 1].call] else front
  }

  /** One tool's traffic never shows in another tool's queue. */
  lemma {:induction false} ToolsAreIndependent(calls: seq<ToolCall>, tool: string)
    ensures QueueOf(Queues(calls), tool) == Run(CallsFor(calls, tool)).queue
  {
    if calls != [] {
      var front := calls[..|calls| - 1];
      ToolsAreIndependent(front, tool);
      if calls[|calls| - 1].tool == tool {
        assert CallsFor(calls, tool)[..|CallsFor(calls, tool)| - 1] == CallsFor(front, tool);
      }
    }
  }

  /** The tool executor's limiter. `check_and_record` runs under a lock, so one call is one step. */
  class RateLimiter {
    var invocations: map<string, seq<real>>

    constructor ()
      ensures invocations == map[]
    {
      invocations := map[];
    }

    method CheckAndRecord(tool: string, limit: int, now: real) returns (answer: Answer)
      modifies this
      ensures invocations == old(invocations)[tool := Step(QueueOf(old(invocations), tool), limit, now).0]
      ensures answer == Step(QueueOf(old(invocations), tool), limit, now).1
    {
      var queue := if tool in invocations then invocations[tool] else [];
      ghost var all := queue;
      var cutoff := now - WINDOW_S;
      while queue != [] && queue[0] < cutoff
        invariant Prune(queue, cutoff) == Prune(all, cutoff)
        decreases |queue|
      {
        queue := queue[1..];
      }
      if |queue| < limit {
        queue := queue + [now];
        answer := Allowed;
      } else if queue == [] {
        answer := EmptyQueueError;
      } else {
        var wait := queue[0] + WINDOW_S - now;
        answer := Refused(if wait < 0.0 then 0.0 else wait);
      }
      invocations := invocations[tool := queue];
    }
  }

  // ----- The agent gateway -----

  const RATE_LIMIT_PER_MIN: nat := 60

  /** `None` lets the request through; `Some(s)` is a 429 with that Retry-After header. */
  datatype Verdict = Pass | TooMany(retryAfter: int)

  /** The header value: whole seconds, rounded down, never below one. */
  function HeaderSeconds(wait: real): int {
    if wait < 1.0 then 1 else wait.Floor
  }

  class GatewayLimiter {
    var windows: map<string, seq<real>>

    constructor ()
      ensures windows == map[]
    {
      windows := map[];
    }

    /** The gateway's limiter is the tool limiter's step with a fixed limit of 60. */
    method CheckRateLimit(token: string, now: real) returns (verdict: Verdict)
      modifies this
      ensures var (q, a) := Step(QueueOf(old(windows), token), RATE_LIMIT_PER_MIN, now);
              && windows == old(windows)[token := q]
              && !a.EmptyQueueError?
              && (verdict.Pass? <==> a.Allowed?)
              && (a.Refused? ==> verdict == TooMany(HeaderSeconds(a.retryAfter)))
    {
      var window := if token in windows then windows[token] else [];
      ghost var all := window;
      while window != [] && window[0] < now - WINDOW_S
        invariant Prune(window, now - WINDOW_S) == Prune(all, now - WINDOW_S)
        decreases |window|
      {
        window := window[1..];
      }
      if |window| >= RATE_LIMIT_PER_MIN {
        verdict := TooMany(HeaderSeconds(window[0] + WINDOW_S - now));
      } else {
        window := window + [now];
        verdict := Pass;
      }
      windows := windows[token := window];
    }
  }

  /** Waiting exactly as long as the Retry-After header says is enough if and only if less than one
      second was left: otherwise the rounded-down header sends the client back too early. */
  lemma {:induction false} RetryHeaderSufficesIff(q: seq<real>, now: real)
    requires Sorted(q) && Step(q, 60, now).1.Refused?
    requires |Step(q, RATE_LIMIT_PER_MIN, now).0| == RATE_LIMIT_PER_MIN
    ensures var (left, a) := Step(q, RATE_LIMIT_PER_MIN, now);
            (Step(left, RATE_LIMIT_PER_MIN, now + HeaderSeconds(a.retryAfter) as real).1.Allowed?
             <==> a.retryAfter < 1.0)
  {
    var a := Step(q, RATE_LIMIT_PER_MIN, now).1;
    RetryAfterIsTheLastRefusal(q, RATE_LIMIT_PER_MIN, now, now + HeaderSeconds(a.retryAfter) as real);
  }

  /** A full window with a second and a half to go: the header says 1, and after one second the call is
      refused again. */
  lemma {:induction false} HeaderComesTooEarly()
    ensures var q := seq(RATE_LIMIT_PER_MIN, _ => 0.0);
            && Step(q, RATE_LIMIT_PER_MIN, 58.5) == (q, Refused(1.5)) && HeaderSeconds(1.5) == 1
            && Step(q, RATE_LIMIT_PER_MIN, 59.5).1.Refused?
  {
  }

  /** The header is the whole seconds of the wait, and 1 when there is less than one. */
  lemma {:induction false} HeaderMeaning(wait: real)
    ensures HeaderSeconds(wait) >= 1
    ensures wait >= 1.0 ==> HeaderSeconds(wait) as real <= wait < HeaderSeconds(wait) as real + 1.0
    ensures wait < 1.0 ==> HeaderSeconds(wait) == 1
  {
  }
}
