/** Cooldowns and failure counts of (platform, model, key) triples, compared with the full history of
    what was recorded. The string keys of the dictionaries are modelled by the triples themselves. */
module Cooldowns {

  datatype Triple = Triple(platform: string, modelId: string, keyId: nat)

  datatype Limits = Limits(cooldowns: map<Triple, real>, failures: map<Triple, nat>)

  const TRANSIENT_COOLDOWN_S: real := 90.0
  const ESCALATED_COOLDOWN_S: real := 600.0
  const MAX_COOLDOWN_S: real := 86400.0

  function Duration(failures: nat): real {
    if failures <= 1 then TRANSIENT_COOLDOWN_S
    else if failures <= 3 then ESCALATED_COOLDOWN_S
    else MAX_COOLDOWN_S
  }

  function FailuresOf(l: Limits, k: Triple): nat {
    if k in l.failures then l.failures[k] else 0
  }

  predicate IsCooling(l: Limits, k: Triple, now: real) {
    k in l.cooldowns && now <= l.cooldowns[k]
  }

  /** Asking forgets a cooldown that is over. */
  function AfterAsking(l: Limits, k: Triple, now: real): Limits {
    if k in l.cooldowns && now > l.cooldowns[k] then l.(cooldowns := l.cooldowns - {k}) else l
  }

  function AfterFailure(l: Limits, k: Triple, now: real): Limits {
    var n := FailuresOf(l, k) + 1;
    Limits(l.cooldowns[k := now + Duration(n)], l.failures[k := n])
  }

  function AfterSuccess(l: Limits, k: Triple): Limits {
    var n := FailuresOf(l, k);
    if n <= 1 then l.(failures := l.failures - {k}) else l.(failures := l.failures[k := n - 1])
  }

  class RateLimits {
    var cooldowns: map<Triple, real>
    var failures: map<Triple, nat>

    ghost function State(): Limits
      reads this
    {
      Limits(cooldowns, failures)
    }

    constructor ()
      ensures State() == Limits(map[], map[])
    {
      cooldowns, failures := map[], map[];
    }

    method IsOnCooldown(k: Triple, now: real) returns (cooling: bool)
      modifies this
      ensures cooling == IsCooling(old(State()), k, now)
      ensures State() == AfterAsking(old(State()), k, now)
      ensures k in cooldowns <==> cooling
    {
      if k !in cooldowns { return false; }
      if now > cooldowns[k] {
        cooldowns := cooldowns - {k};
        return false;
      }
      cooling := true;
    }

    method SetCooldown(k: Triple, now: real)
      modifies this
      ensures State() == AfterFailure(old(State()), k, now)
    {
      var n := (if k in failures then failures[k] else 0) + 1;
      failures := failures[k := n];
      var duration;
      if n <= 1 {
        duration := TRANSIENT_COOLDOWN_S;
      } else if n <= 3 {
        duration := ESCALATED_COOLDOWN_S;
      } else {
        duration := MAX_COOLDOWN_S;
      }
      cooldowns := cooldowns[k := now + duration];
    }

    method RecordSuccess(k: Triple)
      modifies this
      ensures State() == AfterSuccess(old(State()), k)
    {
      var count := if k in failures then failures[k] else 0;
      if count <= 1 {
        failures := failures - {k};
      } else {
        failures := failures[k := count - 1];
      }
    }
  }

  // ----- The full history -----

  datatype Op = Failed(triple: Triple, at: real) | Succeeded(triple: Triple) | Asked(triple: Triple, at: real)

  function Apply(l: Limits, op: Op): Limits {
    match op
    case Failed(k, at) => AfterFailure(l, k, at)
    case Succeeded(k) => AfterSuccess(l, k)
    case Asked(k, at) => AfterAsking(l, k, at)
  }

  function Run(ops: seq<Op>): Limits {
    if ops == [] then Limits(map[], map[]) else Apply(Run(ops[..|ops| - 1]), ops[|ops| - 1])
  }

  /** The operations one after another, on what earlier ones left. */
  function ApplyAll(l: Limits, ops: seq<Op>): Limits {
    if ops == [] then l else Apply(ApplyAll(l, ops[..|ops| - 1]), ops[|ops| - 1])
  }

  lemma {:induction false} ApplyOne(l: Limits, a: Op)
    ensures ApplyAll(l, [a]) == Apply(l, a)
  {
    assert [a][..0] == [];
  }

  lemma {:induction false} ApplyTwo(l: Limits, a: Op, b: Op)
    ensures ApplyAll(l, [a, b]) == Apply(Apply(l, a), b)
  {
    assert [a, b][..1] == [a];
    ApplyOne(l, a);
  }

  lemma {:induction false} ApplyAppends(l: Limits, ops: seq<Op>, more: seq<Op>)
    ensures ApplyAll(l, ops + more) == ApplyAll(ApplyAll(l, ops), more)
  {
    if more == [] {
      assert ops + more == ops;
    } else {
      assert (ops + more)[..|ops + more| - 1] == ops + more[..|more| - 1];
      ApplyAppends(l, ops, more[..|more| - 1]);
    }
  }

  lemma {:induction false} RunAppends(ops: seq<Op>, more: seq<Op>)
    ensures Run(ops + more) == ApplyAll(Run(ops), more)
  {
    if more == [] {
      assert ops + more == ops;
    } else {
      assert (ops + more)[..|ops + more| - 1] == ops + more[..|more| - 1];
      RunAppends(ops, more[..|more| - 1]);
    }
  }

  /** The failure/success walk of one triple, reflected at 0. */
  function Walk(ops: seq<Op>, k: Triple): nat {
    if ops == [] then 0
    else
      var n := Walk(ops[..|ops| - 1], k);
      match ops[|ops| - 1]
      case Failed(t, _) => if t == k then n + 1 else n
      case Succeeded(t) => if t == k && n > 0 then n - 1 else n
      case Asked(_, _) => n
  }

  datatype Expiry = Never | Until(time: real)

  /** When the last cooldown set for the triple ends, whatever was asked since. */
  function LastExpiry(ops: seq<Op>, k: Triple): Expiry {
    if ops == [] then Never
    else
      var last := ops[|ops| - 1];
      if last.Failed? && last.triple == k then Until(last.at + Duration(Walk(ops, k)))
      else LastExpiry(ops[..|ops| - 1], k)
  }

  /** Nothing was recorded or asked later than `now`. */
  ghost predicate NotAfter(ops: seq<Op>, now: real) {
    forall i :: 0 <= i < |ops| && !ops[i].Succeeded? ==> ops[i].at <= now
  }

  ghost predicate InTimeOrder(ops: seq<Op>) {
    forall i, j :: 0 <= i < j < |ops| && !ops[i].Succeeded? && !ops[j].Succeeded? ==> ops[i].at <= ops[j].at
  }

  /** The dictionaries against the history: the counts are the walk, stored counts are never 0, and a
      cooldown that was dropped is one that is over. */
  ghost predicate Faithful(ops: seq<Op>, k: Triple, now: real) {
    var l := Run(ops);
    && FailuresOf(l, k) == Walk(ops, k)
    && (k in l.failures ==> l.failures[k] >= 1)
    && (k in l.cooldowns ==> LastExpiry(ops, k) == Until(l.cooldowns[k]))
    && (k !in l.cooldowns && LastExpiry(ops, k).Until? ==> LastExpiry(ops, k).time < now)
  }

  lemma {:induction false} HistoryIsFaithful(ops: seq<Op>, k: Triple, now: real)
    requires InTimeOrder(ops) && NotAfter(ops, now)
    ensures Faithful(ops, k, now)
  {
    if ops != [] {
      var front, last := ops[..|ops| - 1], ops[|ops| - 1];
      HistoryIsFaithful(front, k, if last.Succeeded? then now else last.at);
    }
  }

  // ----- Main results -----

  /** Whether a triple is cooling at `now` is exactly what the last recorded failure says; dropping
      finished cooldowns on the way never shows. */
  lemma {:induction false} CoolingIffLastFailureSays(ops: seq<Op>, k: Triple, now: real)
    requires InTimeOrder(ops) && NotAfter(ops, now)
    ensures IsCooling(Run(ops), k, now) <==> LastExpiry(ops, k).Until? && now <= LastExpiry(ops, k).time
  {
    HistoryIsFaithful(ops, k, now);
  }

  /** The stored count is the failure/success walk reflected at 0, and no stored count is 0. */
  lemma {:induction false} CountIsReflectedWalk(ops: seq<Op>, k: Triple)
    ensures FailuresOf(Run(ops), k) == Walk(ops, k)
    ensures k in Run(ops).failures ==> Run(ops).failures[k] >= 1
  {
    if ops != [] {
      CountIsReflectedWalk(ops[..|ops| - 1], k);
    }
  }

  function SuccessesOf(ops: seq<Op>, k: Triple): nat {
    if ops == [] then 0
    else SuccessesOf(ops[..|ops| - 1], k) + if ops[|ops| - 1] == Succeeded(k) then 1 else 0
  }

  predicate NoFailureOf(ops: seq<Op>, k: Triple) {
    forall i :: 0 <= i < |ops| ==> !(ops[i].Failed? && ops[i].triple == k)
  }

  /** Over operations without a failure the walk falls by one per success, down to 0, and the expiry stays. */
  lemma {:induction false} WalkWithoutFailures(ops: seq<Op>, mid: seq<Op>, k: Triple)
    requires NoFailureOf(mid, k)
    ensures Walk(ops + mid, k) == FallBy(Walk(ops, k), SuccessesOf(mid, k))
    ensures LastExpiry(ops + mid, k) == LastExpiry(ops, k)
  {
    if mid == [] {
      assert ops + mid == ops;
    } else {
      var front := mid[..|mid| - 1];
      assert (ops + mid)[..|ops + mid| - 1] == ops + front;
      assert (ops + mid)[|ops + mid| - 1] == mid[|mid| - 1];
      WalkWithoutFailures(ops, front, k);
    }
  }

  function FallBy(n: nat, m: nat): nat {
    if n <= m then 0 else n - m
  }

  /** Two failures of a triple in a row, with only other operations in between. */
  ghost predicate InARow(first: seq<Op>, second: seq<Op>, before: seq<Op>, mid: seq<Op>, k: Triple, at1: real,
                         at2: real) {
    && first == before + [Failed(k, at1)] && second == first + mid + [Failed(k, at2)]
    && at1 <= at2 && NoFailureOf(mid, k)
  }

  lemma {:induction false} ExpiriesOfTwoFailures(before: seq<Op>, mid: seq<Op>, k: Triple, at1: real, at2: real,
                                                 first: seq<Op>, second: seq<Op>)
    requires InARow(first, second, before, mid, k, at1, at2)
    ensures var n := Walk(before, k) + 1;
            && LastExpiry(first, k) == Until(at1 + Duration(n))
            && LastExpiry(second, k) == Until(at2 + Duration(FallBy(n, SuccessesOf(mid, k)) + 1))
  {
    assert first[..|before|] == before;
    assert second[..|first + mid|] == first + mid;
    WalkWithoutFailures(first, mid, k);
  }

  /** From one failure of a triple to its next the expiry moves earlier if and only if less time passed in
      between than the cooldown got shorter; the counts are known before the second failure. */
  lemma {:induction false} ExpiryMovesEarlierIff(before: seq<Op>, mid: seq<Op>, k: Triple, at1: real, at2: real,
                                                 first: seq<Op>, second: seq<Op>)
    requires InARow(first, second, before, mid, k, at1, at2)
    ensures var n := Walk(before, k) + 1;
            && LastExpiry(first, k).Until? && LastExpiry(second, k).Until?
            && (LastExpiry(second, k).time < LastExpiry(first, k).time
                <==> at2 - at1 < Duration(n) - Duration(FallBy(n, SuccessesOf(mid, k)) + 1))
  {
    ExpiriesOfTwoFailures(before, mid, k, at1, at2, first, second);
  }

  /** After these operations and a failure, some time of the next failure gives it an earlier expiry. */
  ghost predicate CanMoveEarlier(before: seq<Op>, mid: seq<Op>, k: Triple, at1: real) {
    exists at2: real :: MovesEarlier(before, mid, k, at1, at2)
  }

  ghost predicate MovesEarlier(before: seq<Op>, mid: seq<Op>, k: Triple, at1: real, at2: real) {
    var first := before + [Failed(k, at1)];
    var second := first + mid + [Failed(k, at2)];
    at1 <= at2 && LastExpiry(first, k).Until? && LastExpiry(second, k).Until?
    && LastExpiry(second, k).time < LastExpiry(first, k).time
  }

  /** It can happen if and only if the successes in between bring the count back over a step: from the second
      or third failure to no failures, or from the fourth or a later one to at most two. */
  lemma {:induction false} CanMoveEarlierIff(before: seq<Op>, mid: seq<Op>, k: Triple, at1: real)
    requires NoFailureOf(mid, k)
    ensures var n, m := Walk(before, k) + 1, SuccessesOf(mid, k);
            CanMoveEarlier(before, mid, k, at1) <==> (2 <= n <= 3 && m >= n) || (n >= 4 && m >= n - 2)
  {
    var n, m := Walk(before, k) + 1, SuccessesOf(mid, k);
    var first := before + [Failed(k, at1)];
    forall at2: real | at1 <= at2
      ensures MovesEarlier(before, mid, k, at1, at2) <==> at2 - at1 < Duration(n) - Duration(FallBy(n, m) + 1)
    {
      ExpiryMovesEarlierIff(before, mid, k, at1, at2, first, first + mid + [Failed(k, at2)]);
    }
    if Duration(FallBy(n, m) + 1) < Duration(n) {
      assert MovesEarlier(before, mid, k, at1, at1);
    }
  }

  /** So it takes at least two successes in between. */
  lemma {:induction false} ExpiryNeverMovesEarlier(before: seq<Op>, mid: seq<Op>, k: Triple, at1: real, at2: real)
    requires at1 <= at2 && NoFailureOf(mid, k) && SuccessesOf(mid, k) <= 1
    ensures var first := before + [Failed(k, at1)];
            var second := first + mid + [Failed(k, at2)];
            && LastExpiry(first, k).Until? && LastExpiry(second, k).Until?
            && LastExpiry(first, k).time <= LastExpiry(second, k).time
  {
    var first := before + [Failed(k, at1)];
    ExpiriesOfTwoFailures(before, mid, k, at1, at2, first, first + mid + [Failed(k, at2)]);
  }

  /** Two successes in between can shorten it: 600 seconds after a second failure, but only 90 after a
      third one that follows two successes. */
  lemma {:induction false} ExpiryMayMoveEarlierAfterTwoSuccesses(k: Triple)
    ensures var two := [Failed(k, 0.0), Failed(k, 0.0)];
            var third := two + [Succeeded(k), Succeeded(k), Failed(k, 1.0)];
            LastExpiry(two, k) == Until(600.0) && LastExpiry(third, k) == Until(91.0)
  {
    var two := [Failed(k, 0.0), Failed(k, 0.0)];
    var third := two + [Succeeded(k), Succeeded(k), Failed(k, 1.0)];
    var one := [Failed(k, 0.0)];
    assert one[..0] == [] && two[..1] == one;
    assert Walk(one, k) == 1 && Walk(two, k) == 2;
    assert third[..4] == two + [Succeeded(k), Succeeded(k)];
    assert third[..4][..3] == two + [Succeeded(k)];
    assert third[..4][..3][..2] == two;
    assert Walk(third[..4][..3], k) == 1 && Walk(third[..4], k) == 0;
  }
}
