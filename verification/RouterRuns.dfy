/** What holds over whole runs of router requests and Deep Research relays served one after another, as
    cooldowns and key health outlive each of them: no call starts on a triple that is cooling, nor on a key
    benched as dead. */
module RouterRuns {
  import opened Router
  import opened RouterRequest
  import opened RouterExhaustion
  import C = Cooldowns
  import H = KeyHealth
  import R = Relay
  import RelayRuns
  import L = RelayCooldowns

  // ----- What the history says happened to cooldowns and to key health -----

  /** One event of a router request, or one call of a relay. */
  datatype Happening = Tried(event: Event) | Relayed(segment: R.Segment) {
    function Id(): C.Triple {
      match this
      case Tried(e) => e.id
      case Relayed(g) => R.Triple(g.model, g.keyId)
    }

    /** When the cooldown of the triple was looked at; a call follows at once. */
    function At(): real {
      match this
      case Tried(e) => e.at
      case Relayed(g) => g.at
    }

    predicate IsCall() { Relayed? || event.Called? }
  }

  /** The cooldown operations behind one happening. */
  function OpsOf(h: Happening): seq<C.Op> {
    match h
    case Relayed(g) => L.OpsOf(g)
    case Tried(e) =>
      if e.Called? && e.result.Answered? then [C.Asked(e.id, e.at), C.Succeeded(e.id)]
      else if Cools(e) then [C.Asked(e.id, e.at), C.Failed(e.id, e.result.coolAt)]
      else [C.Asked(e.id, e.at)]
  }

  function Ops(history: seq<Happening>): seq<C.Op> {
    if history == [] then [] else Ops(history[..|history| - 1]) + OpsOf(history[|history| - 1])
  }

  datatype Record = NoRecord | Recorded(status: H.Status, at: real)

  /** What one happening writes to its key's row; the relay writes nothing. */
  function RecordOf(h: Happening): Record {
    if h.Relayed? || h.event.Skipped? then NoRecord
    else match h.event.result
      case Answered(saved, at) => if saved then Recorded(H.Healthy, at) else NoRecord
      case Empty => NoRecord
      case Failed(_, found, at, _) => if found == H.Nothing then NoRecord else Recorded(H.StatusOf(found), at)
  }

  /** The last thing written to a key's row. */
  function LastRecord(history: seq<Happening>, keyId: nat): Record {
    if history == [] then NoRecord
    else
      var last := history[|history| - 1];
      if last.Id().keyId == keyId && RecordOf(last).Recorded? then RecordOf(last)
      else LastRecord(history[..|history| - 1], keyId)
  }

  function RowsAfter(rows: seq<H.KeyRow>, e: Event): seq<H.KeyRow> {
    var r := RecordOf(Tried(e));
    if r.Recorded? then H.Mark(rows, e.id.keyId, r.status, r.at) else rows
  }

  function Lift(trace: seq<Event>): seq<Happening> {
    seq(|trace|, i requires 0 <= i < |trace| => Tried(trace[i]))
  }

  /** The history up to now: what came before this request, and what it has done so far. */
  function Full(past: seq<Happening>, s: State): seq<Happening> {
    past + Lift(s.trace)
  }

  // ----- The lasting invariant -----

  ghost predicate RowMatches(start: H.KeyRow, row: H.KeyRow, r: Record) {
    row == if r.Recorded? then start.(status := r.status, lastChecked := H.Checked(r.at)) else start
  }

  ghost predicate RowsMatch(start: seq<H.KeyRow>, rows: seq<H.KeyRow>, history: seq<Happening>) {
    && |rows| == |start|
    && forall i :: 0 <= i < |start| ==> RowMatches(start[i], rows[i], LastRecord(history, start[i].id))
  }

  /** By the full history before it, the triple of happening `j` was not cooling if it is a call, and was
      cooling if it is a key that was passed over. */
  ghost predicate RightlyTimed(history: seq<Happening>, j: nat)
    requires j < |history|
  {
    var expiry, h := C.LastExpiry(Ops(history[..j]), history[j].Id()), history[j];
    h.IsCall() <==> expiry == C.Never || h.At() > expiry.time
  }

  /** If happening `j` is a call, its key was not marked dead within the 30 minutes before it; and if it is a
      call of a relay, not at all since it was last marked otherwise. */
  ghost predicate UnbenchedCall(history: seq<Happening>, j: nat)
    requires j < |history|
  {
    var r, h := LastRecord(history[..j], history[j].Id().keyId), history[j];
    h.IsCall() && r.Recorded? && r.status == H.Error ==> h.Tried? && r.at < h.At() - 1800.0
  }

  ghost predicate AllTimed(history: seq<Happening>) {
    forall j: nat :: j < |history| ==> RightlyTimed(history, j)
  }

  ghost predicate AllUnbenched(history: seq<Happening>) {
    forall j: nat :: j < |history| ==> UnbenchedCall(history, j)
  }

  ghost predicate LimitsMatch(limits: C.Limits, history: seq<Happening>, now: real) {
    limits == C.Run(Ops(history)) && C.InTimeOrder(Ops(history)) && C.NotAfter(Ops(history), now)
  }

  ghost predicate Lasting(w: World, start: seq<H.KeyRow>, past: seq<Happening>, s: State) {
    && LimitsMatch(s.limits, Full(past, s), w.clock(s.tick)) && RowsMatch(start, s.rows, Full(past, s))
    && AllTimed(Full(past, s)) && AllUnbenched(Full(past, s))
  }

  /** The key has a row that is usable at `queried`, no later than the next clock reading. */
  ghost predicate Queried(w: World, s: State, keyId: nat, queried: real) {
    queried <= w.clock(s.tick) && exists i :: 0 <= i < |s.rows| && s.rows[i].id == keyId && H.Usable(s.rows[i], queried)
  }

  // ----- The event of one key -----

  /** How the event of one key shows in the lasting state. */
  ghost predicate EventFits(w: World, s: State, e: Event, s': State) {
    && s'.trace == s.trace + [e] && e.at == w.clock(s.tick) && s.tick <= s'.tick
    && (e.Called? <==> !C.IsCooling(s.limits, e.id, e.at))
    && s'.limits == C.ApplyAll(s.limits, OpsOf(Tried(e)))
    && s'.rows == RowsAfter(s.rows, e)
    && (e.Called? && e.result.Failed? ==> e.at <= e.result.coolAt <= w.clock(s'.tick))
  }

  lemma {:induction false} FailureIsMarked(rows: seq<H.KeyRow>, id: C.Triple, at: real, msg: string, saved: bool,
                                           healthAt: real,
                                           coolAt: real)
    ensures H.AfterFailure(rows, id.keyId, msg, saved, healthAt)
         == var found := H.ReportedFailure(rows, id.keyId, msg, saved);
            RowsAfter(rows, Called(id, at, Failed(msg, found, healthAt, coolAt)))
  {
    hide H.ReportedFailure, H.Mark;
  }

  lemma {:induction false} FailShape(w: World, req: Request, m: Model, s: State, id: C.Triple, at: real, msg: string)
    ensures var found := H.ReportedFailure(s.rows, id.keyId, msg, w.saved(s.calls));
            var e := Called(id, at, Failed(msg, found, w.clock(s.tick), w.clock(s.tick + 1)));
            var s' := Fail(w, req, m, s, id, at, msg).0;
            && s'.trace == s.trace + [e] && s'.tick == s.tick + 2 && s'.rows == RowsAfter(s.rows, e)
            && s'.limits == if Cools(e) then C.AfterFailure(s.limits, id, w.clock(s.tick + 1)) else s.limits
  {
    hide H.ReportedFailure, H.IsRetryable, H.IsQuota, H.IsNotFound, H.AfterFailure, CountQuota, C.AfterFailure,
         RowsAfter;
    CountingIsPrivate(req, m);
    FailureIsMarked(s.rows, id, at, msg, w.saved(s.calls), w.clock(s.tick), w.clock(s.tick + 1));
  }

  lemma {:induction false} FailFits(w: World, req: Request, m: Model, s: State, keyId: nat, msg: string)
    requires ForwardClock(w) && !C.IsCooling(s.limits, IdOf(m, keyId), w.clock(s.tick))
    ensures var id, at := IdOf(m, keyId), w.clock(s.tick);
            var asked := s.(limits := C.AfterAsking(s.limits, id, at), tick := s.tick + 1, calls := s.calls + 1);
            var s' := Fail(w, req, m, asked, id, at, msg).0;
            && |s'.trace| == |s.trace| + 1 && s'.trace[|s.trace|].id == id
            && EventFits(w, s, s'.trace[|s.trace|], s')
  {
    hide Fail, H.ReportedFailure, C.AfterFailure, C.AfterAsking, C.IsCooling, RowsAfter, C.ApplyAll, IdOf;
    var id, at := IdOf(m, keyId), w.clock(s.tick);
    var asked := s.(limits := C.AfterAsking(s.limits, id, at), tick := s.tick + 1, calls := s.calls + 1);
    FailShape(w, req, m, asked, id, at, msg);
    C.ApplyOne(s.limits, C.Asked(id, at));
    C.ApplyTwo(s.limits, C.Asked(id, at), C.Failed(id, w.clock(s.tick + 2)));
  }

  lemma {:induction false} KeyFits(w: World, req: Request, m: Model, keyId: nat, s: State)
    requires ForwardClock(w)
    ensures var s' := TryKey(w, req, m, keyId, s).0;
            if s'.trace == s.trace then s' == s
            else |s'.trace| == |s.trace| + 1 && s'.trace[|s.trace|].id == IdOf(m, keyId)
                 && EventFits(w, s, s'.trace[|s.trace|], s')
  {
    hide Fail, C.AfterSuccess, H.Mark, Interpret, C.AfterFailure;
    var id, at := IdOf(m, keyId), w.clock(s.tick);
    var healthAt, saved := w.clock(s.tick + 1), w.saved(s.calls + 1);
    C.ApplyOne(s.limits, C.Asked(id, at));
    C.ApplyTwo(s.limits, C.Asked(id, at), C.Succeeded(id));
    if id !in s.skipKeys && !C.IsCooling(s.limits, id, at) {
      match Interpret(req.mode, m, w.reply(s.calls))
      case Text(_) =>
      case Silent =>
      case Raises(msg) => FailFits(w, req, m, s, keyId, msg);
    }
  }

  // ----- One event keeps the lasting invariant -----

  lemma {:induction false} OpsNext(history: seq<Happening>, h: Happening)
    ensures Ops(history + [h]) == Ops(history) + OpsOf(h)
  {
    assert (history + [h])[..|history|] == history;
  }

  lemma {:induction false} FullNext(past: seq<Happening>, s: State, e: Event, s': State)
    requires s'.trace == s.trace + [e]
    ensures Full(past, s') == Full(past, s) + [Tried(e)]
  {
  }

  lemma {:induction false} OpsInTime(ops: seq<C.Op>, e: Event, time: real, later: real)
    requires C.InTimeOrder(ops) && C.NotAfter(ops, time) && e.at == time <= later
    requires e.Called? && e.result.Failed? ==> e.at <= e.result.coolAt <= later
    ensures C.InTimeOrder(ops + OpsOf(Tried(e))) && C.NotAfter(ops + OpsOf(Tried(e)), later)
  {
    hide H.IsRetryable;
  }

  lemma {:induction false} LimitsNext(w: World, past: seq<Happening>, s: State, e: Event, s': State)
    requires ForwardClock(w) && LimitsMatch(s.limits, Full(past, s), w.clock(s.tick)) && EventFits(w, s, e, s')
    ensures LimitsMatch(s'.limits, Full(past, s) + [Tried(e)], w.clock(s'.tick))
  {
    hide OpsOf, Full, C.InTimeOrder, C.NotAfter, C.ApplyAll, C.Run, C.IsCooling;
    OpsNext(Full(past, s), Tried(e));
    C.RunAppends(Ops(Full(past, s)), OpsOf(Tried(e)));
    OpsInTime(Ops(Full(past, s)), e, w.clock(s.tick), w.clock(s'.tick));
  }

  lemma {:induction false} LastRecordNext(history: seq<Happening>, h: Happening, keyId: nat)
    ensures LastRecord(history + [h], keyId)
         == if h.Id().keyId == keyId && RecordOf(h).Recorded? then RecordOf(h) else LastRecord(history, keyId)
  {
    assert (history + [h])[..|history|] == history;
  }

  lemma {:induction false} RowsNext(start: seq<H.KeyRow>, rows: seq<H.KeyRow>, history: seq<Happening>, e: Event)
    requires RowsMatch(start, rows, history)
    ensures RowsMatch(start, RowsAfter(rows, e), history + [Tried(e)])
  {
    hide RecordOf, LastRecord;
    var rows' := RowsAfter(rows, e);
    forall i | 0 <= i < |start| ensures RowMatches(start[i], rows'[i], LastRecord(history + [Tried(e)], start[i].id)) {
      LastRecordNext(history, Tried(e), start[i].id);
      assert RowMatches(start[i], rows[i], LastRecord(history, start[i].id));
    }
  }

  /** A happening is rightly timed if the cooldowns at the time say so. */
  lemma {:induction false} TimedNext(limits: C.Limits, history: seq<Happening>, h: Happening)
    requires LimitsMatch(limits, history, h.At()) && AllTimed(history)
    requires h.IsCall() <==> !C.IsCooling(limits, h.Id(), h.At())
    ensures AllTimed(history + [h])
  {
    hide C.Run, C.LastExpiry, Ops, C.IsCooling;
    var more := history + [h];
    C.CoolingIffLastFailureSays(Ops(history), h.Id(), h.At());
    forall j: nat | j < |more| ensures RightlyTimed(more, j) {
      if j < |history| {
        assert RightlyTimed(history, j);
        assert more[..j] == history[..j] && more[j] == history[j];
      } else {
        assert more[..j] == history && more[j] == h;
      }
    }
  }

  /** A call is not on a benched key if the row at the time says so. */
  lemma {:induction false} UnbenchedNext(start: seq<H.KeyRow>, rows: seq<H.KeyRow>, history: seq<Happening>,
                                         h: Happening,
                                         i: nat, queried: real)
    requires RowsMatch(start, rows, history) && AllUnbenched(history)
    requires h.IsCall() ==> i < |rows| && rows[i].id == h.Id().keyId && queried <= h.At()
    requires h.IsCall() ==> if h.Tried? then H.Usable(rows[i], queried) else rows[i].status != H.Error
    ensures AllUnbenched(history + [h])
  {
    hide LastRecord;
    var more := history + [h];
    if h.IsCall() {
      assert RowMatches(start[i], rows[i], LastRecord(history, start[i].id));
    }
    forall j: nat | j < |more| ensures UnbenchedCall(more, j) {
      if j < |history| {
        assert UnbenchedCall(history, j);
        assert more[..j] == history[..j] && more[j] == history[j];
      } else {
        assert more[..j] == history && more[j] == h;
      }
    }
  }

  lemma {:induction false} KeyLasts(w: World, req: Request, m: Model, keyId: nat, s: State, start: seq<H.KeyRow>,
                                    past: seq<Happening>, queried: real)
    requires ForwardClock(w) && Lasting(w, start, past, s) && Queried(w, s, keyId, queried)
    ensures Lasting(w, start, past, TryKey(w, req, m, keyId, s).0)
  {
    hide TryKey, LimitsMatch, RowsMatch, AllTimed, AllUnbenched, Full, ForwardClock;
    KeyFits(w, req, m, keyId, s);
    var s' := TryKey(w, req, m, keyId, s).0;
    if s'.trace != s.trace {
      var e := s'.trace[|s.trace|];
      FullNext(past, s, e, s');
      LimitsNext(w, past, s, e, s');
      RowsNext(start, s.rows, Full(past, s), e);
      TimedNext(s.limits, Full(past, s), Tried(e));
      var i :| 0 <= i < |s.rows| && s.rows[i].id == keyId && H.Usable(s.rows[i], queried);
      UnbenchedNext(start, s.rows, Full(past, s), Tried(e), i, queried);
    }
  }

  // ----- The loops keep it -----

  lemma {:induction false} OtherKeysStayQueried(w: World, req: Request, m: Model, keyId: nat, s: State, other: nat,
                                                queried: real)
    requires ForwardClock(w) && other != keyId && Queried(w, s, other, queried)
    ensures Queried(w, TryKey(w, req, m, keyId, s).0, other, queried)
  {
    hide TryKey;
    KeyFits(w, req, m, keyId, s);
    var s' := TryKey(w, req, m, keyId, s).0;
    var i :| 0 <= i < |s.rows| && s.rows[i].id == other && H.Usable(s.rows[i], queried);
    if s'.trace != s.trace {
      assert s'.rows[i] == s.rows[i];
    }
  }

  ghost predicate Distinct(ids: seq<nat>) {
    forall i, j :: 0 <= i < j < |ids| ==> ids[i] != ids[j]
  }

  lemma {:induction false} KeysLast(w: World, req: Request, m: Model, ids: seq<nat>, s: State, start: seq<H.KeyRow>,
                                    past: seq<Happening>, queried: real)
    requires ForwardClock(w) && Lasting(w, start, past, s) && Distinct(ids)
    requires forall id :: id in ids ==> Queried(w, s, id, queried)
    ensures Lasting(w, start, past, TryKeys(w, req, m, ids, s).0)
  {
    hide TryKey, Lasting, Queried, ForwardClock;
    if ids != [] {
      KeyLasts(w, req, m, ids[0], s, start, past, queried);
      var (s', v) := TryKey(w, req, m, ids[0], s);
      if v.NextKey? {
        forall id | id in ids[1..] ensures Queried(w, s', id, queried) {
          OtherKeysStayQueried(w, req, m, ids[0], s, id, queried);
        }
        KeysLast(w, req, m, ids[1..], s', start, past, queried);
      }
    }
  }

  lemma {:induction false} DistinctCons(id: nat, ids: seq<nat>)
    requires Distinct(ids) && id !in ids
    ensures Distinct([id] + ids)
  {
    var all := [id] + ids;
    forall i, j | 0 <= i < j < |all| ensures all[i] != all[j] {
      assert all[j] == ids[j - 1];
      if i > 0 { assert all[i] == ids[i - 1]; }
    }
  }

  lemma {:induction false} UsableIdsAreDistinct(rows: seq<H.KeyRow>, platform: string, now: real)
    requires UniqueIds(rows)
    ensures Distinct(UsableIds(rows, platform, now))
  {
    hide Distinct;
    if rows == [] {
      NoneAreDistinct();
    } else {
      var rest := rows[1..];
      assert forall i :: 0 < i < |rows| ==> rows[i] == rest[i - 1];
      UsableIdsAreDistinct(rest, platform, now);
      UsableIdsMeaning(rest, platform, now);
      var ids := UsableIds(rest, platform, now);
      forall id | id in ids ensures id != rows[0].id {
        var i :| 0 <= i < |rest| && rest[i].id == id;
        assert rows[i + 1] == rest[i];
      }
      DistinctCons(rows[0].id, ids);
    }
  }

  lemma {:induction false} NoneAreDistinct()
    ensures Distinct([])
  {
  }

  lemma {:induction false} MatchedRowsAreUnique(start: seq<H.KeyRow>, rows: seq<H.KeyRow>, history: seq<Happening>)
    requires UniqueIds(start) && RowsMatch(start, rows, history)
    ensures UniqueIds(rows)
  {
    hide LastRecord;
    forall i | 0 <= i < |rows| ensures rows[i].id == start[i].id {
      assert RowMatches(start[i], rows[i], LastRecord(history, start[i].id));
    }
  }

  lemma {:induction false} QueryGivesQueried(w: World, s: State, platform: string, tick: nat)
    requires ForwardClock(w) && tick <= s.tick
    ensures forall id :: id in UsableIds(s.rows, platform, w.clock(tick)) ==> Queried(w, s, id, w.clock(tick))
  {
    UsableIdsMeaning(s.rows, platform, w.clock(tick));
  }

  lemma {:induction false} TickLasts(w: World, s: State, start: seq<H.KeyRow>,
                                     past: seq<Happening>)
    requires ForwardClock(w) && Lasting(w, start, past, s)
    ensures Lasting(w, start, past, s.(tick := s.tick + 1))
  {
    hide RowsMatch, AllTimed, AllUnbenched;
  }

  lemma {:induction false} ModelsLast(w: World, req: Request, deadline: real, models: seq<Model>, s: State,
                                      start: seq<H.KeyRow>,
                                     past: seq<Happening>)
    requires ForwardClock(w) && UniqueIds(start) && Lasting(w, start, past, s)
    ensures Lasting(w, start, past, TryModels(w, req, deadline, models, s).0)
  {
    hide TryKeys, UsableIds, Full, LimitsMatch, RowsMatch, AllTimed, AllUnbenched, Queried, ForwardClock, UniqueIds,
         Passed;
    if models != [] {
      var m, s1 := models[0], s.(tick := s.tick + 1);
      TickLasts(w, s, start, past);
      if w.clock(s.tick) <= deadline {
        if Passed(req, m, s1) {
          ModelsLast(w, req, deadline, models[1..], s1, start, past);
        } else {
          var queried, s2 := w.clock(s1.tick), s1.(tick := s1.tick + 1);
          var ids := UsableIds(s1.rows, m.platform, queried);
          TickLasts(w, s1, start, past);
          MatchedRowsAreUnique(start, s2.rows, Full(past, s2));
          UsableIdsAreDistinct(s2.rows, m.platform, queried);
          QueryGivesQueried(w, s2, m.platform, s1.tick);
          KeysLast(w, req, m, ids, s2, start, past, queried);
          var (s3, v) := TryKeys(w, req, m, ids, s2);
          if !v.Done? {
            ModelsLast(w, req, deadline, models[1..], s3, start, past);
          }
        }
      }
    }
  }

  lemma {:induction false} AttemptsLast(w: World, req: Request, deadline: real, attempt: nat, s: State,
                                        start: seq<H.KeyRow>,
                                     past: seq<Happening>)
    requires ForwardClock(w) && UniqueIds(start) && Lasting(w, start, past, s)
    ensures Lasting(w, start, past, TryAttempts(w, req, deadline, attempt, s).0)
    decreases req.maxRetries - attempt
  {
    hide TryModels, Lasting, ForwardClock, UniqueIds;
    if attempt < req.maxRetries {
      ModelsLast(w, req, deadline, req.models, s, start, past);
      var (s', r) := TryModels(w, req, deadline, req.models, s);
      if !r.Answer? {
        AttemptsLast(w, req, deadline, attempt + 1, s', start, past);
      }
    }
  }

  lemma {:induction false} RequestLasts(w: World, req: Request, s: State, start: seq<H.KeyRow>, past: seq<Happening>)
    requires ForwardClock(w) && UniqueIds(start) && Lasting(w, start, past, s)
    ensures Lasting(w, start, past, Route(w, req, s).0)
  {
    hide TryAttempts, LimitsMatch, RowsMatch, AllTimed, AllUnbenched, ForwardClock, UniqueIds;
    TickLasts(w, Fresh(s), start, past);
    if !(req.deep && req.models == []) {
      AttemptsLast(w, req, w.clock(s.tick) + OVERALL_BUDGET_S, 0, Fresh(s).(tick := s.tick + 1), start, past);
    }
  }

  // ----- A relay keeps it -----

  function LiftRelay(log: seq<R.Segment>): seq<Happening> {
    seq(|log|, k requires 0 <= k < |log| => Relayed(log[k]))
  }

  /** What the relay sees while it runs: a clock that goes on from here, and the key table as it is. */
  function RelayWorld(w: World, tick: nat, rows: seq<H.KeyRow>, script: nat -> R.Script): R.World {
    R.World((n: nat) => w.clock(tick + n), _ => rows, script)
  }

  lemma {:induction false} RelayOpsAppend(past: seq<Happening>, log: seq<R.Segment>)
    ensures Ops(past + LiftRelay(log)) == Ops(past) + L.Ops(log)
  {
    hide OpsOf, L.OpsOf;
    if log == [] {
      assert past + LiftRelay(log) == past;
    } else {
      var front, last := log[..|log| - 1], log[|log| - 1];
      RelayOpsAppend(past, front);
      assert past + LiftRelay(log) == (past + LiftRelay(front)) + [Relayed(last)];
      OpsNext(past + LiftRelay(front), Relayed(last));
      RelayedOps(last);
      assert Ops(past) + (L.Ops(front) + L.OpsOf(last)) == (Ops(past) + L.Ops(front)) + L.OpsOf(last);
    }
  }

  lemma {:induction false} RelayedOps(g: R.Segment)
    ensures OpsOf(Relayed(g)) == L.OpsOf(g)
  {
  }

  /** Operations in order up to `now` go on in order with operations in order from `now`. */
  lemma {:induction false} OrderJoins(a: seq<C.Op>, b: seq<C.Op>, now: real, later: real)
    requires C.InTimeOrder(a) && C.NotAfter(a, now) && C.InTimeOrder(b) && L.NotBefore(b, now) && C.NotAfter(b, later)
    requires now <= later
    ensures C.InTimeOrder(a + b) && C.NotAfter(a + b, later)
  {
  }

  /** What was in order up to a call, was so when its key was looked at. */
  lemma {:induction false} OrderBefore(log: seq<R.Segment>, k: nat, from: real)
    requires k < |log| && C.InTimeOrder(L.Ops(log)) && L.NotBefore(L.Ops(log), from)
    ensures C.InTimeOrder(L.Ops(log[..k])) && C.NotAfter(L.Ops(log[..k]), log[k].at) && from <= log[k].at
    ensures L.NotBefore(L.Ops(log[..k]), from)
  {
    OpsPrefix(log, k + 1);
    assert log[..k + 1][..k] == log[..k] && log[..k + 1][k] == log[k];
    var ops, all := L.Ops(log[..k]), L.Ops(log);
    assert all[|ops|] == C.Asked(R.Triple(log[k].model, log[k].keyId), log[k].at);
    assert forall i :: 0 <= i < |ops| ==> ops[i] == all[i];
  }

  lemma {:induction false} OpsPrefix(log: seq<R.Segment>, k: nat)
    requires k <= |log|
    ensures L.Ops(log[..k]) <= L.Ops(log)
  {
    hide L.OpsOf;
    if k == |log| {
      assert log[..k] == log;
    } else {
      var front := log[..|log| - 1];
      assert front[..k] == log[..k];
      OpsPrefix(front, k);
    }
  }

  /** The first `k` calls of a relay keep the invariant. */
  lemma {:induction false} CallsLast(start: seq<H.KeyRow>, rows: seq<H.KeyRow>, past: seq<Happening>, limits: C.Limits,
                                     now: real, log: seq<R.Segment>, k: nat)
    requires k <= |log| && RowsMatch(start, rows, past) && AllTimed(past) && AllUnbenched(past)
    requires LimitsMatch(limits, past, now)
    requires C.InTimeOrder(L.Ops(log)) && L.NotBefore(L.Ops(log), now) && L.AllWarm(limits, log)
    requires forall j :: 0 <= j < |log| ==> L.HasLive(rows, log[j].keyId, log[j].model.platform)
    ensures var history := past + LiftRelay(log[..k]);
            RowsMatch(start, rows, history) && AllTimed(history) && AllUnbenched(history)
  {
    hide RowsMatch, AllTimed, AllUnbenched, C.IsCooling, C.Run, C.ApplyAll, C.InTimeOrder, C.NotAfter, L.NotBefore,
         Ops, L.Ops, L.AllWarm;
    if k == 0 {
      assert past + LiftRelay(log[..0]) == past;
    } else {
      var front, g := log[..k - 1], log[k - 1];
      CallsLast(start, rows, past, limits, now, log, k - 1);
      var history := past + LiftRelay(front);
      assert past + LiftRelay(log[..k]) == history + [Relayed(g)];
      OrderBefore(log, k - 1, now);
      OrderJoins(Ops(past), L.Ops(front), now, g.at);
      RelayOpsAppend(past, front);
      C.RunAppends(Ops(past), L.Ops(front));
      CallIsWarm(limits, log, k - 1);
      TimedNext(C.ApplyAll(limits, L.Ops(front)), history, Relayed(g));
      var i :| 0 <= i < |rows| && L.IsLive(rows[i], g.keyId, g.model.platform);
      UnbenchedNext(start, rows, history, Relayed(g), i, g.at);
      RelayWritesNothing(start, rows, history, g);
    }
  }

  lemma {:induction false} CallIsWarm(limits: C.Limits, log: seq<R.Segment>, k: nat)
    requires k < |log| && L.AllWarm(limits, log)
    ensures !C.IsCooling(C.ApplyAll(limits, L.Ops(log[..k])), Relayed(log[k]).Id(), log[k].at)
  {
    assert L.WarmCall(limits, log, k);
  }

  lemma {:induction false} RelayWritesNothing(start: seq<H.KeyRow>, rows: seq<H.KeyRow>, history: seq<Happening>,
                                              g: R.Segment)
    requires RowsMatch(start, rows, history)
    ensures RowsMatch(start, rows, history + [Relayed(g)])
  {
    hide LastRecord;
    forall i | 0 <= i < |start| ensures RowMatches(start[i], rows[i], LastRecord(history + [Relayed(g)], start[i].id)) {
      LastRecordNext(history, Relayed(g), start[i].id);
      assert RowMatches(start[i], rows[i], LastRecord(history, start[i].id));
    }
  }

  // ----- Whole runs -----

  /** What outlives a request. */
  datatype Service = Service(limits: C.Limits, rows: seq<H.KeyRow>, tick: nat, calls: nat, history: seq<Happening>)

  /** A router request, or a Deep Research relay and what its calls stream. */
  datatype Job = ToRouter(request: Request) | ToRelay(research: R.Request, script: nat -> R.Script)

  function StateOf(v: Service): State {
    State(v.limits, v.rows, v.tick, v.calls, [], {}, {}, {}, map[])
  }

  function AfterJob(w: World, job: Job, v: Service): Service {
    match job
    case ToRouter(req) =>
      var s := Route(w, req, StateOf(v)).0;
      Service(s.limits, s.rows, s.tick, s.calls, v.history + Lift(s.trace))
    case ToRelay(req, script) =>
      if req.models == [] then v
      else
        var s := R.Run(RelayWorld(w, v.tick, v.rows, script), req, v.limits);
        Service(s.limits, v.rows, v.tick + s.tick, v.calls, v.history + LiftRelay(s.log))
  }

  /** Jobs of either kind, served one after another from an empty cooldown table. */
  function Serve(w: World, jobs: seq<Job>, rows: seq<H.KeyRow>): Service {
    if jobs == [] then Service(C.Limits(map[], map[]), rows, 0, 0, [])
    else AfterJob(w, jobs[|jobs| - 1], Serve(w, jobs[..|jobs| - 1], rows))
  }

  ghost predicate Lasts(w: World, start: seq<H.KeyRow>, v: Service) {
    && LimitsMatch(v.limits, v.history, w.clock(v.tick)) && RowsMatch(start, v.rows, v.history)
    && AllTimed(v.history) && AllUnbenched(v.history)
  }

  lemma {:induction false} RouterJobLasts(w: World, req: Request, start: seq<H.KeyRow>, v: Service)
    requires ForwardClock(w) && UniqueIds(start) && Lasts(w, start, v)
    ensures Lasts(w, start, AfterJob(w, ToRouter(req), v))
  {
    hide Route, LimitsMatch, RowsMatch, AllTimed, AllUnbenched, ForwardClock, UniqueIds;
    assert Full(v.history, StateOf(v)) == v.history;
    RequestLasts(w, req, StateOf(v), start, v.history);
  }

  lemma {:induction false} RelayJobLasts(w: World, req: R.Request, script: nat -> R.Script, start: seq<H.KeyRow>,
                                         v: Service)
    requires ForwardClock(w) && Lasts(w, start, v) && req.models != []
    ensures Lasts(w, start, AfterJob(w, ToRelay(req, script), v))
  {
    hide R.Run, RowsMatch, AllTimed, AllUnbenched, C.Run, C.ApplyAll, C.InTimeOrder, C.NotAfter, L.NotBefore,
         L.AllWarm, Ops, L.Ops, L.HasLive, R.LiveIds, C.IsCooling;
    var world := RelayWorld(w, v.tick, v.rows, script);
    ClockGoesOn(w, v.tick, v.rows, script);
    L.RunIsToldByItsCalls(world, req, v.limits);
    var s := R.Run(world, req, v.limits);
    forall k | 0 <= k < |s.log| ensures L.HasLive(v.rows, s.log[k].keyId, s.log[k].model.platform) {
      L.CallsUseReadyKeys(world, req, v.limits, k);
    }
    CallsLast(start, v.rows, v.history, v.limits, w.clock(v.tick), s.log, |s.log|);
    assert s.log[..|s.log|] == s.log;
    RelayOpsAppend(v.history, s.log);
    C.RunAppends(Ops(v.history), L.Ops(s.log));
    OrderJoins(Ops(v.history), L.Ops(s.log), w.clock(v.tick), w.clock(v.tick + s.tick));
  }

  lemma {:induction false} ClockGoesOn(w: World, tick: nat, rows: seq<H.KeyRow>, script: nat -> R.Script)
    requires ForwardClock(w)
    ensures RelayRuns.ForwardClock(RelayWorld(w, tick, rows, script))
  {
  }

  /** Whatever jobs are served: cooldowns and key rows are those that the history gives, every call was to a
      triple not cooling by the full history, every key passed over was cooling by it, and no call was to a
      benched key. */
  lemma {:induction false} ServingLasts(w: World, jobs: seq<Job>, rows: seq<H.KeyRow>)
    requires ForwardClock(w) && UniqueIds(rows)
    ensures Lasts(w, rows, Serve(w, jobs, rows))
  {
    if jobs != [] {
      hide AfterJob, Lasts, ForwardClock, UniqueIds;
      var before, job := jobs[..|jobs| - 1], jobs[|jobs| - 1];
      ServingLasts(w, before, rows);
      JobLasts(w, job, rows, Serve(w, before, rows));
    }
  }

  lemma {:induction false} JobLasts(w: World, job: Job, start: seq<H.KeyRow>, v: Service)
    requires ForwardClock(w) && UniqueIds(start) && Lasts(w, start, v)
    ensures Lasts(w, start, AfterJob(w, job, v))
  {
    hide Route, R.Run, Lasts, ForwardClock, UniqueIds;
    match job
    case ToRouter(req) => RouterJobLasts(w, req, start, v);
    case ToRelay(req, script) =>
      if req.models != [] {
        RelayJobLasts(w, req, script, start, v);
      }
  }

  // ----- Main results -----

  /** The cooldown that a happening sets: none, or from which time. */
  datatype Cooldown = NoCooldown | CoolsFrom(time: real)

  function CooldownOf(h: Happening): Cooldown {
    match h
    case Tried(e) => if Cools(e) then CoolsFrom(e.result.coolAt) else NoCooldown
    case Relayed(g) =>
      if !g.script.ending.Ended? && H.IsRetryable(R.ErrorOf(g.model, g.script.ending))
      then CoolsFrom(g.overAt)
      else NoCooldown
  }

  lemma {:induction false} ExpiryOfLastFailure(history: seq<Happening>, i: nat, j: nat, id: C.Triple)
    requires i < j <= |history| && CooldownOf(history[i]).CoolsFrom? && history[i].Id() == id
    requires forall k :: i < k < j ==> !(CooldownOf(history[k]).CoolsFrom? && history[k].Id() == id)
    ensures C.LastExpiry(Ops(history[..j]), id)
         == C.Until(CooldownOf(history[i]).time + C.Duration(C.Walk(Ops(history[..i + 1]), id)))
  {
    hide Ops, OpsOf, CooldownOf, C.LastExpiry, C.Walk, C.Duration;
    var front, h := history[..j - 1], history[j - 1];
    assert history[..j] == front + [h];
    OpsNext(front, h);
    if j == i + 1 {
      assert history[..i + 1] == history[..j];
      ExpiryOfFailure(Ops(front), h);
    } else {
      ExpiryOfLastFailure(history, i, j - 1, id);
      ExpirySkips(Ops(front), h, id);
    }
  }

  lemma {:induction false} ExpiryOfFailure(ops: seq<C.Op>, h: Happening)
    requires CooldownOf(h).CoolsFrom?
    ensures C.LastExpiry(ops + OpsOf(h), h.Id())
         == C.Until(CooldownOf(h).time + C.Duration(C.Walk(ops + OpsOf(h), h.Id())))
  {
    hide C.Walk, H.IsRetryable;
    var asked := ops + [C.Asked(h.Id(), h.At())];
    assert ops + OpsOf(h) == asked + [C.Failed(h.Id(), CooldownOf(h).time)];
  }

  lemma {:induction false} ExpirySkips(ops: seq<C.Op>, h: Happening, id: C.Triple)
    requires !(CooldownOf(h).CoolsFrom? && h.Id() == id)
    ensures C.LastExpiry(ops + OpsOf(h), id) == C.LastExpiry(ops, id)
  {
    hide H.IsRetryable, C.LastExpiry;
    C.WalkWithoutFailures(ops, OpsOf(h), id);
  }

  /** Over any run with a forward clock, no call starts on a triple within 90, 600 or 86400 seconds of its
      last cooldown, as picked by the failure/success walk up to that failure, whichever of router and relay
      made the calls. */
  lemma {:induction false} NoCallWhileCooling(w: World, jobs: seq<Job>, rows: seq<H.KeyRow>, i: nat, j: nat)
    requires ForwardClock(w) && UniqueIds(rows)
    requires i < j < |Serve(w, jobs, rows).history|
    requires var t := Serve(w, jobs, rows).history;
             && CooldownOf(t[i]).CoolsFrom? && t[j].IsCall() && t[j].Id() == t[i].Id()
             && forall k :: i < k < j ==> !(CooldownOf(t[k]).CoolsFrom? && t[k].Id() == t[i].Id())
    ensures var t := Serve(w, jobs, rows).history;
            var failures := C.Walk(Ops(t[..i + 1]), t[i].Id());
            t[j].At() > CooldownOf(t[i]).time + if failures <= 1 then 90.0 else if failures <= 3 then 600.0 else 86400.0
  {
    hide Serve, LimitsMatch, RowsMatch, AllUnbenched, Ops, C.LastExpiry, CooldownOf;
    ServingLasts(w, jobs, rows);
    var t := Serve(w, jobs, rows).history;
    ExpiryOfLastFailure(t, i, j, t[i].Id());
    assert RightlyTimed(t, j);
  }

  lemma {:induction false} LastRecordStays(history: seq<Happening>, i: nat, j: nat, keyId: nat)
    requires i < j <= |history| && history[i].Id().keyId == keyId && RecordOf(history[i]).Recorded?
    requires forall k :: i < k < j ==> !(history[k].Id().keyId == keyId && RecordOf(history[k]).Recorded?)
    ensures LastRecord(history[..j], keyId) == RecordOf(history[i])
  {
    var front, h := history[..j - 1], history[j - 1];
    assert history[..j] == front + [h];
    LastRecordNext(front, h, keyId);
    if j > i + 1 {
      LastRecordStays(history, i, j - 1, keyId);
    }
  }

  /** Nor does a call start, for any model, on a key that was marked dead at most 30 minutes earlier and
      whose row nothing has updated since; a relay does not call such a key at any later time either. */
  lemma {:induction false} NoCallOnBenchedKey(w: World, jobs: seq<Job>, rows: seq<H.KeyRow>, i: nat, j: nat)
    requires ForwardClock(w) && UniqueIds(rows)
    requires i < j < |Serve(w, jobs, rows).history|
    requires var t := Serve(w, jobs, rows).history;
             && RecordOf(t[i]).Recorded? && RecordOf(t[i]).status == H.Error
             && t[j].IsCall() && t[j].Id().keyId == t[i].Id().keyId
             && forall k :: i < k < j ==> !(t[k].Id().keyId == t[i].Id().keyId && RecordOf(t[k]).Recorded?)
    ensures var t := Serve(w, jobs, rows).history;
            t[j].Tried? && t[j].At() > RecordOf(t[i]).at + 1800.0
  {
    hide Serve, LimitsMatch, RowsMatch, AllTimed, LastRecord, RecordOf;
    ServingLasts(w, jobs, rows);
    var t := Serve(w, jobs, rows).history;
    LastRecordStays(t, i, j, t[i].Id().keyId);
    assert UnbenchedCall(t, j);
  }

  /** The stored failure counts are, at any time, the failure/success walk reflected at 0 of the triple's
      calls so far, and no stored count is 0. */
  lemma {:induction false} CountsAreWalks(w: World, jobs: seq<Job>, rows: seq<H.KeyRow>, id: C.Triple)
    requires ForwardClock(w) && UniqueIds(rows)
    ensures var v := Serve(w, jobs, rows);
            && C.FailuresOf(v.limits, id) == C.Walk(Ops(v.history), id)
            && (id in v.limits.failures ==> v.limits.failures[id] >= 1)
  {
    hide Serve, RowsMatch, AllTimed, AllUnbenched;
    ServingLasts(w, jobs, rows);
    C.CountIsReflectedWalk(Ops(Serve(w, jobs, rows).history), id);
  }
}
