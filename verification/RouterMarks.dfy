/** Where each event of a request stands: in which pass, at which listed model and which key, after which look
    at the deadline, and which reply of the provider it took. */
module RouterMarks {
  import opened Text
  import opened Router
  import opened RouterRequest
  import C = Cooldowns
  import H = KeyHealth

  /** A turn of a key: the pass over the models, the places of the model in the list and of the key in the
      table, and the clock reading that was compared with the deadline for this model. */
  datatype Spot = Spot(pass: nat, place: nat, row: nat, check: nat)

  /** The turn of an event, the clock reading of its cooldown test, and how many provider calls came before. */
  datatype Mark = Mark(spot: Spot, tick: nat, call: nat)

  // ----- What one event says -----

  /** What a call records, told by the reply it got: an answer has text, not only white space when it is
      awaited whole; nothing but an error, or a blank whole answer, is a failure; and the failure says about
      the key what its message says, if that could be saved. */
  ghost predicate Tells(w: World, mode: Mode, m: Model, call: nat, result: CallResult) {
    var reply := w.reply(call);
    match result
    case Answered(saved, _) => HasAnswer(mode, reply) && saved == w.saved(call + 1)
    case Empty => mode.Stream? && !reply.Raises? && !HasAnswer(mode, reply)
    case Failed(msg, found, _, _) =>
      && (if reply.Raises? then msg == reply.msg
          else mode.Chat? && !HasAnswer(mode, reply) && msg == "empty response from " + m.name)
      && found == if w.saved(call + 1) then H.Classify(msg) else H.Nothing
  }

  predicate HasAnswer(mode: Mode, reply: Reply) {
    && reply.Text? && reply.content != ""
    && (mode.Chat? ==> exists i :: 0 <= i < |reply.content| && !IsSpace(reply.content[i]))
  }

  predicate IsAnswer(e: Event) {
    e.Called? && e.result.Answered?
  }

  /** A failure after which the model gets no further call: a dead key, an error not worth retrying, a quota
      error, or a model the provider does not know. */
  predicate Leaves(e: Event) {
    e.Called? && e.result.Failed?
    && (e.result.found == H.DeadKey || !H.IsRetryable(e.result.msg) || H.IsQuota(e.result.msg)
        || H.IsNotFound(e.result.msg))
  }

  /** The event is about the model and the key of its turn, which belong together, and the deadline had not
      passed. */
  ghost predicate Fits(w: World, req: Request, rows: seq<H.KeyRow>, deadline: real, e: Event, k: Mark) {
    && k.spot.place < |req.models| && k.spot.row < |rows|
    && var m, row := req.models[k.spot.place], rows[k.spot.row];
    && e.id == C.Triple(m.platform, m.modelId, row.id)
    && row.platform == m.platform && row.enabled && m.platform in req.registered
    && k.spot.check < k.tick && w.clock(k.spot.check) <= deadline && e.at == w.clock(k.tick)
    && (e.Called? ==> Tells(w, req.mode, m, k.call, e.result))
  }

  // ----- The order of events -----

  predicate SameTurn(a: Spot, b: Spot) {
    a.pass == b.pass && a.place == b.place
  }

  /** Passes go up, places go up within a pass, and keys go up within a place. */
  predicate Precedes(a: Spot, b: Spot) {
    || a.pass < b.pass
    || (a.pass == b.pass && a.place < b.place)
    || (SameTurn(a, b) && a.row < b.row)
  }

  /** The deadline is looked at once for each model of each pass, after all that went before. */
  predicate Behind(a: Mark, spot: Spot) {
    Precedes(a.spot, spot) && if SameTurn(a.spot, spot) then a.spot.check == spot.check else a.tick < spot.check
  }

  predicate Follows(a: Mark, b: Mark) {
    Behind(a, b.spot) && a.tick < b.tick
  }

  /** How many of the events are provider calls. */
  function CallsIn(t: seq<Event>): nat {
    if t == [] then 0 else CallsIn(t[..|t| - 1]) + if t[|t| - 1].Called? then 1 else 0
  }

  // ----- The marks of a trace -----

  ghost predicate AllFit(w: World, req: Request, rows: seq<H.KeyRow>, deadline: real, t: seq<Event>, marks: seq<Mark>) {
    |marks| == |t| && forall j :: 0 <= j < |t| ==> Fits(w, req, rows, deadline, t[j], marks[j])
  }

  ghost predicate InOrder(marks: seq<Mark>) {
    forall i, j :: 0 <= i < j < |marks| ==> Follows(marks[i], marks[j])
  }

  /** Every provider call of the request takes the next reply. */
  ghost predicate CallsCounted(base: nat, t: seq<Event>, marks: seq<Mark>) {
    |marks| == |t| && forall j :: 0 <= j < |t| ==> CallsBefore(base, t, marks, j)
  }

  predicate CallsBefore(base: nat, t: seq<Event>, marks: seq<Mark>, j: nat)
    requires j < |marks| == |t|
  {
    marks[j].call == base + CallsIn(t[..j])
  }

  predicate InList(req: Request, marks: seq<Mark>) {
    forall j :: 0 <= j < |marks| ==> marks[j].spot.place < |req.models|
  }

  /** Some event left a model with this id. */
  predicate Left(req: Request, t: seq<Event>, marks: seq<Mark>, id: int)
    requires |marks| == |t| && InList(req, marks)
  {
    exists j :: 0 <= j < |t| && Leaves(t[j]) && req.models[marks[j].spot.place].id == id
  }

  /** A model that was left has no later event. */
  ghost predicate NoReturn(req: Request, t: seq<Event>, marks: seq<Mark>) {
    |marks| == |t| && InList(req, marks)
    && forall i, j :: 0 <= i < j < |t| && Leaves(t[i]) ==>
         req.models[marks[i].spot.place].id != req.models[marks[j].spot.place].id
  }

  ghost predicate Marked(w: World, req: Request, rows: seq<H.KeyRow>, deadline: real, base: nat, t: seq<Event>,
                         marks: seq<Mark>) {
    && AllFit(w, req, rows, deadline, t, marks) && InOrder(marks) && CallsCounted(base, t, marks)
    && NoReturn(req, t, marks)
  }

  /** The state agrees with the marked events. */
  ghost predicate Agrees(req: Request, rows: seq<H.KeyRow>, base: nat, t: seq<Event>, marks: seq<Mark>, s: State) {
    && |marks| == |t| && InList(req, marks)
    && s.calls == base + CallsIn(t) && SameKeys(rows, s.rows)
    && (forall id :: id in s.skipModels <==> Left(req, t, marks, id))
    && (forall j :: 0 <= j < |t| ==> marks[j].tick < s.tick)
  }

  /** The same keys, whatever is known about their health. */
  ghost predicate SameKeys(rows: seq<H.KeyRow>, rows': seq<H.KeyRow>) {
    |rows'| == |rows|
    && forall i :: 0 <= i < |rows| ==>
         rows'[i].id == rows[i].id && rows'[i].platform == rows[i].platform && rows'[i].enabled == rows[i].enabled
  }

  ghost predicate NoneAnswered(t: seq<Event>) {
    forall j :: 0 <= j < |t| ==> !IsAnswer(t[j])
  }

  // ----- One event more -----

  lemma {:induction false} CallsInNext(t: seq<Event>, e: Event)
    ensures CallsIn(t + [e]) == CallsIn(t) + if e.Called? then 1 else 0
  {
    assert (t + [e])[..|t|] == t;
  }

  lemma {:induction false} CallsCountedNext(base: nat, t: seq<Event>, marks: seq<Mark>, e: Event, k: Mark)
    requires CallsCounted(base, t, marks) && k.call == base + CallsIn(t)
    ensures CallsCounted(base, t + [e], marks + [k])
  {
    hide CallsIn;
    forall j | 0 <= j <= |t| ensures CallsBefore(base, t + [e], marks + [k], j) {
      assert (t + [e])[..j] == t[..j];
      if j < |t| {
        assert CallsBefore(base, t, marks, j);
      } else {
        assert t[..j] == t;
      }
    }
  }

  lemma {:induction false} LeftNext(req: Request, t: seq<Event>, marks: seq<Mark>, e: Event, k: Mark, id: int)
    requires |marks| == |t| && InList(req, marks) && k.spot.place < |req.models|
    ensures Left(req, t + [e], marks + [k], id)
       <==> Left(req, t, marks, id) || (Leaves(e) && req.models[k.spot.place].id == id)
  {
    hide Leaves;
    var t', marks' := t + [e], marks + [k];
    assert t'[|t|] == e && marks'[|t|] == k;
    assert forall j :: 0 <= j < |t| ==> t'[j] == t[j] && marks'[j] == marks[j];
    if Left(req, t, marks, id) {
      var j :| 0 <= j < |t| && Leaves(t[j]) && req.models[marks[j].spot.place].id == id;
      assert Leaves(t'[j]);
    }
  }

  lemma {:induction false} InOrderNext(marks: seq<Mark>, k: Mark)
    requires InOrder(marks) && forall j :: 0 <= j < |marks| ==> Follows(marks[j], k)
    ensures InOrder(marks + [k])
  {
    hide Follows;
  }

  lemma {:induction false} MarkNext(w: World, req: Request, rows: seq<H.KeyRow>, deadline: real, base: nat,
                                    t: seq<Event>, marks: seq<Mark>, s: State, e: Event, k: Mark, s': State)
    requires Marked(w, req, rows, deadline, base, t, marks) && Agrees(req, rows, base, t, marks, s)
    requires Fits(w, req, rows, deadline, e, k) && k.tick == s.tick < s'.tick && k.call == s.calls
    requires forall j :: 0 <= j < |marks| ==> Behind(marks[j], k.spot)
    requires req.models[k.spot.place].id !in s.skipModels && SameKeys(rows, s'.rows)
    requires s'.calls == s.calls + (if e.Called? then 1 else 0)
    requires s'.skipModels == s.skipModels + (if Leaves(e) then {req.models[k.spot.place].id} else {})
    ensures Marked(w, req, rows, deadline, base, t + [e], marks + [k])
    ensures Agrees(req, rows, base, t + [e], marks + [k], s')
  {
    hide Leaves, CallsIn, Behind, SameKeys, Tells, CallsBefore, CallsCounted, InOrder, Left;
    CallsInNext(t, e);
    CallsCountedNext(base, t, marks, e, k);
    InOrderNext(marks, k);
    forall id ensures id in s'.skipModels <==> Left(req, t + [e], marks + [k], id) {
      LeftNext(req, t, marks, e, k, id);
    }
    forall i | 0 <= i < |t| && Leaves(t[i])
      ensures req.models[marks[i].spot.place].id != req.models[k.spot.place].id
    {
      LeftHere(req, t, marks, i);
    }
  }

  lemma {:induction false} LeftHere(req: Request, t: seq<Event>, marks: seq<Mark>, i: nat)
    requires |marks| == |t| && InList(req, marks) && i < |t| && Leaves(t[i])
    ensures Left(req, t, marks, req.models[marks[i].spot.place].id)
  {
  }

  // ----- One key -----

  /** What the turn of one key does: nothing, or one event that says what happened. */
  ghost predicate KeyTurn(w: World, req: Request, m: Model, keyId: nat, s: State, s': State, v: Verdict) {
    if s'.trace == s.trace then s' == s && v.NextKey?
    else
      && |s'.trace| == |s.trace| + 1
      && var e := s'.trace[|s.trace|];
      && s'.trace == s.trace + [e] && e.id == C.Triple(m.platform, m.modelId, keyId)
      && e.at == w.clock(s.tick) && s.tick < s'.tick
      && s'.calls == s.calls + (if e.Called? then 1 else 0)
      && s'.skipModels == s.skipModels + (if Leaves(e) then {m.id} else {})
      && SameKeys(s.rows, s'.rows)
      && (v.LeaveModel? <==> Leaves(e)) && (v.Done? <==> IsAnswer(e))
      && (e.Called? ==> Tells(w, req.mode, m, s.calls, e.result))
      && (v.Done? ==> w.reply(s.calls) == Text(v.content))
  }

  lemma {:induction false} FailTurn(w: World, req: Request, m: Model, s: State, keyId: nat, at: real, msg: string)
    requires H.HasKey(s.rows, keyId)
    ensures var (s', v) := Fail(w, req, m, s, IdOf(m, keyId), at, msg);
            && |s'.trace| == |s.trace| + 1
            && var e := s'.trace[|s.trace|];
            && s'.trace == s.trace + [e] && e.Called? && e.result.Failed? && e.at == at && e.id == IdOf(m, keyId)
            && e.result.msg == msg && e.result.found == (if w.saved(s.calls) then H.Classify(msg) else H.Nothing)
            && s'.tick == s.tick + 2 && s'.calls == s.calls
            && s'.skipModels == s.skipModels + (if Leaves(e) then {m.id} else {}) && SameKeys(s.rows, s'.rows)
            && v == if Leaves(e) then LeaveModel else NextKey
  {
    hide H.Classify, H.IsRetryable, H.IsQuota, H.IsNotFound, C.AfterFailure, H.HasKey;
    CountingIsPrivate(req, m);
    hide CountQuota;
  }

  lemma {:induction false} KeyTakesTurn(w: World, req: Request, m: Model, keyId: nat, s: State)
    requires H.HasKey(s.rows, keyId)
    ensures KeyTurn(w, req, m, keyId, s, TryKey(w, req, m, keyId, s).0, TryKey(w, req, m, keyId, s).1)
  {
    hide Fail, C.IsCooling, C.AfterAsking, C.AfterSuccess, H.Classify, H.IsRetryable, H.IsQuota, H.IsNotFound;
    var id, now := IdOf(m, keyId), w.clock(s.tick);
    if id !in s.skipKeys && !C.IsCooling(s.limits, id, now) {
      var asked := s.(limits := C.AfterAsking(s.limits, id, now), tick := s.tick + 1, calls := s.calls + 1);
      BlankMeaning(w.reply(s.calls));
      match Interpret(req.mode, m, w.reply(s.calls))
      case Text(_) =>
      case Silent =>
      case Raises(msg) =>
        FailTurn(w, req, m, asked, keyId, now, msg);
    }
  }

  lemma {:induction false} BlankMeaning(reply: Reply)
    ensures reply.Text? ==>
      (Blank(reply.content) <==> !exists i :: 0 <= i < |reply.content| && !IsSpace(reply.content[i]))
  {
  }
}
