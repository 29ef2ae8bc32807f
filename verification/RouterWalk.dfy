/** One pass over the models, place by place: its events can be marked in order, it ends with the first answer,
    and the places before that answer are out of play or have no usable key left untried. */
module RouterWalk {
  import opened Router
  import opened RouterRequest
  import opened RouterExhaustion
  import opened RouterMarks
  import H = KeyHealth

  // ----- The keys of one model -----

  /** Every mark so far comes before the turn. */
  ghost predicate AllBehind(marks: seq<Mark>, spot: Spot) {
    forall j :: 0 <= j < |marks| ==> Behind(marks[j], spot)
  }

  /** Every mark so far belongs to an earlier place, or an earlier pass. */
  ghost predicate AllBefore(marks: seq<Mark>, pass: nat, place: nat) {
    forall j :: 0 <= j < |marks| ==>
      marks[j].spot.pass < pass || (marks[j].spot.pass == pass && marks[j].spot.place < place)
  }

  /** The marks go on from `was`, with events of this pass only. */
  ghost predicate GoesOn(was: seq<Mark>, marks: seq<Mark>, pass: nat) {
    was <= marks && forall j :: |was| <= j < |marks| ==> marks[j].spot.pass == pass
  }

  /** The trace of a request that began after `before`, with its marks. */
  ghost predicate Traced(w: World, req: Request, rows: seq<H.KeyRow>, deadline: real, base: nat, before: seq<Event>,
                         marks: seq<Mark>, s: State) {
    && |before| + |marks| == |s.trace| && s.trace[..|before|] == before
    && Marked(w, req, rows, deadline, base, s.trace[|before|..], marks)
    && Agrees(req, rows, base, s.trace[|before|..], marks, s)
  }

  /** The last event, and no other, is an answer; it is from the model at this place, and its reply was this text. */
  ghost predicate AnsweredAt(w: World, t: seq<Event>, marks: seq<Mark>, pass: nat, place: nat, content: string) {
    && 0 < |t| == |marks| && IsAnswer(t[|t| - 1]) && NoneAnswered(t[..|t| - 1])
    && var last := marks[|t| - 1];
    && last.spot.pass == pass && last.spot.place == place && w.reply(last.call) == Text(content)
  }

  lemma {:induction false} KeyIsMarked(w: World, req: Request, rows: seq<H.KeyRow>, deadline: real, base: nat,
                                       before: seq<Event>, marks: seq<Mark>, s: State, spot: Spot)
      returns (marks': seq<Mark>)
    requires Traced(w, req, rows, deadline, base, before, marks, s) && NoneAnswered(s.trace[|before|..])
    requires AllBehind(marks, spot) && spot.check < s.tick && w.clock(spot.check) <= deadline
    requires spot.place < |req.models| && spot.row < |rows|
    requires req.models[spot.place].id !in s.skipModels && req.models[spot.place].platform in req.registered
    requires rows[spot.row].platform == req.models[spot.place].platform && rows[spot.row].enabled
    ensures var (s', v) := TryKey(w, req, req.models[spot.place], rows[spot.row].id, s);
            && Traced(w, req, rows, deadline, base, before, marks', s')
            && GoesOn(marks, marks', spot.pass) && s.tick <= s'.tick
            && AllBehind(marks', spot.(row := spot.row + 1))
            && (v.NextKey? ==> req.models[spot.place].id !in s'.skipModels)
            && (if v.Done? then AnsweredAt(w, s'.trace[|before|..], marks', spot.pass, spot.place, v.content)
                else NoneAnswered(s'.trace[|before|..]))
  {
    hide TryKey, SameKeys, Marked, Agrees, Tells, Leaves;
    var m, keyId, t := req.models[spot.place], rows[spot.row].id, s.trace[|before|..];
    KeyExists(req, rows, base, t, marks, s, spot.row);
    KeyTakesTurn(w, req, m, keyId, s);
    var (s', v) := TryKey(w, req, m, keyId, s);
    marks' := marks;
    if s'.trace != s.trace {
      var e, k := s'.trace[|s.trace|], Mark(spot, s.tick, s.calls);
      assert s'.trace[|before|..] == t + [e];
      KeysStaySame(req, rows, base, t, marks, s, s'.rows);
      MarkNext(w, req, rows, deadline, base, t, marks, s, e, k, s');
      marks' := marks + [k];
      if v.Done? {
        AnswerIsLast(w, t, marks, e, k, v.content);
      }
    }
  }

  lemma {:induction false} AnswerIsLast(w: World, t: seq<Event>, marks: seq<Mark>, e: Event, k: Mark, content: string)
    requires |t| == |marks| && NoneAnswered(t) && IsAnswer(e) && w.reply(k.call) == Text(content)
    ensures AnsweredAt(w, t + [e], marks + [k], k.spot.pass, k.spot.place, content)
  {
    assert (t + [e])[..|t|] == t && (t + [e])[|t|] == e && (marks + [k])[|t|] == k;
  }

  lemma {:induction false} KeyExists(req: Request, rows: seq<H.KeyRow>, base: nat, t: seq<Event>, marks: seq<Mark>,
                                     s: State, i: nat)
    requires Agrees(req, rows, base, t, marks, s) && i < |rows|
    ensures H.HasKey(s.rows, rows[i].id)
  {
    hide Left;
    assert s.rows[i].id == rows[i].id;
  }

  lemma {:induction false} KeysStaySame(req: Request, rows: seq<H.KeyRow>, base: nat, t: seq<Event>, marks: seq<Mark>,
                                        s: State, rows': seq<H.KeyRow>)
    requires Agrees(req, rows, base, t, marks, s) && SameKeys(s.rows, rows')
    ensures SameKeys(rows, rows')
  {
    hide Left;
  }

  /** The keys that a query returned, from place `r` of the table on. */
  lemma {:induction false} KeysAreMarked(w: World, req: Request, rows: seq<H.KeyRow>, deadline: real, base: nat,
                                         before: seq<Event>, marks: seq<Mark>, s: State, spot: Spot,
                                         queried: seq<H.KeyRow>, now: real)
      returns (marks': seq<Mark>)
    requires Traced(w, req, rows, deadline, base, before, marks, s) && NoneAnswered(s.trace[|before|..])
    requires AllBehind(marks, spot) && spot.check < s.tick && w.clock(spot.check) <= deadline
    requires spot.place < |req.models| && spot.row <= |rows| && SameKeys(rows, queried)
    requires req.models[spot.place].id !in s.skipModels && req.models[spot.place].platform in req.registered
    ensures var m := req.models[spot.place];
            var (s', v) := TryKeys(w, req, m, UsableIds(queried[spot.row..], m.platform, now), s);
            && Traced(w, req, rows, deadline, base, before, marks', s')
            && GoesOn(marks, marks', spot.pass) && s.tick <= s'.tick
            && AllBefore(marks', spot.pass, spot.place + 1)
            && (if v.Done? then AnsweredAt(w, s'.trace[|before|..], marks', spot.pass, spot.place, v.content)
                else NoneAnswered(s'.trace[|before|..]))
    decreases |rows| - spot.row
  {
    hide TryKey, Traced, NoneAnswered, AnsweredAt, H.Usable;
    var m := req.models[spot.place];
    marks' := marks;
    if spot.row == |rows| {
      assert queried[spot.row..] == [];
    } else {
      var rest, next := queried[spot.row..], spot.(row := spot.row + 1);
      assert rest[0] == queried[spot.row] && rest[1..] == queried[spot.row + 1..];
      if rest[0].platform == m.platform && rest[0].enabled && H.Usable(rest[0], now) {
        var ids := UsableIds(rest[1..], m.platform, now);
        assert ([rest[0].id] + ids)[1..] == ids;
        marks' := KeyIsMarked(w, req, rows, deadline, base, before, marks, s, spot);
        var (s', v) := TryKey(w, req, m, rest[0].id, s);
        if v.NextKey? {
          marks' := KeysAreMarked(w, req, rows, deadline, base, before, marks', s', next, queried, now);
        }
      } else {
        marks' := KeysAreMarked(w, req, rows, deadline, base, before, marks, s, next, queried, now);
      }
    }
  }

  // ----- One pass over the models -----

  /** Before the event that ended the state's trace. */
  function BeforeLast(s: State): State
    requires s.trace != []
  {
    s.(trace := s.trace[..|s.trace| - 1])
  }

  lemma {:induction false} AnswerAddsOneEvent(w: World, req: Request, m: Model, keyId: nat, s: State)
    requires TryKey(w, req, m, keyId, s).1.Done?
    ensures var s' := TryKey(w, req, m, keyId, s).0; s'.trace != [] && Grows(s, BeforeLast(s'))
  {
    KeyEffect(w, req, m, keyId, s);
    KeyTicks(w, req, m, keyId, s);
    hide TryKey;
  }

  lemma {:induction false} AnswerIsAdded(w: World, req: Request, m: Model, ids: seq<nat>, s: State)
    requires TryKeys(w, req, m, ids, s).1.Done?
    ensures var s' := TryKeys(w, req, m, ids, s).0; s'.trace != [] && Grows(s, BeforeLast(s'))
  {
    hide TryKey;
    var (s', v) := TryKey(w, req, m, ids[0], s);
    if v.NextKey? {
      KeyGrows(w, req, m, ids[0], s);
      AnswerIsAdded(w, req, m, ids[1..], s');
    } else {
      AnswerAddsOneEvent(w, req, m, ids[0], s);
    }
  }

  /** The models at the first `p` places are out of play, or have no usable key left untried. */
  ghost predicate FirstSettled(req: Request, p: nat, rows: seq<H.KeyRow>, now: real, before: seq<Event>, from: nat,
                               s: State)
    requires p <= |req.models|
  {
    forall q :: 0 <= q < p ==> Settled(req, req.models[q], rows, now, before, from, s)
  }

  lemma {:induction false} FirstSettledStays(req: Request, p: nat, rows: seq<H.KeyRow>, now: real, before: seq<Event>,
                                             from: nat, s: State, s': State)
    requires p <= |req.models| && FirstSettled(req, p, rows, now, before, from, s) && Grows(s, s')
    ensures FirstSettled(req, p, rows, now, before, from, s')
  {
    hide Settled, Grows;
    forall q | 0 <= q < p ensures Settled(req, req.models[q], rows, now, before, from, s') {
      SettledStays(req, req.models[q], rows, now, before, from, s, s');
    }
  }

  /** What holds of a request between two turns of its models. */
  ghost predicate Underway(w: World, req: Request, rows: seq<H.KeyRow>, now: real, deadline: real, base: nat,
                           before: seq<Event>, marks: seq<Mark>, s: State) {
    && Traced(w, req, rows, deadline, base, before, marks, s) && NoneAnswered(s.trace[|before|..])
    && Running(req, s.trace[|before|..], s) && RowsKept(rows, now, s) && now <= w.clock(s.tick)
  }

  /** How the walk over the models of one pass can end. */
  ghost predicate WalkEnds(w: World, req: Request, rows: seq<H.KeyRow>, now: real, deadline: real, base: nat,
                           before: seq<Event>, from: nat, pass: nat, s: State, s': State, r: Walk, marks: seq<Mark>,
                           place: nat)
    requires Traced(w, req, rows, deadline, base, before, marks, s')
  {
    match r
    case Answer(content, m) =>
      && place < |req.models| && m == req.models[place] && s'.trace != []
      && AnsweredAt(w, s'.trace[|before|..], marks, pass, place, content)
      && FirstSettled(req, place, rows, now, before, from, BeforeLast(s'))
    case GoOn =>
      && Underway(w, req, rows, now, deadline, base, before, marks, s')
      && FirstSettled(req, |req.models|, rows, now, before, from, s')
    case OutOfTime =>
      && Underway(w, req, rows, now, deadline, base, before, marks, s')
      && exists n: nat :: s.tick <= n < s'.tick && w.clock(n) > deadline
  }

  lemma {:induction false} TickOn(w: World, req: Request, rows: seq<H.KeyRow>, now: real, deadline: real, base: nat,
                                  before: seq<Event>, marks: seq<Mark>, s: State)
    requires ForwardClock(w) && Underway(w, req, rows, now, deadline, base, before, marks, s)
    ensures Underway(w, req, rows, now, deadline, base, before, marks, s.(tick := s.tick + 1))
  {
    hide Marked, Always, KeysMatch, Left, SameKeys, CallsIn;
    var s' := s.(tick := s.tick + 1);
    TicksKeep(req, s.trace[|before|..], s, s');
    RowsKeptTick(rows, now, s, s');
    hide RowsKept;
  }

  /** The turn of one model that is not passed over. */
  lemma {:induction false} ModelIsWalked(w: World, req: Request, rows: seq<H.KeyRow>, now: real, deadline: real,
                                         base: nat, before: seq<Event>, from: nat, marks: seq<Mark>, pass: nat,
                                         p: nat, check: nat, s: State, queried: real)
      returns (marks': seq<Mark>)
    requires ForwardClock(w) && UniqueIds(rows) && now <= queried && p < |req.models|
    requires Underway(w, req, rows, now, deadline, base, before, marks, s) && from <= |s.trace[|before|..]|
    requires !Passed(req, req.models[p], s) && check < s.tick && w.clock(check) <= deadline
    requires AllBehind(marks, Spot(pass, p, 0, check)) && FirstSettled(req, p, rows, now, before, from, s)
    ensures var m := req.models[p];
            var (s', v) := TryKeys(w, req, m, UsableIds(s.rows, m.platform, queried), s);
            && Grows(s, s') && GoesOn(marks, marks', pass) && AllBefore(marks', pass, p + 1)
            && Traced(w, req, rows, deadline, base, before, marks', s')
            && if v.Done? then
                 WalkEnds(w, req, rows, now, deadline, base, before, from, pass, s, s', Answer(v.content, m), marks', p)
               else
                 Underway(w, req, rows, now, deadline, base, before, marks', s')
                 && FirstSettled(req, p + 1, rows, now, before, from, s')
  {
    hide TryKeys, UsableIds, Running, RowsKept, Settled, Marked, Agrees, AllBehind, AllBefore, GoesOn, AnsweredAt,
         UniqueIds, NoneAnswered;
    var m := req.models[p];
    assert s.rows[0..] == s.rows;
    StartIsSame(req, rows, base, before, marks, s, w, deadline);
    marks' := KeysAreMarked(w, req, rows, deadline, base, before, marks, s, Spot(pass, p, 0, check), s.rows, queried);
    var ids := UsableIds(s.rows, m.platform, queried);
    KeysKeep(w, req, m, ids, before, s);
    ModelIsSettled(w, req, m, before, from, s, rows, now, queried);
    var (s', v) := TryKeys(w, req, m, ids, s);
    if v.Done? {
      AnswerIsAdded(w, req, m, ids, s);
      FirstSettledStays(req, p, rows, now, before, from, s, BeforeLast(s'));
    } else {
      FirstSettledStays(req, p, rows, now, before, from, s, s');
    }
  }

  lemma {:induction false} StartIsSame(req: Request, rows: seq<H.KeyRow>, base: nat, before: seq<Event>,
                                       marks: seq<Mark>, s: State, w: World, deadline: real)
    requires Traced(w, req, rows, deadline, base, before, marks, s)
    ensures SameKeys(rows, s.rows)
  {
    hide Marked, Left;
  }

  /** With earlier places done and the deadline looked at just now, the next turn is in order. */
  lemma {:induction false} NextTurnIsBehind(w: World, req: Request, rows: seq<H.KeyRow>, deadline: real, base: nat,
                                            before: seq<Event>, marks: seq<Mark>, s: State, pass: nat, p: nat)
    requires Traced(w, req, rows, deadline, base, before, marks, s) && AllBefore(marks, pass, p)
    ensures AllBehind(marks, Spot(pass, p, 0, s.tick))
  {
    hide Marked, Left, SameKeys;
  }

  /** The models from place `p` on. */
  lemma {:induction false} ModelsAreWalked(w: World, req: Request, rows: seq<H.KeyRow>, now: real, deadline: real,
                                           base: nat, before: seq<Event>, from: nat, marks: seq<Mark>, pass: nat,
                                           p: nat, s: State)
      returns (marks': seq<Mark>, place: nat)
    requires ForwardClock(w) && UniqueIds(rows) && p <= |req.models|
    requires Underway(w, req, rows, now, deadline, base, before, marks, s) && from <= |s.trace[|before|..]|
    requires AllBefore(marks, pass, p) && FirstSettled(req, p, rows, now, before, from, s)
    ensures var (s', r) := TryModels(w, req, deadline, req.models[p..], s);
            && Grows(s, s') && GoesOn(marks, marks', pass) && AllBefore(marks', pass, |req.models|)
            && Traced(w, req, rows, deadline, base, before, marks', s')
            && WalkEnds(w, req, rows, now, deadline, base, before, from, pass, s, s', r, marks', place)
    decreases |req.models| - p
  {
    hide TryKeys, UsableIds, FirstSettled, Grows, UniqueIds, ForwardClock, Traced, RowsKept, Running, NoneAnswered,
         AllBehind, AllBefore, GoesOn, Passed;
    marks', place := marks, p;
    ModelsGrow(w, req, deadline, req.models[p..], s);
    UnderwayIsTraced(w, req, rows, now, deadline, base, before, marks, s);
    BeforeGrows(marks, pass, p, |req.models|);
    NothingGoesOn(marks, pass);
    if p < |req.models| {
      var m, s1 := req.models[p], s.(tick := s.tick + 1);
      assert req.models[p..][0] == m && req.models[p..][1..] == req.models[p + 1..];
      TickOn(w, req, rows, now, deadline, base, before, marks, s);
      if w.clock(s.tick) <= deadline {
        assert Grows(s, s1) by { TickGrows(s); }
        FirstSettledStays(req, p, rows, now, before, from, s, s1);
        if Passed(req, m, s1) {
          PassedIsSettled(req, m, rows, now, before, from, s1);
          OneMoreSettled(req, p, rows, now, before, from, s1);
          BeforeGrows(marks, pass, p, p + 1);
          marks', place := ModelsAreWalked(w, req, rows, now, deadline, base, before, from, marks, pass, p + 1, s1);
          var (s', r) := TryModels(w, req, deadline, req.models[p + 1..], s1);
          WalkBegan(w, req, rows, now, deadline, base, before, from, pass, s, s1, s', r, marks', place);
        } else {
          var queried, s2 := w.clock(s1.tick), s1.(tick := s1.tick + 1);
          TickOn(w, req, rows, now, deadline, base, before, marks, s1);
          TickGrows(s1);
          FirstSettledStays(req, p, rows, now, before, from, s1, s2);
          NextTurnIsBehind(w, req, rows, deadline, base, before, marks, s, pass, p);
          PassedIgnoresTicks(req, m, s1, s2);
          marks' := ModelIsWalked(w, req, rows, now, deadline, base, before, from, marks, pass, p, s.tick, s2, queried);
          var (s3, v) := TryKeys(w, req, m, UsableIds(s1.rows, m.platform, queried), s2);
          if !v.Done? {
            var was := marks';
            TraceGrows(before, s2, s3);
            marks', place := ModelsAreWalked(w, req, rows, now, deadline, base, before, from, was, pass, p + 1, s3);
            GoesOnFurther(marks, was, marks', pass);
            var (s', r) := TryModels(w, req, deadline, req.models[p + 1..], s3);
            WalkBegan(w, req, rows, now, deadline, base, before, from, pass, s, s3, s', r, marks', place);
          } else {
            BeforeGrows(marks', pass, p + 1, |req.models|);
            WalkBegan(w, req, rows, now, deadline, base, before, from, pass, s, s2, s3, Answer(v.content, m),
                      marks', p);
          }
        }
      }
    }
  }

  /** A walk that began a little earlier ends the same way. */
  lemma {:induction false} WalkBegan(w: World, req: Request, rows: seq<H.KeyRow>, now: real, deadline: real, base: nat,
                                     before: seq<Event>, from: nat, pass: nat, s: State, s1: State, s': State, r: Walk,
                                     marks: seq<Mark>, place: nat)
    requires Traced(w, req, rows, deadline, base, before, marks, s') && s.tick <= s1.tick
    requires WalkEnds(w, req, rows, now, deadline, base, before, from, pass, s1, s', r, marks, place)
    ensures WalkEnds(w, req, rows, now, deadline, base, before, from, pass, s, s', r, marks, place)
  {
    hide Traced, Underway, FirstSettled, AnsweredAt;
  }

  lemma {:induction false} UnderwayIsTraced(w: World, req: Request, rows: seq<H.KeyRow>, now: real, deadline: real,
                                            base: nat, before: seq<Event>, marks: seq<Mark>, s: State)
    requires Underway(w, req, rows, now, deadline, base, before, marks, s)
    ensures Traced(w, req, rows, deadline, base, before, marks, s) && NoneAnswered(s.trace[|before|..])
  {
  }

  lemma {:induction false} BeforeGrows(marks: seq<Mark>, pass: nat, p: nat, q: nat)
    requires AllBefore(marks, pass, p) && p <= q
    ensures AllBefore(marks, pass, q)
  {
  }

  lemma {:induction false} NothingGoesOn(marks: seq<Mark>, pass: nat)
    ensures GoesOn(marks, marks, pass)
  {
  }

  lemma {:induction false} GoesOnFurther(a: seq<Mark>, b: seq<Mark>, c: seq<Mark>, pass: nat)
    requires GoesOn(a, b, pass) && GoesOn(b, c, pass)
    ensures GoesOn(a, c, pass)
  {
    assert forall j :: |a| <= j < |b| ==> c[j] == b[j];
  }

  lemma {:induction false} TickGrows(s: State)
    ensures Grows(s, s.(tick := s.tick + 1))
  {
  }

  lemma {:induction false} TraceGrows(before: seq<Event>, s: State, s': State)
    requires Grows(s, s') && |before| <= |s.trace|
    ensures |s.trace[|before|..]| <= |s'.trace[|before|..]| && s.tick <= s'.tick
  {
  }

  lemma {:induction false} PassedIgnoresTicks(req: Request, m: Model, s: State, s': State)
    requires SameSkips(s, s')
    ensures Passed(req, m, s) <==> Passed(req, m, s')
  {
  }

  lemma {:induction false} OneMoreSettled(req: Request, p: nat, rows: seq<H.KeyRow>, now: real, before: seq<Event>,
                                          from: nat, s: State)
    requires p < |req.models| && FirstSettled(req, p, rows, now, before, from, s)
    requires Settled(req, req.models[p], rows, now, before, from, s)
    ensures FirstSettled(req, p + 1, rows, now, before, from, s)
  {
    hide Settled;
  }
}
