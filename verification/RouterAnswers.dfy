/** Which model answers a request: the first listed one, pass by pass, that has a usable key whose reply has
    text; and when a request gives up, no usable key of a model in play was left behind. */
module RouterAnswers {
  import opened Router
  import opened RouterRequest
  import opened RouterExhaustion
  import opened RouterMarks
  import opened RouterWalk
  import H = KeyHealth

  // ----- The passes -----

  function Deadline(w: World, s: State): real {
    w.clock(s.tick) + 20.0
  }

  /** The state before pass `k`, when no earlier pass has answered. */
  function PassState(w: World, req: Request, s: State, k: nat): State {
    if k == 0 then State(s.limits, s.rows, s.tick + 1, s.calls, s.trace, {}, {}, {}, map[])
    else TryModels(w, req, Deadline(w, s), req.models, PassState(w, req, s, k - 1)).0
  }

  function PassResult(w: World, req: Request, s: State, k: nat): Walk {
    TryModels(w, req, Deadline(w, s), req.models, PassState(w, req, s, k)).1
  }

  ghost predicate Unanswered(w: World, req: Request, s: State, n: nat) {
    forall k :: 0 <= k < n ==> !PassResult(w, req, s, k).Answer?
  }

  /** How many events the request writes before pass `k`. */
  function PassStart(w: World, req: Request, s: State, k: nat): nat {
    var n, m := |PassState(w, req, s, k).trace|, |s.trace|;
    if n >= m then n - m else 0
  }

  lemma {:induction false} AttemptsArePasses(w: World, req: Request, s: State, k: nat)
    requires Unanswered(w, req, s, k) && k <= req.maxRetries
    ensures var (s', out) := TryAttempts(w, req, Deadline(w, s), k, PassState(w, req, s, k));
            match out
            case Routed(c, m, n) =>
              && n < req.maxRetries && Unanswered(w, req, s, n) && PassResult(w, req, s, n) == Answer(c, m)
              && s' == PassState(w, req, s, n + 1)
            case Exhausted => Unanswered(w, req, s, req.maxRetries) && s' == PassState(w, req, s, req.maxRetries)
            case Unavailable => false
    decreases req.maxRetries - k
  {
    hide TryModels;
    if k < req.maxRetries && !PassResult(w, req, s, k).Answer? {
      AttemptsArePasses(w, req, s, k + 1);
    }
  }

  /** A request is up to `maxRetries` passes over the models: it returns what the first pass that answers found,
      with the number of that pass, it is exhausted exactly when no pass answers, and it is turned away
      exactly when Deep Research has no model. */
  lemma {:induction false} RequestIsItsPasses(w: World, req: Request, s: State)
    ensures var (s', out) := Route(w, req, s);
            match out
            case Routed(c, m, n) =>
              && n < req.maxRetries && Unanswered(w, req, s, n) && PassResult(w, req, s, n) == Answer(c, m)
              && s' == PassState(w, req, s, n + 1)
            case Exhausted =>
              var n := if req.maxRetries > 0 then req.maxRetries else 0;
              Unanswered(w, req, s, n) && s' == PassState(w, req, s, n)
            case Unavailable => s'.trace == s.trace
    ensures Route(w, req, s).1.Unavailable? <==> req.deep && req.models == []
  {
    hide TryModels;
    if req.maxRetries >= 0 && !(req.deep && req.models == []) {
      AttemptsArePasses(w, req, s, 0);
    }
  }

  // ----- The marks of several passes -----

  /** Each event lies between the start and the end of the pass its mark names. */
  ghost predicate InPasses(w: World, req: Request, s: State, marks: seq<Mark>) {
    forall j :: 0 <= j < |marks| ==> InPass(w, req, s, marks[j].spot.pass, j)
  }

  predicate InPass(w: World, req: Request, s: State, k: nat, j: nat) {
    PassStart(w, req, s, k) <= j < PassStart(w, req, s, k + 1)
  }

  lemma {:induction false} InPassesNext(w: World, req: Request, s: State, was: seq<Mark>, marks: seq<Mark>, k: nat)
    requires InPasses(w, req, s, was) && GoesOn(was, marks, k)
    requires PassStart(w, req, s, k) == |was| && PassStart(w, req, s, k + 1) == |marks|
    ensures InPasses(w, req, s, marks)
  {
    hide PassStart;
    forall j | 0 <= j < |marks| ensures InPass(w, req, s, marks[j].spot.pass, j) {
      if j < |was| {
        assert InPass(w, req, s, was[j].spot.pass, j);
      }
    }
  }

  lemma {:induction false} NextPassIsLater(marks: seq<Mark>, k: nat, n: nat)
    requires AllBefore(marks, k, n)
    ensures AllBefore(marks, k + 1, 0)
  {
  }

  lemma {:induction false} StartIsUnderway(w: World, req: Request, s: State)
    requires ForwardClock(w)
    ensures Underway(w, req, s.rows, w.clock(s.tick), Deadline(w, s), s.calls, s.trace, [], PassState(w, req, s, 0))
    ensures AllBefore([], 0, 0) && InPasses(w, req, s, [])
  {
    hide H.Usable;
    var s0 := PassState(w, req, s, 0);
    assert s0.trace[|s.trace|..] == [] && s0.trace[..|s.trace|] == s.trace;
    FreshIsRunning(req, s0);
  }

  lemma {:induction false} PassIsWalked(w: World, req: Request, s: State, k: nat, was: seq<Mark>)
      returns (marks: seq<Mark>, place: nat)
    requires ForwardClock(w) && UniqueIds(s.rows) && AllBefore(was, k, 0) && InPasses(w, req, s, was)
    requires Underway(w, req, s.rows, w.clock(s.tick), Deadline(w, s), s.calls, s.trace, was, PassState(w, req, s, k))
    ensures AllBefore(marks, k + 1, 0) && InPasses(w, req, s, marks) && GoesOn(was, marks, k)
    ensures Grows(PassState(w, req, s, k), PassState(w, req, s, k + 1)) && PassStart(w, req, s, k + 1) == |marks|
    ensures var s', r := PassState(w, req, s, k + 1), PassResult(w, req, s, k);
            && Traced(w, req, s.rows, Deadline(w, s), s.calls, s.trace, marks, s')
            && WalkEnds(w, req, s.rows, w.clock(s.tick), Deadline(w, s), s.calls, s.trace, PassStart(w, req, s, k), k,
                        PassState(w, req, s, k), s', r, marks, place)
  {
    hide TryModels, Running, RowsKept, UniqueIds, ForwardClock, InPasses, AllBefore, AllBehind, GoesOn, WalkEnds,
         NoneAnswered, Marked, Agrees, Settled;
    var now, here := w.clock(s.tick), PassState(w, req, s, k);
    assert req.models[0..] == req.models;
    assert FirstSettled(req, 0, s.rows, now, s.trace, PassStart(w, req, s, k), here);
    marks, place := ModelsAreWalked(w, req, s.rows, now, Deadline(w, s), s.calls, s.trace, PassStart(w, req, s, k), was,
                                    k, 0, here);
    InPassesNext(w, req, s, was, marks, k);
    NextPassIsLater(marks, k, |req.models|);
  }

  /** Passes that do not answer leave the request under way, with its events marked. */
  lemma {:induction false} PassesGoOn(w: World, req: Request, s: State, k: nat, was: seq<Mark>, n: nat)
      returns (marks: seq<Mark>)
    requires ForwardClock(w) && UniqueIds(s.rows) && Unanswered(w, req, s, n) && k <= n
    requires AllBefore(was, k, 0) && InPasses(w, req, s, was)
    requires Underway(w, req, s.rows, w.clock(s.tick), Deadline(w, s), s.calls, s.trace, was, PassState(w, req, s, k))
    ensures Underway(w, req, s.rows, w.clock(s.tick), Deadline(w, s), s.calls, s.trace, marks,
                     PassState(w, req, s, n))
    ensures AllBefore(marks, n, 0) && InPasses(w, req, s, marks)
    ensures was <= marks && PassState(w, req, s, k).trace <= PassState(w, req, s, n).trace
    decreases n - k
  {
    hide TryModels, Underway, UniqueIds, ForwardClock, InPasses, AllBefore, PassState, PassResult;
    marks := was;
    if k < n {
      var next, place := PassIsWalked(w, req, s, k, was);
      assert !PassResult(w, req, s, k).Answer?;
      marks := PassesGoOn(w, req, s, k + 1, next, n);
    }
  }

  lemma {:induction false} PassesAreMarked(w: World, req: Request, s: State, n: nat) returns (marks: seq<Mark>)
    requires ForwardClock(w) && UniqueIds(s.rows) && Unanswered(w, req, s, n)
    ensures Underway(w, req, s.rows, w.clock(s.tick), Deadline(w, s), s.calls, s.trace, marks,
                     PassState(w, req, s, n))
    ensures AllBefore(marks, n, 0) && InPasses(w, req, s, marks)
  {
    hide TryModels, Underway, UniqueIds, ForwardClock, InPasses, AllBefore, PassState, PassResult;
    StartIsUnderway(w, req, s);
    marks := PassesGoOn(w, req, s, 0, [], n);
  }

  // ----- What is left behind -----

  /** By the events so far the model at place `q` is out of play: no provider is registered for it, its platform
      gave cause to be dropped, or a call left a model with its id. */
  ghost predicate OutOfPlay(req: Request, t: seq<Event>, marks: seq<Mark>, q: nat)
    requires q < |req.models| && |marks| == |t| && InList(req, marks)
  {
    var m := req.models[q];
    || m.platform !in req.registered || FatalIn(t, m.platform) || QuotaHits(t, m.platform) >= 3
    || Left(req, t, marks, m.id)
  }

  /** Every key that could be used for the model when the request started was called, or has been found
      cooling since event `from`. */
  ghost predicate KeysTried(req: Request, rows: seq<H.KeyRow>, now: real, t: seq<Event>, from: nat, q: nat)
    requires q < |req.models|
  {
    forall i :: 0 <= i < |rows| && UsableFor(rows[i], req.models[q], now) ==>
      Seen(t, from, IdOf(req.models[q], rows[i].id))
  }

  ghost predicate Considered(req: Request, rows: seq<H.KeyRow>, now: real, t: seq<Event>, marks: seq<Mark>, from: nat,
                             q: nat)
    requires q < |req.models| && |marks| == |t| && InList(req, marks)
  {
    OutOfPlay(req, t, marks, q) || KeysTried(req, rows, now, t, from, q)
  }

  ghost predicate AllConsidered(req: Request, rows: seq<H.KeyRow>, now: real, t: seq<Event>, marks: seq<Mark>,
                                from: nat, place: nat)
    requires place <= |req.models| && |marks| == |t| && InList(req, marks)
  {
    forall q :: 0 <= q < place ==> Considered(req, rows, now, t, marks, from, q)
  }

  lemma {:induction false} SettledIsConsidered(req: Request, rows: seq<H.KeyRow>, now: real, before: seq<Event>,
                                               t: seq<Event>, marks: seq<Mark>, from: nat, s: State, q: nat)
    requires q < |req.models| && |marks| == |t| && InList(req, marks)
    requires |before| <= |s.trace| && t == s.trace[|before|..]
    requires Settled(req, req.models[q], rows, now, before, from, s)
    requires SkippedForCause(req, t, s.skipPlatforms) && forall id :: id in s.skipModels <==> Left(req, t, marks, id)
    ensures Considered(req, rows, now, t, marks, from, q)
  {
    hide FatalIn, QuotaHits, Left, Seen, UsableFor, IdOf;
  }

  /** An answer gives no cause to skip a platform. */
  lemma {:induction false} AnswerIsNoCause(req: Request, t: seq<Event>, e: Event, skipPlatforms: set<string>)
    requires IsAnswer(e) && SkippedForCause(req, t + [e], skipPlatforms)
    ensures SkippedForCause(req, t, skipPlatforms)
  {
    assert (t + [e])[..|t|] == t;
    forall p ensures FatalIn(t + [e], p) <==> FatalIn(t, p) {
      FatalInNext(t, e, p);
    }
    hide FatalIn;
    assert forall p :: QuotaHits(t + [e], p) == QuotaHits(t, p);
  }

  lemma {:induction false} AnswerLeavesNone(req: Request, t: seq<Event>, marks: seq<Mark>, e: Event, k: Mark, s: State,
                                            rows: seq<H.KeyRow>, base: nat)
    requires |marks| == |t| && IsAnswer(e) && Agrees(req, rows, base, t + [e], marks + [k], s)
    ensures InList(req, marks) && forall id :: id in s.skipModels <==> Left(req, t, marks, id)
  {
    hide CallsIn, SameKeys, Left;
    assert forall j :: 0 <= j < |marks| ==> (marks + [k])[j] == marks[j];
    assert (marks + [k])[|marks|] == k;
    forall id ensures id in s.skipModels <==> Left(req, t, marks, id) {
      LeftNext(req, t, marks, e, k, id);
    }
  }

  lemma {:induction false} EarlierAreConsidered(w: World, req: Request, s: State, s': State, marks: seq<Mark>,
                                                from: nat, place: nat)
    requires Traced(w, req, s.rows, Deadline(w, s), s.calls, s.trace, marks, s') && s'.trace != []
    requires 0 < |marks| && place <= |req.models| && IsAnswer(s'.trace[|s'.trace| - 1])
    requires FirstSettled(req, place, s.rows, w.clock(s.tick), s.trace, from, BeforeLast(s'))
    requires Always(req, s'.trace[|s.trace|..], s')
    ensures var t, n := s'.trace[|s.trace|..], |marks| - 1;
            && InList(req, marks[..n])
            && AllConsidered(req, s.rows, w.clock(s.tick), t[..n], marks[..n], from, place)
  {
    hide Settled, Marked, Agrees, Once, DropsAreFinal, CountsMatch, SkippedForCause, DropsAreSkipped, OneLeft, Left,
         Considered, IsAnswer;
    var t, n, b := s'.trace[|s.trace|..], |marks| - 1, BeforeLast(s');
    assert t == t[..n] + [t[n]] && marks == marks[..n] + [marks[n]];
    assert t[n] == s'.trace[|s'.trace| - 1];
    assert b.trace[|s.trace|..] == t[..n];
    AnswerIsNoCause(req, t[..n], t[n], s'.skipPlatforms);
    AnswerLeavesNone(req, t[..n], marks[..n], t[n], marks[n], s', s.rows, s.calls);
    forall q | 0 <= q < place
      ensures Considered(req, s.rows, w.clock(s.tick), t[..n], marks[..n], from, q)
    {
      SettledIsConsidered(req, s.rows, w.clock(s.tick), s.trace, t[..n], marks[..n], from, b, q);
    }
  }

  lemma {:induction false} AllAreConsidered(w: World, req: Request, s: State, s': State, marks: seq<Mark>, from: nat)
    requires Underway(w, req, s.rows, w.clock(s.tick), Deadline(w, s), s.calls, s.trace, marks, s')
    requires FirstSettled(req, |req.models|, s.rows, w.clock(s.tick), s.trace, from, s')
    ensures InList(req, marks)
    ensures AllConsidered(req, s.rows, w.clock(s.tick), s'.trace[|s.trace|..], marks, from, |req.models|)
  {
    hide Settled, Marked, Once, DropsAreFinal, CountsMatch, SkippedForCause, DropsAreSkipped, OneLeft, Left,
         Considered, SameKeys, RowsKept, KeysMatch;
    var t := s'.trace[|s.trace|..];
    forall q | 0 <= q < |req.models|
      ensures Considered(req, s.rows, w.clock(s.tick), t, marks, from, q)
    {
      SettledIsConsidered(req, s.rows, w.clock(s.tick), s.trace, t, marks, from, s', q);
    }
  }

  lemma {:induction false} AnswerFits(w: World, req: Request, rows: seq<H.KeyRow>, deadline: real, base: nat,
                                      t: seq<Event>, marks: seq<Mark>)
    requires Marked(w, req, rows, deadline, base, t, marks) && t != [] && IsAnswer(t[|t| - 1])
    ensures HasAnswer(req.mode, w.reply(marks[|t| - 1].call))
  {
    hide HasAnswer, InOrder, CallsCounted, NoReturn;
    assert Fits(w, req, rows, deadline, t[|t| - 1], marks[|t| - 1]);
  }

  // ----- Main results -----

  /** When a request is answered, its events can be marked so that
      - each event is about a key and the model at its place, which belong together, passes and places never go
        back, keys go up within a place, every call takes the next reply and records what that reply says, and a
        model that was left is not called again;
      - the last event, and no other, is an answer: it comes from the model that is returned, its reply was the
        text that is returned, and it stands in the pass whose number is returned;
      - every place listed before that model is out of play, or had every usable key called, or found cooling in
        this pass, before the answer. */
  lemma {:induction false} AnswerComesFirst(w: World, req: Request, s: State) returns (marks: seq<Mark>)
    requires ForwardClock(w) && UniqueIds(s.rows) && Route(w, req, s).1.Routed?
    ensures var (s', out) := Route(w, req, s);
            && 0 < |marks| && |s.trace| + |marks| == |s'.trace| && s'.trace[..|s.trace|] == s.trace
            && var t, last := Written(s, s'), marks[|marks| - 1];
            && Marked(w, req, s.rows, Deadline(w, s), s.calls, t, marks) && InPasses(w, req, s, marks)
            && (forall j :: 0 <= j < |t| ==> (IsAnswer(t[j]) <==> j == |t| - 1))
            && w.reply(last.call) == Text(out.content) && HasAnswer(req.mode, w.reply(last.call))
            && last.spot.place < |req.models| && out.model == req.models[last.spot.place]
            && last.spot.pass == out.attempts < req.maxRetries
            && AllConsidered(req, s.rows, w.clock(s.tick), t[..|t| - 1], marks[..|t| - 1],
                             PassStart(w, req, s, out.attempts), last.spot.place)
  {
    hide TryModels, Route, Underway, UniqueIds, ForwardClock, InPasses, AllBefore, PassState, Settled, PassStart,
         Always, CallsIn, SameKeys, Left, InOrder, CallsCounted, NoReturn, AllConsidered;
    RequestIsItsPasses(w, req, s);
    var (s', out) := Route(w, req, s);
    var was := PassesAreMarked(w, req, s, out.attempts);
    var place;
    marks, place := PassIsWalked(w, req, s, out.attempts, was);
    RequestKeeps(w, req, s);
    var t := Written(s, s');
    var n := |t| - 1;
    assert t == t[..n] + [t[n]] && marks == marks[..n] + [marks[n]];
    EarlierAreConsidered(w, req, s, s', marks, PassStart(w, req, s, out.attempts), place);
    AnswerFits(w, req, s.rows, Deadline(w, s), s.calls, t, marks);
  }

  /** When a request gives up, nothing was answered, its events are marked in the same way, and each pass that was
      not cut short by the deadline considered every listed model: it is out of play, or every usable key was
      called, or found cooling in that pass. */
  lemma {:induction false} ExhaustedLeavesNoneBehind(w: World, req: Request, s: State, k: nat)
      returns (marks: seq<Mark>)
    requires ForwardClock(w) && UniqueIds(s.rows) && Route(w, req, s).1.Exhausted? && k < req.maxRetries
    ensures var (s', out) := Route(w, req, s);
            && |s.trace| + |marks| == |s'.trace| && s'.trace[..|s.trace|] == s.trace
            && var t, n := Written(s, s'), PassStart(w, req, s, k + 1);
            && Marked(w, req, s.rows, Deadline(w, s), s.calls, t, marks) && InPasses(w, req, s, marks)
            && NoneAnswered(t) && n <= |t|
            && match PassResult(w, req, s, k)
               case Answer(_, _) => false
               case OutOfTime => DeadlinePassed(w, req, s, k)
               case GoOn =>
                 AllConsidered(req, s.rows, w.clock(s.tick), t[..n], marks[..n], PassStart(w, req, s, k), |req.models|)
  {
    hide TryModels, Route, Underway, UniqueIds, ForwardClock, InPasses, AllBefore, PassState, Settled, PassStart,
         Always, CallsIn, SameKeys, Left, InOrder, CallsCounted, NoReturn, AllConsidered;
    RequestIsItsPasses(w, req, s);
    var was := PassesAreMarked(w, req, s, k);
    var next, place := PassIsWalked(w, req, s, k, was);
    assert !PassResult(w, req, s, k).Answer?;
    marks := PassesGoOn(w, req, s, k + 1, next, req.maxRetries);
    var s' := Route(w, req, s).0;
    UnderwayIsTraced(w, req, s.rows, w.clock(s.tick), Deadline(w, s), s.calls, s.trace, marks, s');
    assert marks[..|next|] == next;
    assert Written(s, s')[..|next|] == PassState(w, req, s, k + 1).trace[|s.trace|..];
    if PassResult(w, req, s, k).GoOn? {
      AllAreConsidered(w, req, s, PassState(w, req, s, k + 1), next, PassStart(w, req, s, k));
    }
  }

  /** A clock reading of pass `k` was past the deadline. */
  ghost predicate DeadlinePassed(w: World, req: Request, s: State, k: nat) {
    exists n: nat :: PassState(w, req, s, k).tick <= n < PassState(w, req, s, k + 1).tick && w.clock(n) > Deadline(w, s)
  }
}
