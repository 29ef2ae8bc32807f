/** Concrete relay runs in which the code does not do what its comments or tests suggest. */
module RelayExamples {
  import opened Text
  import opened Relay
  import opened RelayRuns
  import opened RelayFrontEnds
  import C = Cooldowns
  import H = KeyHealth

  /** One key, a clock that stands still, and calls that stream as told. */
  function Fixed(script: nat -> Script): World {
    World(_ => 0.0, _ => [H.KeyRow(1, "p", true, H.Healthy, H.Unchecked)], script)
  }

  function Always(script: Script): nat -> Script {
    _ => script
  }

  function FixedRequest(models: seq<Model>): Request {
    Request(models, {"p"}, [])
  }

  lemma {:induction false} FixedChoice(script: nat -> Script, models: seq<Model>, s: State)
    requires s.limits == C.Limits(map[], map[]) && s.skipPlatforms == {}
    requires forall m :: m in models ==> m.platform == "p"
    ensures Select(Fixed(script), FixedRequest(models), s)
         == if s.idx >= |models| then (s, NoModel)
            else if models[s.idx].id in s.skipIds
            then Select(Fixed(script), FixedRequest(models), s.(idx := s.idx + 1))
            else (s.(tick := s.tick + 1, asked := s.asked + [s.idx]), Chosen(models[s.idx], 1, 0.0))
  {
    var rows := [H.KeyRow(1, "p", true, H.Healthy, H.Unchecked)];
    assert rows[..0] == [];
    assert LiveIds(rows, "p") == [1];
  }

  /** Where no model is left the relay ends. */
  lemma {:induction false} LoopEnds(script: nat -> Script, models: seq<Model>, s: State)
    requires s.idx >= |models| && s.iters < MAX_ITERS
    ensures Loop(Fixed(script), FixedRequest(models), BUDGET_S, s) == s.(tick := s.tick + 1, iters := s.iters + 1)
  {
    hide RunSegment;
  }

  lemma {:induction false} LoopStep(script: nat -> Script, models: seq<Model>, s: State, s': State, more: bool)
    requires s.iters < MAX_ITERS && s.idx < |models| && models[s.idx].id !in s.skipIds && s.skipPlatforms == {}
    requires s.limits == C.Limits(map[], map[]) && forall m :: m in models ==> m.platform == "p"
    requires var s1 := s.(tick := s.tick + 2, iters := s.iters + 1, asked := s.asked + [s.idx]);
             RunSegment(Fixed(script), FixedRequest(models), s1, models[s.idx], 1, 0.0) == (s', more)
    ensures Loop(Fixed(script), FixedRequest(models), BUDGET_S, s)
         == if more then Loop(Fixed(script), FixedRequest(models), BUDGET_S, s') else s'
  {
    hide RunSegment, Select;
    FixedChoice(script, models, s.(tick := s.tick + 1, iters := s.iters + 1));
  }

  lemma {:induction false} OneSpace()
    ensures var parts := [Piece(" ")];
            Produced(parts) == " " && Contents(parts) == [Content(" ")] && Blank(" ")
  {
    assert [Piece(" ")][..0] == [];
  }

  lemma {:induction false} OneContent(text: string)
    ensures ContentText([Content(text)]) == text
  {
    assert [Content(text)][..0] == [];
  }

  lemma {:induction false} SpaceThenApology()
    ensures var events := [Content(" ")] + [Done([], false)];
            Concat(Rendered(Quiet(events))) == " " + EMPTY_MSG && Answer(events) == EMPTY_MSG
  {
    hide Quiet, Rendered, Concat, Summary, ContentText;
    OneContent(" ");
    QuietTextIsContent([Content(" ")]);
    EndRenders([Content(" ")], Done([], false));
    OneChunk(EMPTY_MSG);
  }

  /** A model that streams a single space: the stream shows it before the apology. */
  lemma {:induction false} BlankAnswersDiffer(m: Model)
    requires m.platform == "p"
    ensures var events := Events(Fixed(Always(Script([Piece(" ")], Ended))), FixedRequest([m]), C.Limits(map[], map[]));
            Concat(Rendered(Quiet(events))) == " " + EMPTY_MSG && Answer(events) == EMPTY_MSG
  {
    hide Select, Loop, Rendered, Quiet, Answer, Concat, Produced, Contents, Blank;
    var script := Always(Script([Piece(" ")], Ended));
    var limits := C.Limits(map[], map[]);
    var s0 := Start(limits);
    var s1 := s0.(tick := 3, iters := 1, asked := s0.asked + [s0.idx]);
    var s2 := RunSegment(Fixed(script), FixedRequest([m]), s1, m, 1, 0.0).0;
    OneSpace();
    LoopStep(script, [m], s0, s2, true);
    assert s2.idx == 1;
    LoopEnds(script, [m], s2);
    assert s2.out == [Content(" ")];
    assert s2.used == [];
    assert s2.accumulated == " ";
    assert Run(Fixed(script), FixedRequest([m]), limits) == s2.(tick := s2.tick + 1, iters := s2.iters + 1);
    SpaceThenApology();
  }

  /** Each retryable phrase has, at this place, a character that does not occur in "401 unauthorized". */
  const ODD_PLACES: seq<nat> := [1, 5, 4, 0, 2, 2, 0, 3, 0, 7, 0, 0, 4, 2, 0, 1, 3]

  const REFUSED: string := "401 unauthorized"

  lemma {:induction false} OddPlaces(k: nat)
    requires k < |H.RETRYABLE| && k != 11
    ensures ODD_PLACES[k] < |H.RETRYABLE[k]| && H.RETRYABLE[k][ODD_PLACES[k]] !in REFUSED
  {
    if k < 6 {
      assert k == 0 || k == 1 || k == 2 || k == 3 || k == 4 || k == 5;
    } else if k < 12 {
      assert k == 6 || k == 7 || k == 8 || k == 9 || k == 10;
    } else {
      assert k == 12 || k == 13 || k == 14 || k == 15 || k == 16;
    }
  }

  lemma {:induction false} Lacks404()
    ensures !Contains(REFUSED, "404")
  {
    forall i | 0 <= i <= |REFUSED| ensures !OccursAt(REFUSED, "404", i) {
      if i + 3 <= |REFUSED| {
        assert REFUSED[i..i + 3][2] == REFUSED[i + 2] && REFUSED[i..i + 3][0] == REFUSED[i];
      }
    }
  }

  lemma {:induction false} HasAuthWord()
    ensures ContainsAny(REFUSED, AUTH_WORDS)
  {
    assert OccursAt(REFUSED, AUTH_WORDS[0], 0);
  }

  /** A plain refusal is about authorization, but it is not retryable. */
  lemma {:induction false} RefusedIsNotRetryable()
    ensures !H.IsRetryable(REFUSED) && ContainsAny(REFUSED, AUTH_WORDS)
  {
    hide Contains;
    forall k | 0 <= k < |H.RETRYABLE| ensures !Contains(REFUSED, H.RETRYABLE[k]) {
      if k == 11 {
        Lacks404();
      } else {
        OddPlaces(k);
        LacksCharacter(REFUSED, H.RETRYABLE[k], ODD_PLACES[k]);
      }
    }
    HasAuthWord();
  }

  function RefusedThen(script: Script): nat -> Script {
    n => if n == 0 then Script([], Raised(REFUSED)) else script
  }

  lemma {:induction false} RefusedCall(w: World, req: Request, s: State, m: Model, keyId: nat, at: real)
    requires w.script(|s.log|).ending == Raised(REFUSED)
    ensures RunSegment(w, req, s, m, keyId, at) == (MoveOn(Streamed(w, req, s, m, keyId, at), m), true)
  {
    hide Streamed, H.IsRetryable, ContainsAny;
    RefusedIsNotRetryable();
  }

  /** So after "401 unauthorized" the relay still calls another model of the same platform. */
  lemma {:induction false} RefusalKeepsPlatform(a: Model, b: Model)
    requires a.platform == "p" && b.platform == "p" && a.id != b.id
    ensures var w := Fixed(RefusedThen(Script([Piece("x")], Ended)));
            var log := Run(w, FixedRequest([a, b]), C.Limits(map[], map[])).log;
            |log| == 2 && log[0].model == a && log[0].script.ending == Raised(REFUSED) && log[1].model == b
  {
    hide Select, Loop, RunSegment, Prompt, Contents, Announcement, Produced;
    var script := RefusedThen(Script([Piece("x")], Ended));
    var w, req, s0 := Fixed(script), FixedRequest([a, b]), Start(C.Limits(map[], map[]));
    var asked0 := s0.(tick := 3, iters := 1, asked := s0.asked + [s0.idx]);
    RefusedCall(w, req, asked0, a, 1, 0.0);
    var s1 := RunSegment(w, req, asked0, a, 1, 0.0).0;
    LoopStep(script, [a, b], s0, s1, true);
    var asked1 := s1.(tick := s1.tick + 2, iters := s1.iters + 1, asked := s1.asked + [s1.idx]);
    SegmentMeaning(w, req, asked1, b, 1, 0.0);
    OneLetter();
    LoopStep(script, [a, b], s1, RunSegment(w, req, asked1, b, 1, 0.0).0, false);
  }

  lemma {:induction false} OneLetter()
    ensures Produced([Piece("x")]) == "x" && !Blank("x") && Reason([Piece("x")]) == ""
  {
    assert [Piece("x")][..0] == [];
    assert Produced([Piece("x")]) == "x" && !IsSpace("x"[0]);
  }
}
