/** The two Deep Research entry points, which render the same relay: one as a stream, one as one text. */
module RelayFrontEnds {
  import opened Text
  import opened Relay
  import opened RelayRuns
  import opened Picking
  import C = Cooldowns

  const EMPTY_MSG: string :=
    "I couldn't generate a Deep Research response right now — every "
    + "large (400B+) model was unavailable or rate-limited. Please try again shortly."

  function Decimal(n: nat): string {
    if n < 10 then [('0' as int + n) as char] else Decimal(n / 10) + Decimal(n % 10)
  }

  /** The closing note that names every model credited. */
  function Footer(used: seq<string>): string {
    if used == [] then ""
    else if |used| == 1 then "\n\n---\n*🔬 Deep Research · generated by **" + used[0] + "***"
    else
      "\n\n---\n*🔬 Deep Research · assembled across **" + Decimal(|used|) + " models**: "
      + Join(used, " → ") + "*"
  }

  function Notice(name: string): string {
    "\n\n> ↻ *Continuing with **" + name + "**…*\n\n"
  }

  /** The chunks one event becomes. */
  function Chunks(e: Event): seq<string> {
    match e
    case Content(text) => [text]
    case Handoff(name) => [Notice(name)]
    case Done(used, producedAny) => if used != [] then [Footer(used)] else if !producedAny then [EMPTY_MSG] else []
  }

  function Rendered(events: seq<Event>): seq<string> {
    if events == [] then [] else Rendered(events[..|events| - 1]) + Chunks(events[|events| - 1])
  }

  /** The events without hand-offs. */
  function Quiet(events: seq<Event>): seq<Event> {
    if events == [] then []
    else
      var last := events[|events| - 1];
      Quiet(events[..|events| - 1]) + if last.Handoff? then [] else [last]
  }

  /** What the last `Done` says. */
  function Summary(events: seq<Event>): Event {
    if events == [] then Done([], false)
    else
      var last := events[|events| - 1];
      if last.Done? then last else Summary(events[..|events| - 1])
  }

  /** The whole answer: all text, then the footer or the apology. */
  function Answer(events: seq<Event>): string {
    match Summary(events)
    case Done(used, producedAny) =>
      if used != [] then ContentText(events) + Footer(used) else if !producedAny then EMPTY_MSG else ContentText(events)
    case _ => ContentText(events)
  }

  datatype Reply<T> = Unavailable | Routed(content: T, modelId: string, platform: string, attempts: nat)

  method RouteDeepResearchStream(w: World, req: Request, limits: C.RateLimits) returns (r: Reply<seq<string>>)
    modifies limits
    ensures r == if req.models == [] then Unavailable
                 else
                   var events := Events(w, req, old(limits.State()));
                   Routed(Rendered(events), req.models[0].modelId, req.models[0].platform, 0)
    ensures limits.State() == if req.models == [] then old(limits.State()) else Run(w, req, old(limits.State())).limits
  {
    if req.models == [] { return Unavailable; }
    hide Run;
    var relay := new RelayRun(w, req, limits);
    relay.Generate();
    var chunks := RenderStream(relay.out);
    r := Routed(chunks, req.models[0].modelId, req.models[0].platform, 0);
  }

  method RenderStream(events: seq<Event>) returns (chunks: seq<string>)
    ensures chunks == Rendered(events)
  {
    chunks := [];
    for i := 0 to |events|
      invariant chunks == Rendered(events[..i])
    {
      assert events[..i + 1][..i] == events[..i];
      match events[i]
      case Content(text) => chunks := chunks + [text];
      case Handoff(name) => chunks := chunks + [Notice(name)];
      case Done(used, producedAny) =>
        if used != [] {
          chunks := chunks + [Footer(used)];
        } else if !producedAny {
          chunks := chunks + [EMPTY_MSG];
        }
    }
    assert events[..|events|] == events;
  }

  method RouteDeepResearch(w: World, req: Request, limits: C.RateLimits) returns (r: Reply<string>)
    modifies limits
    ensures r == if req.models == [] then Unavailable
                 else
                   var events := Events(w, req, old(limits.State()));
                   Routed(Answer(events), req.models[0].modelId, req.models[0].platform, |Summary(events).used|)
    ensures limits.State() == if req.models == [] then old(limits.State()) else Run(w, req, old(limits.State())).limits
  {
    if req.models == [] { return Unavailable; }
    hide Run;
    var relay := new RelayRun(w, req, limits);
    relay.Generate();
    var content, attempts := CollectAnswer(relay.out);
    r := Routed(content, req.models[0].modelId, req.models[0].platform, attempts);
  }

  method CollectAnswer(events: seq<Event>) returns (content: string, attempts: nat)
    ensures content == Answer(events) && Summary(events).Done? && attempts == |Summary(events).used|
  {
    var parts, used, producedAny := [], [], false;
    for i := 0 to |events|
      invariant Concat(parts) == ContentText(events[..i])
      invariant Summary(events[..i]) == Done(used, producedAny)
    {
      assert events[..i + 1][..i] == events[..i];
      match events[i]
      case Content(text) =>
        ConcatAppends(parts, [text]);
        parts := parts + [text];
      case Handoff(_) =>
      case Done(u, p) => used, producedAny := u, p;
    }
    assert events[..|events|] == events;
    content := Concat(parts);
    if used != [] {
      content := content + Footer(used);
    } else if !producedAny {
      content := EMPTY_MSG;
    }
    attempts := |used|;
  }

  // ----- What is shown -----

  /** The number that a text of decimal digits writes. */
  function ValueOf(digits: string): nat
    requires forall i :: 0 <= i < |digits| ==> '0' <= digits[i] <= '9'
  {
    if digits == "" then 0
    else 10 * ValueOf(digits[..|digits| - 1]) + (digits[|digits| - 1] as int - '0' as int)
  }

  lemma {:induction false} DecimalMeaning(n: nat)
    ensures (forall i :: 0 <= i < |Decimal(n)| ==> '0' <= Decimal(n)[i] <= '9') && ValueOf(Decimal(n)) == n
    ensures n > 0 ==> Decimal(n)[0] != '0'
  {
    if n < 10 {
      assert ValueOf([]) == 0;
      assert Decimal(n)[..0] == [];
    } else {
      DecimalMeaning(n / 10);
      assert Decimal(n)[..|Decimal(n)| - 1] == Decimal(n / 10);
    }
  }

  /** The footer names every model it is given, in order: alone, or after their number, one behind the other
      with arrows in between. */
  lemma {:induction false} FooterMeaning(used: seq<string>, i: nat) returns (head: string, chain: string)
    requires i < |used|
    ensures Footer(used) == head + chain + if |used| == 1 then "***" else "*"
    ensures PartInPlace(chain, used, " → ", i)
    ensures head == if |used| == 1 then "\n\n---\n*🔬 Deep Research · generated by **"
                    else "\n\n---\n*🔬 Deep Research · assembled across **" + Decimal(|used|) + " models**: "
    ensures (forall j :: 0 <= j < |Decimal(|used|)| ==> '0' <= Decimal(|used|)[j] <= '9')
            && ValueOf(Decimal(|used|)) == |used|
  {
    hide Decimal, ValueOf, Join;
    DecimalMeaning(|used|);
    JoinMeaning(used, " → ", i);
    chain := Join(used, " → ");
    head := if |used| == 1 then "\n\n---\n*🔬 Deep Research · generated by **"
            else "\n\n---\n*🔬 Deep Research · assembled across **" + Decimal(|used|) + " models**: ";
    if |used| == 1 {
      JoinOfOne(used, " → ");
    }
  }

  lemma {:induction false} JoinOfOne(parts: seq<string>, sep: string)
    requires |parts| == 1
    ensures Join(parts, sep) == parts[0]
  {
  }

  /** All events but the end of a run that named nobody and yet produced something. */
  predicate IsShown(e: Event) {
    !(e.Done? && e.used == [] && e.producedAny)
  }

  /** A text is shown as it is; a hand-off names the next model; the end is the footer or the apology. */
  predicate ShownAs(e: Event, chunk: string) {
    match e
    case Content(text) => chunk == text
    case Handoff(name) => chunk == "\n\n> ↻ *Continuing with **" + name + "**…*\n\n"
    case Done(used, _) =>
      chunk == if used != [] then Footer(used)
               else "I couldn't generate a Deep Research response right now — every "
                    + "large (400B+) model was unavailable or rate-limited. Please try again shortly."
  }

  /** The stream shows the events of the run one by one, in order, leaving out none that has something to show. */
  lemma {:induction false} StreamShowsEveryEvent(events: seq<Event>) returns (places: seq<nat>)
    ensures Picks(events, IsShown, places) && |Rendered(events)| == |places|
    ensures forall k :: 0 <= k < |places| ==>
              places[k] < |events| && ShownAs(events[places[k]], Rendered(events)[k])
  {
    hide Picks, Footer;
    places := [];
    PicksNone(IsShown);
    if events != [] {
      var front, last := events[..|events| - 1], events[|events| - 1];
      places := StreamShowsEveryEvent(front);
      PicksNext(front, last, IsShown, places);
      assert front + [last] == events;
      if IsShown(last) {
        places := places + [|front|];
      }
    }
  }

  // ----- The two agree -----

  lemma {:induction false} QuietTextIsContent(events: seq<Event>)
    requires forall e :: e in events ==> !e.Done?
    ensures Concat(Rendered(Quiet(events))) == ContentText(events)
  {
    if events != [] {
      var front, last := events[..|events| - 1], events[|events| - 1];
      QuietTextIsContent(front);
      if last.Content? {
        assert Quiet(events)[..|Quiet(front)|] == Quiet(front);
        ConcatAppends(Rendered(Quiet(front)), [last.text]);
      } else {
        assert Quiet(events) == Quiet(front);
      }
    }
  }

  lemma {:induction false} EndRenders(out: seq<Event>, done: Event)
    requires done.Done?
    ensures Concat(Rendered(Quiet(out + [done]))) == Concat(Rendered(Quiet(out))) + Concat(Chunks(done))
    ensures Summary(out + [done]) == done && ContentText(out + [done]) == ContentText(out)
  {
    var events := out + [done];
    assert events[..|out|] == out;
    assert Quiet(events)[..|Quiet(out)|] == Quiet(out);
    ConcatAppends(Rendered(Quiet(out)), Chunks(done));
  }

  lemma {:induction false} OneChunk(chunk: string)
    ensures Concat([chunk]) == chunk
  {
    assert [chunk][1..] == [];
  }

  lemma {:induction false} EndingsAgreeIff(out: seq<Event>, done: Event)
    requires (forall e :: e in out ==> !e.Done?) && done.Done?
    requires done.producedAny == !Blank(ContentText(out)) && (done.used != [] ==> done.producedAny)
    ensures Concat(Rendered(Quiet(out + [done]))) == Answer(out + [done])
       <==> (ContentText(out) == "" || !Blank(ContentText(out)))
  {
    hide Footer, Quiet, Rendered, ContentText, Summary, Concat, Blank;
    QuietTextIsContent(out);
    EndRenders(out, done);
    OneChunk(Footer(done.used));
    OneChunk(EMPTY_MSG);
    NoChunks();
  }

  lemma {:induction false} NoChunks()
    ensures Concat([]) == "" && Blank("")
  {
  }

  /** With its hand-off notices taken out, the streamed answer is the non-streaming answer if and only if the
      relay's text is empty or has something other than white space; this includes every run that names a
      model. Otherwise the stream has the white space before the apology, and the single answer has not. */
  lemma {:induction false} FrontEndsAgreeIff(w: World, req: Request, limits: C.Limits)
    requires ForwardClock(w)
    ensures var events := Events(w, req, limits);
            var text := ContentText(events);
            && (Concat(Rendered(Quiet(events))) == Answer(events) <==> (text == "" || !Blank(text)))
            && (Summary(events).Done? && (Summary(events).used != [] ==> !Blank(text)))
  {
    hide Run, Footer, TextOf, WorkedNames, Squeezed, Narration, Worked, Quiet, Rendered, Concat, Answer, Summary,
         ContentText;
    EveryRelayIsGood(w, req, limits);
    var s := Run(w, req, limits);
    NarrationTells(s.log);
    WorkedNamesMeaning(s.log);
    SqueezeLast(WorkedNames(s.log));
    EndingsAgreeIff(s.out, Done(s.used, !Blank(s.accumulated)));
    EndRenders(s.out, Done(s.used, !Blank(s.accumulated)));
  }
}
