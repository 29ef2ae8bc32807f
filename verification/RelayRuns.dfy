/** What every run of the Deep Research relay keeps, told by its log of calls. */
module RelayRuns {
  import opened Text
  import opened Relay
  import opened Picking
  import C = Cooldowns
  import H = KeyHealth

  // ----- What the log says -----

  /** The call ended by itself and left some text. */
  predicate Worked(g: Segment) {
    g.script.ending.Ended? && !Blank(Produced(g.script.parts))
  }

  /** `i` is the place of the last finish that was streamed. */
  ghost predicate LastFinish(parts: seq<Part>, i: nat) {
    i < |parts| && parts[i].Finish? && forall j :: i < j < |parts| ==> !parts[j].Finish?
  }

  /** The last finish says that the token cap cut the text off. */
  ghost predicate CutOff(parts: seq<Part>) {
    exists i: nat :: LastFinish(parts, i) && parts[i].reason == "length"
  }

  /** It worked, and only the token cap cut it off. */
  ghost predicate Truncated(g: Segment) {
    Worked(g) && CutOff(g.script.parts)
  }

  /** An error that both may be retried and speaks of authorization. */
  predicate Barring(g: Segment) {
    && !g.script.ending.Ended?
    && H.IsRetryable(ErrorOf(g.model, g.script.ending)) && ContainsAny(ErrorOf(g.model, g.script.ending), AUTH_WORDS)
  }

  function BarredPlatforms(log: seq<Segment>): set<string> {
    set j | 0 <= j < |log| && Barring(log[j]) :: log[j].model.platform
  }

  /** All text so far, also that of calls that then failed. */
  function TextOf(log: seq<Segment>): string {
    if log == [] then "" else TextOf(log[..|log| - 1]) + Produced(log[|log| - 1].script.parts)
  }

  /** The names of the calls that worked. */
  function WorkedNames(log: seq<Segment>): seq<string> {
    if log == [] then []
    else
      var front, last := WorkedNames(log[..|log| - 1]), log[|log| - 1];
      if Worked(last) then front + [last.model.name] else front
  }

  /** A list with each stretch of equal neighbours cut to one. */
  function Squeezed(names: seq<string>): seq<string> {
    if |names| <= 1 then names
    else
      var front := Squeezed(names[..|names| - 1]);
      if names[|names| - 1] == names[|names| - 2] then front else front + [names[|names| - 1]]
  }

  /** A hand-off is announced where there is text and the last model that worked has another name. */
  predicate IsHandoff(before: seq<Segment>, g: Segment) {
    var names := WorkedNames(before);
    TextOf(before) != "" && names != [] && names[|names| - 1] != g.model.name
  }

  function NoticeOf(before: seq<Segment>, g: Segment): seq<Event> {
    if IsHandoff(before, g) then [Handoff(g.model.name)] else []
  }

  function Narration(log: seq<Segment>): seq<Event> {
    if log == [] then []
    else
      var front, last := log[..|log| - 1], log[|log| - 1];
      Narration(front) + NoticeOf(front, last) + Contents(last.script.parts)
  }

  // ----- The invariant -----

  /** How a call relates to any later one. */
  ghost predicate Precedes(g: Segment, h: Segment) {
    && g.idx <= h.idx
    && (Worked(g) ==> Truncated(g))
    && (!Worked(g) ==> g.idx < h.idx && g.model.id != h.model.id)
    && (Barring(g) ==> g.model.platform != h.model.platform)
  }

  ghost predicate InOrder(log: seq<Segment>) {
    forall j, k :: 0 <= j < k < |log| ==> Precedes(log[j], log[k])
  }

  /** The call is of a model of the list, with a key that the query made for it just before returned, and
      its prompt is the base plus what was written before it. */
  ghost predicate CallIsRight(w: World, req: Request, asked: seq<nat>, log: seq<Segment>, k: nat)
    requires k < |log|
  {
    var g := log[k];
    && g.idx < |req.models| && req.models[g.idx] == g.model && g.model.platform in req.registered
    && 0 < g.queries <= |asked| && asked[g.queries - 1] == g.idx
    && g.keyId in LiveIds(w.keys(g.queries - 1), g.model.platform)
    && g.prompt == Prompt(req.base, TextOf(log[..k])) && g.script == w.script(k)
  }

  ghost predicate CallsAreRight(w: World, req: Request, asked: seq<nat>, log: seq<Segment>) {
    forall k: nat :: k < |log| ==> CallIsRight(w, req, asked, log, k)
  }

  /** The relay's variables against the log. */
  ghost predicate Told(s: State) {
    && s.accumulated == TextOf(s.log) && s.used == Squeezed(WorkedNames(s.log))
    && s.out == Narration(s.log) && s.skipPlatforms == BarredPlatforms(s.log)
  }

  /** The call is behind the cursor, and its model is dropped unless it worked. */
  ghost predicate Behind(g: Segment, s: State) {
    g.idx <= s.idx && (!Worked(g) ==> g.idx < s.idx && g.model.id in s.skipIds)
  }

  ghost predicate AllBehind(s: State) {
    forall j :: 0 <= j < |s.log| ==> Behind(s.log[j], s)
  }

  ghost predicate AllTruncated(log: seq<Segment>) {
    forall j :: 0 <= j < |log| ==> Worked(log[j]) ==> Truncated(log[j])
  }

  ghost predicate Good(w: World, req: Request, s: State) {
    && InOrder(s.log) && CallsAreRight(w, req, s.asked, s.log) && Told(s) && AllBehind(s)
  }

  // ----- Choosing a model -----

  ghost predicate ForwardClock(w: World) {
    forall i: nat, j: nat :: i <= j ==> w.clock(i) <= w.clock(j)
  }

  /** At query `q` every live key of the model was cooling. */
  ghost predicate Keyless(w: World, m: Model, limits: C.Limits, now: real, q: nat) {
    forall id :: id in LiveIds(w.keys(q), m.platform) ==> C.IsCooling(limits, Triple(m, id), now)
  }

  /** Why place `i` is dropped while choosing goes from `s` to `s'`: the model has no provider, or at the
      query that was made for it meanwhile it had no key to use. */
  ghost predicate Unusable(w: World, req: Request, s: State, s': State, i: nat)
    requires i < |req.models|
  {
    || req.models[i].platform !in req.registered
    || exists q: nat :: |s.asked| <= q < |s'.asked| && s'.asked[q] == i
         && Keyless(w, req.models[i], s.limits, w.clock(s.tick), q)
  }

  /** Why place `i` was passed over while choosing went from `s` to `s'`. */
  ghost predicate Passed(w: World, req: Request, s: State, s': State, i: nat)
    requires i < |req.models|
  {
    var m := req.models[i];
    || m.platform in s.skipPlatforms || m.id in s.skipIds
    || exists i0: nat :: s.idx <= i0 <= i && req.models[i0].id == m.id && Unusable(w, req, s, s', i0)
  }

  /** `keyId` is the first of `ids` that is ready: it was not cooling at `at`, when it was looked at, and those
      before it were cooling at `since`. */
  ghost predicate FirstReady(limits: C.Limits, m: Model, ids: seq<nat>, keyId: nat, since: real, at: real) {
    && since <= at && !C.IsCooling(limits, Triple(m, keyId), at)
    && exists j :: 0 <= j < |ids| && ids[j] == keyId && AllCooling(limits, m, ids[..j], since)
  }

  ghost predicate AllCooling(limits: C.Limits, m: Model, ids: seq<nat>, now: real) {
    forall id :: id in ids ==> C.IsCooling(limits, Triple(m, id), now)
  }

  /** The model chosen is in play, and its key is the first ready one among those that the last query, made
      for this model, returned. */
  ghost predicate Usable(w: World, req: Request, s: State, s': State, m: Model, keyId: nat, at: real) {
    var q := |s'.asked| - 1;
    && m.platform !in s.skipPlatforms && m.id !in s.skipIds && m.platform in req.registered
    && q >= |s.asked| && s'.asked[q] == s'.idx && at <= w.clock(s'.tick)
    && FirstReady(s.limits, m, LiveIds(w.keys(q), m.platform), keyId, w.clock(s.tick), at)
  }

  /** Choosing moves the cursor only. */
  ghost predicate OnlyMoves(s: State, s': State) {
    && s'.log == s.log && s'.out == s.out && s'.accumulated == s.accumulated && s'.used == s.used
    && s'.skipPlatforms == s.skipPlatforms && s.asked <= s'.asked
    && s.idx <= s'.idx && s.skipIds <= s'.skipIds && s.tick <= s'.tick
  }

  /** What choosing leaves of the cooldowns: asking about the chosen key forgets its cooldown if it is over. */
  function LimitsAfter(limits: C.Limits, c: Choice): C.Limits {
    if c.Chosen? then C.AfterAsking(limits, Triple(c.model, c.keyId), c.at) else limits
  }

  lemma {:induction false} PickMeaning(w: World, m: Model, ids: seq<nat>, s: State)
    requires ForwardClock(w)
    ensures var (s', c) := PickKey(w, m, ids, s);
            && OnlyMoves(s, s') && s'.idx == s.idx && s'.skipIds == s.skipIds && s'.asked == s.asked
            && s'.limits == LimitsAfter(s.limits, c)
            && (c.Chosen? ==> c.model == m && c.at <= w.clock(s'.tick)
                              && FirstReady(s.limits, m, ids, c.keyId, w.clock(s.tick), c.at))
            && (c.NoModel? ==> AllCooling(s.limits, m, ids, w.clock(s.tick)))
  {
    hide C.IsCooling, C.AfterAsking;
    if ids != [] {
      var s1 := s.(tick := s.tick + 1);
      if C.IsCooling(s.limits, Triple(m, ids[0]), w.clock(s.tick)) {
        PickMeaning(w, m, ids[1..], s1);
        var c := PickKey(w, m, ids[1..], s1).1;
        if c.Chosen? {
          ReadyLater(w, s.limits, m, ids, c.keyId, s.tick, c.at);
        } else {
          CoolingBefore(w, s.limits, m, ids[1..], s.tick, s1.tick);
        }
      } else {
        assert ids[0] == ids[0] && ids[..0] == [];
      }
    }
  }

  lemma {:induction false} CoolingBefore(w: World, limits: C.Limits, m: Model, ids: seq<nat>, before: nat, after: nat)
    requires ForwardClock(w) && before <= after && AllCooling(limits, m, ids, w.clock(after))
    ensures AllCooling(limits, m, ids, w.clock(before))
  {
  }

  lemma {:induction false} ReadyLater(w: World, limits: C.Limits, m: Model, ids: seq<nat>, keyId: nat, tick: nat,
                                      at: real)
    requires ForwardClock(w) && ids != [] && C.IsCooling(limits, Triple(m, ids[0]), w.clock(tick))
    requires FirstReady(limits, m, ids[1..], keyId, w.clock(tick + 1), at)
    ensures FirstReady(limits, m, ids, keyId, w.clock(tick), at)
  {
    hide C.IsCooling;
    var j :| 0 <= j < |ids[1..]| && ids[1..][j] == keyId && AllCooling(limits, m, ids[1..][..j], w.clock(tick + 1));
    CoolingBefore(w, limits, m, ids[1..][..j], tick, tick + 1);
    assert ids[..j + 1] == [ids[0]] + ids[1..][..j];
    assert ids[j + 1] == keyId;
  }

  lemma {:induction false} ReadySince(w: World, limits: C.Limits, m: Model, ids: seq<nat>, keyId: nat, before: nat,
                                      after: nat, at: real)
    requires ForwardClock(w) && before <= after && FirstReady(limits, m, ids, keyId, w.clock(after), at)
    ensures FirstReady(limits, m, ids, keyId, w.clock(before), at)
  {
    hide C.IsCooling;
    var j :| 0 <= j < |ids| && ids[j] == keyId && AllCooling(limits, m, ids[..j], w.clock(after));
    CoolingBefore(w, limits, m, ids[..j], before, after);
  }

  /** One step of choosing, from `s` to `s1`, passes the place at the cursor. */
  ghost predicate Steps(w: World, req: Request, s: State, s1: State)
    requires s.idx < |req.models|
  {
    var m := req.models[s.idx];
    && OnlyMoves(s, s1) && s1.idx == s.idx + 1 && s1.limits == s.limits
    && (s1.skipIds == s.skipIds || (s1.skipIds == s.skipIds + {m.id} && Unusable(w, req, s, s1, s.idx)))
    && (m.platform in s.skipPlatforms || m.id in s1.skipIds)
  }

  /** A reason found in one part of choosing is a reason for the whole. */
  lemma {:induction false} UnusableCarries(w: World, req: Request, s: State, s1: State, s2: State, s': State, i: nat)
    requires ForwardClock(w) && i < |req.models| && Unusable(w, req, s1, s2, i)
    requires s1.limits == s.limits && s.tick <= s1.tick && s.asked <= s1.asked && s2.asked <= s'.asked
    ensures Unusable(w, req, s, s', i)
  {
    if req.models[i].platform in req.registered {
      var q: nat :| |s1.asked| <= q < |s2.asked| && s2.asked[q] == i
                    && Keyless(w, req.models[i], s1.limits, w.clock(s1.tick), q);
      assert Keyless(w, req.models[i], s.limits, w.clock(s.tick), q);
      assert s'.asked[q] == s2.asked[q];
    }
  }

  lemma {:induction false} LaterPlacesPassed(w: World, req: Request, s: State, s1: State, s': State, i: nat)
    requires ForwardClock(w) && s.idx < |req.models| && Steps(w, req, s, s1) && OnlyMoves(s1, s')
    requires s.idx <= i < |req.models| && (i == s.idx || Passed(w, req, s1, s', i))
    ensures Passed(w, req, s, s', i)
  {
    hide Unusable, ForwardClock;
    var later := req.models[i];
    if later.platform !in s.skipPlatforms && later.id !in s.skipIds {
      if later.id in s1.skipIds {
        UnusableCarries(w, req, s, s, s1, s', s.idx);
      } else {
        var i0: nat :| s1.idx <= i0 <= i && req.models[i0].id == later.id && Unusable(w, req, s1, s', i0);
        UnusableCarries(w, req, s, s1, s', s', i0);
      }
    }
  }

  /** Place `i` has this id and was dropped. */
  ghost predicate DroppedAt(w: World, req: Request, s: State, s': State, i: nat, id: int) {
    i < |req.models| && req.models[i].id == id && Unusable(w, req, s, s', i)
  }

  /** Choosing drops only ids of models that cannot be used. */
  ghost predicate DropsHaveReasons(w: World, req: Request, s: State, s': State) {
    forall id :: id in s'.skipIds ==> id in s.skipIds || exists i :: DroppedAt(w, req, s, s', i, id)
  }

  lemma {:induction false} DropsCarry(w: World, req: Request, s: State, s1: State, s': State)
    requires ForwardClock(w) && s.idx < |req.models| && Steps(w, req, s, s1) && OnlyMoves(s1, s')
    requires DropsHaveReasons(w, req, s1, s')
    ensures DropsHaveReasons(w, req, s, s')
  {
    hide Unusable, ForwardClock;
    forall id | id in s'.skipIds && id !in s.skipIds ensures exists i :: DroppedAt(w, req, s, s', i, id) {
      if id in s1.skipIds {
        UnusableCarries(w, req, s, s, s1, s', s.idx);
        assert DroppedAt(w, req, s, s', s.idx, id);
      } else {
        var i :| DroppedAt(w, req, s1, s', i, id);
        UnusableCarries(w, req, s, s1, s', s', i);
        assert DroppedAt(w, req, s, s', i, id);
      }
    }
  }

  ghost predicate RightChoice(w: World, req: Request, s: State, s': State, c: Choice) {
    && OnlyMoves(s, s') && s'.limits == LimitsAfter(s.limits, c) && DropsHaveReasons(w, req, s, s')
    && (forall i: nat :: s.idx <= i < s'.idx && i < |req.models| ==> Passed(w, req, s, s', i))
    && (c.NoModel? ==> s'.idx >= |req.models|)
    && (c.Chosen? ==> s'.idx < |req.models| && c.model == req.models[s'.idx] && c.model.id !in s'.skipIds
                      && Usable(w, req, s, s', c.model, c.keyId, c.at))
  }

  lemma {:induction false} ChoiceCarries(w: World, req: Request, s: State, s1: State, s': State, c: Choice)
    requires ForwardClock(w) && s.idx < |req.models| && Steps(w, req, s, s1) && RightChoice(w, req, s1, s', c)
    ensures RightChoice(w, req, s, s', c)
  {
    hide Passed, Unusable, LiveIds, FirstReady, ForwardClock, LimitsAfter, DropsHaveReasons;
    DropsCarry(w, req, s, s1, s');
    forall i: nat | s.idx <= i < s'.idx && i < |req.models| ensures Passed(w, req, s, s', i) {
      LaterPlacesPassed(w, req, s, s1, s', i);
    }
    if c.Chosen? {
      var ids := LiveIds(w.keys(|s'.asked| - 1), c.model.platform);
      ReadySince(w, s.limits, c.model, ids, c.keyId, s.tick, s1.tick, c.at);
    }
  }

  /** The relay takes the first model from the cursor on that is neither dropped nor without a provider or
      a key that is not cooling; each reason comes from the query made for that very place. */
  lemma {:induction false} SelectMeaning(w: World, req: Request, s: State)
    requires ForwardClock(w)
    ensures RightChoice(w, req, s, Select(w, req, s).0, Select(w, req, s).1)
    decreases |req.models| - s.idx, 0
  {
    hide PickKey, FirstReady, LiveIds, LimitsAfter, ForwardClock;
    if s.idx >= |req.models| {
      NothingChosen(s.limits);
    } else {
      var m := req.models[s.idx];
      if m.platform in s.skipPlatforms || m.id in s.skipIds {
        SelectStep(w, req, s, s.(idx := s.idx + 1));
      } else if m.platform !in req.registered {
        SelectStep(w, req, s, MoveOn(s, m));
      } else {
        var ids, s0 := LiveIds(w.keys(|s.asked|), m.platform), s.(asked := s.asked + [s.idx]);
        PickMeaning(w, m, ids, s0);
        var (s1, c) := PickKey(w, m, ids, s0);
        if c.NoModel? {
          NothingChosen(s.limits);
          assert Keyless(w, m, s.limits, w.clock(s.tick), |s.asked|);
          SelectStep(w, req, s, MoveOn(s1, m));
        }
      }
    }
  }

  lemma {:induction false} NothingChosen(limits: C.Limits)
    ensures LimitsAfter(limits, NoModel) == limits
  {
  }

  lemma {:induction false} SelectStep(w: World, req: Request, s: State, s1: State)
    requires ForwardClock(w) && s.idx < |req.models| && Steps(w, req, s, s1)
    ensures RightChoice(w, req, s, Select(w, req, s1).0, Select(w, req, s1).1)
    decreases |req.models| - s1.idx, 1
  {
    hide Select, RightChoice, Unusable, ForwardClock;
    SelectMeaning(w, req, s1);
    ChoiceCarries(w, req, s, s1, Select(w, req, s1).0, Select(w, req, s1).1);
  }

  // ----- One more call in the log -----

  lemma {:induction false} OneMore(log: seq<Segment>, g: Segment)
    ensures TextOf(log + [g]) == TextOf(log) + Produced(g.script.parts)
    ensures WorkedNames(log + [g]) == WorkedNames(log) + if Worked(g) then [g.model.name] else []
    ensures Narration(log + [g])
         == Narration(log) + NoticeOf(log, g) + Contents(g.script.parts)
  {
    assert (log + [g])[..|log|] == log;
  }

  lemma {:induction false} OneMoreBarred(log: seq<Segment>, g: Segment)
    ensures BarredPlatforms(log + [g]) == BarredPlatforms(log) + if Barring(g) then {g.model.platform} else {}
  {
    hide Barring;
    var more := log + [g];
    forall p | p in BarredPlatforms(log) ensures p in BarredPlatforms(more) {
      var j :| 0 <= j < |log| && Barring(log[j]) && log[j].model.platform == p;
      assert more[j] == log[j];
    }
    if Barring(g) { assert more[|log|] == g; }
  }

  /** Squeezing one name at a time, and the last name stays the last. */
  lemma {:induction false} SqueezeOneMore(names: seq<string>, name: string)
    ensures Squeezed(names + [name]) == Credit(Squeezed(names), name)
  {
    assert (names + [name])[..|names|] == names;
    SqueezeLast(names);
  }

  lemma {:induction false} SqueezeLast(names: seq<string>)
    ensures Squeezed(names) == [] <==> names == []
    ensures names != [] ==> Squeezed(names)[|Squeezed(names)| - 1] == names[|names| - 1]
  {
    if |names| > 1 { SqueezeLast(names[..|names| - 1]); }
  }

  lemma {:induction false} AnnouncementMeaning(log: seq<Segment>, g: Segment)
    ensures Announcement(TextOf(log), Squeezed(WorkedNames(log)), g.model) == NoticeOf(log, g)
  {
    SqueezeLast(WorkedNames(log));
  }

  lemma {:induction false} OrderNext(req: Request, s: State, g: Segment)
    requires InOrder(s.log) && AllBehind(s) && AllTruncated(s.log)
    requires s.skipPlatforms == BarredPlatforms(s.log)
    requires g.idx == s.idx && g.model.platform !in s.skipPlatforms && g.model.id !in s.skipIds
    ensures InOrder(s.log + [g])
  {
    hide Worked, Barring, Truncated;
    var more := s.log + [g];
    forall j, k | 0 <= j < k < |more| ensures Precedes(more[j], more[k]) {
      if k < |s.log| {
        assert Precedes(s.log[j], s.log[k]);
      } else {
        assert more[j] == s.log[j] && more[k] == g && Behind(s.log[j], s);
      }
    }
  }

  lemma {:induction false} CallsNext(w: World, req: Request, asked: seq<nat>, log: seq<Segment>, g: Segment)
    requires CallsAreRight(w, req, asked, log)
    requires g.idx < |req.models| && req.models[g.idx] == g.model && g.model.platform in req.registered
    requires 0 < g.queries <= |asked| && asked[g.queries - 1] == g.idx
    requires g.keyId in LiveIds(w.keys(g.queries - 1), g.model.platform)
    requires g.prompt == Prompt(req.base, TextOf(log)) && g.script == w.script(|log|)
    ensures CallsAreRight(w, req, asked, log + [g])
  {
    hide TextOf, Prompt, LiveIds;
    var more := log + [g];
    forall k: nat | k < |more| ensures CallIsRight(w, req, asked, more, k) {
      if k < |log| {
        assert CallIsRight(w, req, asked, log, k) && more[k] == log[k] && more[..k] == log[..k];
      } else {
        assert more[..k] == log && more[k] == g;
      }
    }
  }

  /** The reason that counts is that of the last finish; without any there is none. */
  lemma {:induction false} ReasonMeaning(parts: seq<Part>)
    ensures forall i: nat :: LastFinish(parts, i) ==> Reason(parts) == parts[i].reason
    ensures (forall i :: 0 <= i < |parts| ==> !parts[i].Finish?) ==> Reason(parts) == ""
    ensures Reason(parts) == "length" <==> CutOff(parts)
  {
    if parts != [] {
      var n := |parts| - 1;
      var front := parts[..n];
      ReasonMeaning(front);
      if parts[n].Finish? {
        assert LastFinish(parts, n);
      } else {
        forall i: nat ensures LastFinish(parts, i) <==> LastFinish(front, i) {
          if LastFinish(front, i) { assert parts[i] == front[i]; }
          if LastFinish(parts, i) { assert front[i] == parts[i]; }
        }
        assert forall i: nat :: LastFinish(front, i) ==> front[i] == parts[i];
      }
    }
  }

  function HasText(): Part -> bool {
    (p: Part) => p.Piece? && p.text != ""
  }

  /** What is passed on is exactly the pieces that are not empty, one by one in order. */
  lemma {:induction false} ContentsMeaning(parts: seq<Part>) returns (places: seq<nat>)
    ensures Picks(parts, HasText(), places) && |Contents(parts)| == |places|
    ensures forall k :: 0 <= k < |places| ==>
              parts[places[k]].Piece? && Contents(parts)[k] == Content(parts[places[k]].text)
  {
    hide Picks;
    if parts == [] {
      places := [];
      PicksNone(HasText());
    } else {
      var n := |parts| - 1;
      places := ContentsMeaning(parts[..n]);
      PicksInOrder(parts[..n], HasText(), places);
      assert parts == parts[..n] + [parts[n]];
      PicksNext(parts[..n], parts[n], HasText(), places);
      if HasText()(parts[n]) {
        places := places + [n];
      }
    }
  }

  /** What a call does to the relay's variables, told by its entry in the log. */
  lemma {:induction false} SegmentMeaning(w: World, req: Request, s: State, m: Model, keyId: nat, at: real)
    ensures var g := SegmentOf(w, req, s, m, keyId, at);
            var (s', more) := RunSegment(w, req, s, m, keyId, at);
            && s'.log == s.log + [g] && s'.accumulated == s.accumulated + Produced(g.script.parts)
            && s'.out == s.out + Announcement(s.accumulated, s.used, m) + Contents(g.script.parts)
            && s'.used == (if Worked(g) then Credit(s.used, m.name) else s.used)
            && s'.skipPlatforms == s.skipPlatforms + (if Barring(g) then {m.platform} else {})
            && s'.skipIds == s.skipIds + (if Worked(g) then {} else {m.id})
            && s'.idx == s.idx + (if Worked(g) then 0 else 1) && s'.iters == s.iters && s.tick <= s'.tick
            && s'.asked == s.asked && (more <==> (Worked(g) ==> Truncated(g)))
  {
    hide H.IsRetryable, ContainsAny, Produced, Contents, Reason, Prompt, ErrorOf, C.AfterFailure, C.AfterSuccess,
         CutOff,
         LastFinish;
    ReasonMeaning(w.script(|s.log|).parts);
  }

  lemma {:induction false} BehindNext(s: State, g: Segment, s': State)
    requires AllBehind(s) && s'.log == s.log + [g] && g.idx == s.idx <= s'.idx && s.skipIds <= s'.skipIds
    requires !Worked(g) ==> s.idx < s'.idx && g.model.id in s'.skipIds
    ensures AllBehind(s')
  {
    hide Worked;
    forall j | 0 <= j < |s'.log| ensures Behind(s'.log[j], s') {
      if j < |s.log| { assert Behind(s.log[j], s); }
    }
  }

  lemma {:induction false} ToldNext(s: State, g: Segment, s': State)
    requires Told(s) && s'.log == s.log + [g] && s'.accumulated == s.accumulated + Produced(g.script.parts)
    requires s'.out == s.out + Announcement(s.accumulated, s.used, g.model) + Contents(g.script.parts)
    requires s'.used == if Worked(g) then Credit(s.used, g.model.name) else s.used
    requires s'.skipPlatforms == s.skipPlatforms + if Barring(g) then {g.model.platform} else {}
    ensures Told(s')
  {
    hide Worked, Barring, IsHandoff, TextOf, WorkedNames, Narration, Contents, Produced, BarredPlatforms, Squeezed,
         Credit;
    OneMore(s.log, g);
    OneMoreBarred(s.log, g);
    AnnouncementMeaning(s.log, g);
    SqueezeOneMore(WorkedNames(s.log), g.model.name);
    assert WorkedNames(s.log) + [] == WorkedNames(s.log);
  }

  /** A relay that may still call keeps every call so far from being complete. */
  lemma {:induction false} SegmentKeeps(w: World, req: Request, s: State, m: Model, keyId: nat, at: real)
    requires Good(w, req, s) && AllTruncated(s.log)
    requires s.idx < |req.models| && m == req.models[s.idx] && m.platform in req.registered
    requires m.platform !in s.skipPlatforms && m.id !in s.skipIds
    requires s.asked != [] && s.asked[|s.asked| - 1] == s.idx && keyId in LiveIds(w.keys(|s.asked| - 1), m.platform)
    ensures var (s', more) := RunSegment(w, req, s, m, keyId, at);
            Good(w, req, s') && |s'.log| == |s.log| + 1 && s'.iters == s.iters && s.tick <= s'.tick
            && (more ==> AllTruncated(s'.log)) && (!more ==> Completed(s'.log))
  {
    hide RunSegment, InOrder, CallsAreRight, AllBehind, Worked, Truncated, Barring, Prompt, TextOf, Narration, Produced,
         LiveIds, WorkedNames, Squeezed, Credit, BarredPlatforms, Announcement, Contents;
    var g := SegmentOf(w, req, s, m, keyId, at);
    var s' := RunSegment(w, req, s, m, keyId, at).0;
    SegmentMeaning(w, req, s, m, keyId, at);
    ToldNext(s, g, s');
    OrderNext(req, s, g);
    CallsNext(w, req, s.asked, s.log, g);
    BehindNext(s, g, s');
  }

  /** The last call worked and was not cut off. */
  ghost predicate Completed(log: seq<Segment>) {
    log != [] && Worked(log[|log| - 1]) && !Truncated(log[|log| - 1])
  }

  // ----- Whole runs -----

  lemma {:induction false} ChoosingKeeps(w: World, req: Request, s: State, s': State)
    requires Good(w, req, s) && OnlyMoves(s, s')
    ensures Good(w, req, s')
  {
    hide TextOf, Prompt, LiveIds, Worked;
    forall k: nat | k < |s.log| ensures CallIsRight(w, req, s'.asked, s.log, k) {
      assert CallIsRight(w, req, s.asked, s.log, k);
    }
    forall j | 0 <= j < |s'.log| ensures Behind(s'.log[j], s') {
      assert Behind(s.log[j], s);
    }
  }

  /** Why a relay stops: its answer is complete, no model is left, twelve calls were allowed, or time is up. */
  ghost predicate StoppedForCause(w: World, req: Request, deadline: real, s: State) {
    || Completed(s.log) || s.idx >= |req.models| || s.iters == 12
    || exists t :: 0 <= t < s.tick && w.clock(t) >= deadline
  }

  lemma {:induction false} LoopKeeps(w: World, req: Request, deadline: real, s: State)
    requires ForwardClock(w) && Good(w, req, s) && AllTruncated(s.log) && |s.log| <= s.iters <= MAX_ITERS
    ensures var s' := Loop(w, req, deadline, s);
            Good(w, req, s') && |s'.log| <= s'.iters <= MAX_ITERS && StoppedForCause(w, req, deadline, s')
    decreases MAX_ITERS - s.iters
  {
    hide Select, RunSegment, Good, AllTruncated, Passed, ForwardClock, Completed;
    if s.iters < MAX_ITERS {
      var s1 := s.(tick := s.tick + 1);
      ChoosingKeeps(w, req, s, s1);
      ChoosingKeeps(w, req, s, s1.(iters := s1.iters + 1));
      if w.clock(s.tick) >= deadline {
        assert s.tick < s1.tick && w.clock(s.tick) >= deadline;
      } else {
        TurnKeeps(w, req, s1.(iters := s1.iters + 1));
        var (s', more) := Turn(w, req, s1);
        if more { LoopKeeps(w, req, deadline, s'); }
      }
    }
  }

  lemma {:induction false} TurnKeeps(w: World, req: Request, s: State)
    requires ForwardClock(w) && Good(w, req, s) && AllTruncated(s.log)
    ensures var (s1, c) := Select(w, req, s);
            var (s', more) := match c
                              case NoModel => (s1, false)
                              case Chosen(m, keyId, at) => RunSegment(w, req, s1, m, keyId, at);
            && Good(w, req, s') && |s'.log| <= |s.log| + 1 && s'.iters == s.iters
            && (more ==> AllTruncated(s'.log)) && (!more ==> Completed(s'.log) || s'.idx >= |req.models|)
  {
    hide Select, RunSegment, Good, AllTruncated, Passed, ForwardClock, Completed, LiveIds;
    SelectMeaning(w, req, s);
    var (s1, c) := Select(w, req, s);
    SelectCountsNothing(w, req, s);
    ChoosingKeeps(w, req, s, s1);
    match c
    case NoModel =>
    case Chosen(m, keyId, at) => SegmentKeeps(w, req, s1, m, keyId, at);
  }

  // ----- Main results -----

  /** Every run of the relay keeps the invariant, makes at most twelve calls, and stops for a cause. */
  lemma {:induction false} EveryRelayIsGood(w: World, req: Request, limits: C.Limits)
    requires ForwardClock(w)
    ensures var s := Run(w, req, limits);
            Good(w, req, s) && |s.log| <= s.iters <= 12 && StoppedForCause(w, req, w.clock(0) + 240.0, s)
  {
    hide Loop, StoppedForCause, ForwardClock, Good, AllTruncated;
    StartIsGood(w, req, limits);
    LoopKeeps(w, req, w.clock(0) + BUDGET_S, Start(limits));
  }

  lemma {:induction false} StartIsGood(w: World, req: Request, limits: C.Limits)
    ensures Good(w, req, Start(limits)) && AllTruncated([])
  {
    hide IsHandoff, Contents;
  }

  /** Of any two calls of a run, the later one is at the same place of the list or further on. It is at the
      same place only when the earlier one left text and was cut off by the token cap; a model whose call
      raised, stalled or stayed blank is never called again; and after an error that is retryable and about
      authorization, its platform is not either. A call that worked and was not cut off is the last one. */
  lemma {:induction false} CallsMoveForward(w: World, req: Request, limits: C.Limits, j: nat, k: nat)
    requires ForwardClock(w) && j < k < |Run(w, req, limits).log|
    ensures var g, h := Run(w, req, limits).log[j], Run(w, req, limits).log[k];
            && g.idx <= h.idx
            && (g.idx == h.idx ==> Worked(g) && CutOff(g.script.parts))
            && (g.model.id == h.model.id ==> Worked(g) && CutOff(g.script.parts))
            && (Worked(g) ==> CutOff(g.script.parts))
            && (Barring(g) ==> g.model.platform != h.model.platform)
  {
    hide Run, Worked, Barring, CutOff;
    EveryRelayIsGood(w, req, limits);
    assert Precedes(Run(w, req, limits).log[j], Run(w, req, limits).log[k]);
  }

  predicate EndsWith(s: string, tail: string) {
    |tail| <= |s| && s[|s| - |tail|..] == tail
  }

  /** A call's prompt is the base messages and, once there is any text, also the end of that text (all of
      it up to 80000 characters) and the request to resume. Text from failed calls is included. */
  lemma {:induction false} PromptsCarryTheWork(w: World, req: Request, limits: C.Limits, k: nat)
    requires ForwardClock(w) && k < |Run(w, req, limits).log|
    ensures var log := Run(w, req, limits).log;
            var text, prompt := TextOf(log[..k]), log[k].prompt;
            if text == "" then prompt == req.base
            else && |prompt| == |req.base| + 2 && prompt[..|req.base|] == req.base
                 && prompt[|req.base|].role == "assistant" && prompt[|req.base| + 1] == RESUME
                 && prompt[|req.base| + 1].role == "user"
                 && EndsWith(text, prompt[|req.base|].content)
                 && (if |text| <= 80000 then prompt[|req.base|].content == text
                     else |prompt[|req.base|].content| == 80000)
  {
    hide Run, TextOf;
    EveryRelayIsGood(w, req, limits);
    assert CallIsRight(w, req, Run(w, req, limits).asked, Run(w, req, limits).log, k);
  }

  /** The text of the content events. */
  function ContentText(events: seq<Event>): string {
    if events == [] then ""
    else
      var last := events[|events| - 1];
      ContentText(events[..|events| - 1]) + if last.Content? then last.text else ""
  }

  lemma {:induction false} ContentTextAppends(a: seq<Event>, b: seq<Event>)
    ensures ContentText(a + b) == ContentText(a) + ContentText(b)
  {
    if b == [] {
      assert a + b == a;
    } else {
      assert (a + b)[..|a + b| - 1] == a + b[..|b| - 1];
      ContentTextAppends(a, b[..|b| - 1]);
    }
  }

  lemma {:induction false} ContentsTell(parts: seq<Part>)
    ensures ContentText(Contents(parts)) == Produced(parts)
    ensures forall e :: e in Contents(parts) ==> e.Content? && e.text != ""
  {
    if parts != [] {
      var front := Contents(parts[..|parts| - 1]);
      ContentsTell(parts[..|parts| - 1]);
      var last := parts[|parts| - 1];
      if last.Piece? && last.text != "" {
        assert (front + [Content(last.text)])[..|front|] == front;
      } else {
        assert Contents(parts) == front;
      }
    }
  }

  lemma {:induction false} NarrationTells(log: seq<Segment>)
    ensures ContentText(Narration(log)) == TextOf(log)
    ensures forall e :: e in Narration(log) ==> !e.Done?
  {
    hide IsHandoff;
    if log != [] {
      var front, last := log[..|log| - 1], log[|log| - 1];
      var notice := NoticeOf(front, last);
      NarrationTells(front);
      ContentsTell(last.script.parts);
      ContentTextAppends(Narration(front), notice);
      ContentTextAppends(Narration(front) + notice, Contents(last.script.parts));
      NoticeHasNoText(notice);
    }
  }

  lemma {:induction false} NoticeHasNoText(notice: seq<Event>)
    requires |notice| <= 1 && forall e :: e in notice ==> e.Handoff?
    ensures ContentText(notice) == ""
  {
    if notice != [] {
      assert notice[..0] == [] && notice[0] in notice;
    }
  }

  predicate NoRepeats(names: seq<string>) {
    forall i :: 0 < i < |names| ==> names[i] != names[i - 1]
  }

  lemma {:induction false} SqueezedMeaning(names: seq<string>)
    ensures NoRepeats(Squeezed(names))
    ensures forall n :: n in Squeezed(names) <==> n in names
  {
    SqueezeLast(names);
    if |names| > 1 {
      var front, last := names[..|names| - 1], names[|names| - 1];
      SqueezedMeaning(front);
      SqueezeLast(front);
      assert names == front + [last];
    }
  }

  /** Some call of a model with this name worked. */
  ghost predicate WorkedUnder(log: seq<Segment>, name: string) {
    exists j :: 0 <= j < |log| && Worked(log[j]) && log[j].model.name == name
  }

  lemma {:induction false} WorkedNamesMeaning(log: seq<Segment>)
    ensures forall n :: n in WorkedNames(log) <==> WorkedUnder(log, n)
    ensures WorkedNames(log) != [] ==> !Blank(TextOf(log))
  {
    hide Worked;
    if log != [] {
      var front, last := log[..|log| - 1], log[|log| - 1];
      WorkedNamesMeaning(front);
      assert forall j :: 0 <= j < |front| ==> front[j] == log[j];
      BlankParts(TextOf(front), Produced(last.script.parts));
      WorkedIsNotBlank(last);
    }
  }

  lemma {:induction false} WorkedIsNotBlank(g: Segment)
    ensures Worked(g) ==> !Blank(Produced(g.script.parts))
  {
  }

  lemma {:induction false} BlankParts(a: string, b: string)
    ensures Blank(a + b) <==> Blank(a) && Blank(b)
  {
    if Blank(a + b) {
      assert forall i :: 0 <= i < |a| ==> a[i] == (a + b)[i];
      assert forall i :: 0 <= i < |b| ==> b[i] == (a + b)[|a| + i];
    }
  }

  /** A run yields exactly one `Done`, as its last event; its content events add up to the text of all calls;
      and the models it names are those with a call that worked, in the order of their calls, no name twice
      in a row. A model that streams text and then fails is not named. */
  lemma {:induction false} EventsTellTheRun(w: World, req: Request, limits: C.Limits)
    requires ForwardClock(w)
    ensures var events, log := Events(w, req, limits), Run(w, req, limits).log;
            && events != [] && (forall i :: 0 <= i < |events| ==> (events[i].Done? <==> i == |events| - 1))
            && ContentText(events) == TextOf(log)
            && events[|events| - 1] == Done(Squeezed(WorkedNames(log)), !Blank(TextOf(log)))
            && NoRepeats(Squeezed(WorkedNames(log)))
            && forall n :: n in Squeezed(WorkedNames(log)) <==> WorkedUnder(log, n)
  {
    hide Run, Worked, Squeezed, WorkedNames, TextOf;
    EveryRelayIsGood(w, req, limits);
    var s := Run(w, req, limits);
    NarrationTells(s.log);
    SqueezedMeaning(WorkedNames(s.log));
    WorkedNamesMeaning(s.log);
    assert Events(w, req, limits)[..|s.out|] == s.out;
  }

  /** The last call of `log` that worked. */
  ghost predicate LastWorked(log: seq<Segment>, j: nat) {
    j < |log| && Worked(log[j]) && forall i :: j < i < |log| ==> !Worked(log[i])
  }

  lemma {:induction false} LastWorkedName(log: seq<Segment>)
    ensures forall j: nat :: LastWorked(log, j) ==>
              WorkedNames(log) != [] && WorkedNames(log)[|WorkedNames(log)| - 1] == log[j].model.name
    ensures WorkedNames(log) != [] ==> exists j: nat :: LastWorked(log, j)
  {
    hide Worked;
    if log != [] {
      var front := log[..|log| - 1];
      LastWorkedName(front);
      if Worked(log[|log| - 1]) {
        assert LastWorked(log, |log| - 1);
      } else {
        forall j: nat | LastWorked(front, j) ensures LastWorked(log, j) {
        }
        forall j: nat | LastWorked(log, j) ensures LastWorked(front, j) {
        }
      }
    }
  }

  /** Call `j` worked, and the last call before it that did has another name or there is none. */
  ghost predicate StartsStretch(log: seq<Segment>, j: nat)
    requires j < |log|
  {
    Worked(log[j]) && forall i: nat :: LastWorked(log[..j], i) ==> log[i].model.name != log[j].model.name
  }

  /** `places` are, in order, all calls that start a stretch of calls that worked under one name. */
  ghost predicate NamedAt(log: seq<Segment>, used: seq<string>, places: seq<nat>) {
    && |used| == |places|
    && (forall k :: 0 <= k < |places| ==>
          places[k] < |log| && StartsStretch(log, places[k]) && used[k] == log[places[k]].model.name)
    && (forall j, k :: 0 <= j < k < |places| ==> places[j] < places[k])
    && (forall j: nat :: j < |log| && StartsStretch(log, j) ==> j in places)
  }

  lemma {:induction false} StretchesOfFront(front: seq<Segment>, g: Segment, j: nat)
    requires j < |front|
    ensures StartsStretch(front + [g], j) <==> StartsStretch(front, j)
  {
    hide Worked, LastWorked;
    assert (front + [g])[..j] == front[..j];
    LastWorkedIsIn(front[..j]);
  }

  lemma {:induction false} StretchAtEnd(front: seq<Segment>, g: Segment)
    ensures var names := WorkedNames(front);
            StartsStretch(front + [g], |front|) <==>
              Worked(g) && (names == [] || names[|names| - 1] != g.model.name)
  {
    hide Worked, LastWorked, WorkedNames;
    assert (front + [g])[..|front|] == front;
    LastWorkedName(front);
    LastWorkedIsIn(front);
  }

  lemma {:induction false} NamedNext(front: seq<Segment>, g: Segment, used: seq<string>, places: seq<nat>)
    requires NamedAt(front, used, places)
    ensures if StartsStretch(front + [g], |front|) then NamedAt(front + [g], used + [g.model.name], places + [|front|])
            else NamedAt(front + [g], used, places)
  {
    hide StartsStretch;
    forall j: nat | j < |front| ensures StartsStretch(front + [g], j) <==> StartsStretch(front, j) {
      StretchesOfFront(front, g, j);
    }
    var more := places + [|front|];
    assert forall j :: j in places ==> j in more;
    assert more[|places|] == |front|;
  }

  lemma {:induction false} NamesInOrder(log: seq<Segment>) returns (places: seq<nat>)
    ensures NamedAt(log, Squeezed(WorkedNames(log)), places)
  {
    hide Worked, Squeezed, LastWorked, StartsStretch;
    if log == [] {
      places := [];
      SqueezeLast(WorkedNames(log));
    } else {
      var front, g := log[..|log| - 1], log[|log| - 1];
      var names := WorkedNames(front);
      places := NamesInOrder(front);
      assert log == front + [g];
      NamedNext(front, g, Squeezed(names), places);
      StretchAtEnd(front, g);
      SqueezeOneMore(names, g.model.name);
      SqueezeLast(names);
      if StartsStretch(log, |front|) {
        places := places + [|front|];
      }
    }
  }

  /** The models a run names are, in order, those of the calls that start a stretch under one name. */
  lemma {:induction false} ModelsAreNamedInOrder(w: World, req: Request, limits: C.Limits) returns (places: seq<nat>)
    requires ForwardClock(w)
    ensures var events := Events(w, req, limits);
            && events != [] && events[|events| - 1].Done?
            && NamedAt(Run(w, req, limits).log, events[|events| - 1].used, places)
  {
    hide Run, NamedAt;
    EventsTellTheRun(w, req, limits);
    places := NamesInOrder(Run(w, req, limits).log);
  }

  /** Between the events of earlier calls and the content of call `k` a hand-off is announced if and only if
      some text exists, some earlier call worked, and the last one that did has another name. */
  lemma {:induction false} HandoffIff(w: World, req: Request, limits: C.Limits, k: nat)
    requires ForwardClock(w) && k < |Run(w, req, limits).log|
    ensures var log := Run(w, req, limits).log;
            var told, next := Narration(log[..k]), Narration(log[..k + 1]);
            && next <= Events(w, req, limits)
            && next == told + NoticeOf(log[..k], log[k]) + Contents(log[k].script.parts)
            && (IsHandoff(log[..k], log[k]) <==>
                  && TextOf(log[..k]) != ""
                  && exists j: nat :: LastWorked(log[..k], j) && log[j].model.name != log[k].model.name)
  {
    hide Run, Narration, TextOf, WorkedNames, LastWorked;
    EveryRelayIsGood(w, req, limits);
    var log := Run(w, req, limits).log;
    LastWorkedIsIn(log[..k]);
    LastWorkedName(log[..k]);
    OneMore(log[..k], log[k]);
    assert log[..k + 1] == log[..k] + [log[k]];
    NarrationGrows(log, k + 1);
  }

  lemma {:induction false} LastWorkedIsIn(log: seq<Segment>)
    ensures forall j: nat :: LastWorked(log, j) ==> j < |log|
  {
  }

  lemma {:induction false} NarrationGrows(log: seq<Segment>, k: nat)
    requires k <= |log|
    ensures Narration(log[..k]) <= Narration(log)
  {
    hide IsHandoff;
    if k == |log| {
      assert log[..k] == log;
    } else {
      var front := log[..|log| - 1];
      assert front[..k] == log[..k];
      NarrationGrows(front, k);
    }
  }
}
