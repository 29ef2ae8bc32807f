/** What a relay makes of a call that stalls: its key is not cooled, unless the model happens to be called
    something that sounds like a retryable error. */
module RelayStalls {
  import opened Text
  import opened Relay
  import C = Cooldowns
  import H = KeyHealth
  import L = RelayCooldowns

  const TAIL: string := " stalled — no output for 30s"

  // ----- No retryable phrase reaches into the tail of the message -----

  /** A space in `p`, not at its front, is followed by something else than the first letters of the tail. */
  predicate BreaksOff(p: string) {
    forall q :: 1 <= q < |p| && p[q] == ' ' ==> q + 2 < |p| && (p[q + 1] != 's' || p[q + 2] != 't')
  }

  lemma {:induction false} FirstBreakOff(k: nat)
    requires k < 8
    ensures BreaksOff(H.RETRYABLE[k])
  {
    if k < 4 {
      assert k == 0 || k == 1 || k == 2 || k == 3;
    } else {
      assert k == 4 || k == 5 || k == 6 || k == 7;
    }
  }

  lemma {:induction false} OthersBreakOff(k: nat)
    requires 8 <= k < |H.RETRYABLE|
    ensures BreaksOff(H.RETRYABLE[k])
  {
    if k < 12 {
      assert k == 8 || k == 9 || k == 10 || k == 11;
    } else {
      assert k == 12 || k == 13 || k == 14 || k == 15 || k == 16;
    }
  }

  /** Each retryable phrase but "not found" has, at this place, a character that is not in the tail. */
  const ODD_PLACES: seq<nat> := [0, 6, 4, 0, 1, 1, 0, 3, 0, 0, 0, 0, 0, 0, 2, 1, 3]

  predicate IsOdd(k: nat) {
    k < |H.RETRYABLE| && ODD_PLACES[k] < |H.RETRYABLE[k]| && H.RETRYABLE[k][ODD_PLACES[k]] !in TAIL
  }

  lemma {:induction false} FirstAreOdd(k: nat)
    requires k < 8
    ensures IsOdd(k)
  {
    if k < 4 {
      assert k == 0 || k == 1 || k == 2 || k == 3;
    } else {
      assert k == 4 || k == 5 || k == 6 || k == 7;
    }
  }

  lemma {:induction false} OthersAreOdd(k: nat)
    requires 8 <= k < |H.RETRYABLE| && k != 12
    ensures IsOdd(k)
  {
    if k < 12 {
      assert k == 8 || k == 9 || k == 10 || k == 11;
    } else {
      assert k == 13 || k == 14 || k == 15 || k == 16;
    }
  }

  /** No "n" of the tail has a "t" two places behind it. */
  lemma {:induction false} LacksNotFound(i: nat)
    ensures !OccursAt(TAIL, "not found", i)
  {
    if i + 9 <= |TAIL| {
      var there := TAIL[i..i + 9];
      assert there[0] == TAIL[i] && there[2] == TAIL[i + 2];
    }
  }

  lemma {:induction false} PhraseIsNotInTail(k: nat, i: nat)
    requires k < |H.RETRYABLE|
    ensures !OccursAt(TAIL, H.RETRYABLE[k], i)
  {
    hide OccursAt;
    if k == 12 {
      LacksNotFound(i);
    } else {
      if k < 8 { FirstAreOdd(k); } else { OthersAreOdd(k); }
      LacksCharacter(TAIL, H.RETRYABLE[k], ODD_PLACES[k]);
    }
  }

  /** A phrase that occurs in a text with the tail behind it occurs in the text. */
  lemma {:induction false} PhraseIsInFront(text: string, k: nat, i: nat)
    requires k < |H.RETRYABLE| && OccursAt(text + TAIL, H.RETRYABLE[k], i)
    ensures OccursAt(text, H.RETRYABLE[k], i)
  {
    var p, all := H.RETRYABLE[k], text + TAIL;
    assert all[i..i + |p|] == p;
    if i >= |text| {
      assert TAIL[i - |text|..i - |text| + |p|] == p;
      PhraseIsNotInTail(k, i - |text|);
    } else if i + |p| > |text| {
      CutInTwo(text, p, i);
      if k < 8 { FirstBreakOff(k); } else { OthersBreakOff(k); }
      assert false;
    } else {
      assert text[i..i + |p|] == p;
    }
  }

  lemma {:induction false} CutInTwo(text: string, p: string, i: nat)
    requires i < |text| < i + |p| && OccursAt(text + TAIL, p, i)
    ensures !BreaksOff(p)
  {
    var all, q := text + TAIL, |text| - i;
    assert all[i..i + |p|] == p;
    assert p[q] == all[|text|] == TAIL[0] == ' ';
    if q + 2 < |p| {
      assert p[q + 1] == all[|text| + 1] == TAIL[1] && p[q + 2] == all[|text| + 2] == TAIL[2];
    }
  }

  // ----- Main results -----

  /** The message about a stalled call is retryable exactly if the model's name alone would be. */
  lemma {:induction false} StallIsRetryableIff(m: Model)
    ensures H.IsRetryable(ErrorOf(m, Stalled)) <==> H.IsRetryable(m.lowered)
  {
    hide OccursAt;
    var text := m.lowered;
    assert ErrorOf(m, Stalled) == text + TAIL;
    if H.IsRetryable(text + TAIL) {
      var k :| 0 <= k < |H.RETRYABLE| && Contains(text + TAIL, H.RETRYABLE[k]);
      var i :| 0 <= i <= |text + TAIL| && OccursAt(text + TAIL, H.RETRYABLE[k], i);
      PhraseIsInFront(text, k, i);
      OccursInside(text, H.RETRYABLE[k], i);
    }
    if H.IsRetryable(text) {
      var k :| 0 <= k < |H.RETRYABLE| && Contains(text, H.RETRYABLE[k]);
      var i :| 0 <= i <= |text| && OccursAt(text, H.RETRYABLE[k], i);
      OccursLonger(text, TAIL, H.RETRYABLE[k], i);
    }
  }

  lemma {:induction false} OccursInside(text: string, p: string, i: nat)
    requires OccursAt(text, p, i)
    ensures i <= |text|
  {
  }

  lemma {:induction false} OccursLonger(text: string, more: string, p: string, i: nat)
    requires OccursAt(text, p, i)
    ensures OccursAt(text + more, p, i)
  {
    assert (text + more)[i..i + |p|] == text[i..i + |p|];
  }

  /** A call that stalled cools its key exactly if the model's name contains a retryable phrase: a silent model
      is left by the relay, and can be called again at once by anyone else. */
  lemma {:induction false} StallCoolsIff(g: Segment)
    requires g.script.ending == Stalled
    ensures var t := Triple(g.model, g.keyId);
            L.OpsOf(g) == [C.Asked(t, g.at)] + if H.IsRetryable(g.model.lowered) then [C.Failed(t, g.overAt)] else []
  {
    hide H.IsRetryable, ErrorOf;
    StallIsRetryableIff(g.model);
  }
}
