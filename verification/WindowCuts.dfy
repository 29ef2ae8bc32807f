/** Where windows are cut and which pieces they give: together with the chain they form, this determines what
    the chunkers return. */
module WindowCuts {
  import opened Text
  import opened Picking
  import opened Windows

  /** Where a window ends, told by the text alone. A window that may reach the end of the text does. Any
      other is cut just past the last occurrence of the most preferred of the eight boundaries that occurs in
      the second half of what it may cover, and is full only if none does. */
  ghost predicate RightlyCut(text: string, size: nat, w: Window) {
    if w.start + size >= |text| then w.End() == |text|
    else CutAtBest(text[w.start..w.start + size], size, |w.body|,
                   ["\n\n", "\n", ". ", "! ", "? ", "; ", ", ", " "])
  }

  ghost predicate CutAtBest(reach: string, size: nat, length: nat, boundaries: seq<string>) {
    if NoneFits(reach, size / 2, boundaries) then length == size
    else exists b :: 0 <= b < |boundaries| && BreaksAt(reach, size / 2, boundaries, b, length)
  }

  lemma {:induction false} BestBreakIsBest(reach: string, size: nat)
    requires |reach| == size
    ensures var cut := BestBreak(reach, size / 2);
            cut <= size && CutAtBest(reach, size, if cut > 0 then cut else size, BREAKS)
  {
    hide BreaksAt;
    BestOfMeaning(reach, size / 2, BREAKS);
    CutFits(reach, size / 2);
    forall b, r: int | 0 <= b < |BREAKS| && BreaksAt(reach, size / 2, BREAKS, b, r)
      ensures !NoneFits(reach, size / 2, BREAKS)
    {
      BreakFits(reach, size / 2, BREAKS, b, r);
    }
  }

  lemma {:induction false} BreakFits(window: string, minIndex: nat, breaks: seq<string>, b: nat, r: int)
    requires b < |breaks| && BreaksAt(window, minIndex, breaks, b, r)
    ensures !NoneFits(window, minIndex, breaks)
  {
    assert OccursAt(window, breaks[b], r - |breaks[b]|);
  }

  lemma {:induction false} EndIsRightlyCut(text: string, size: nat, start: nat)
    requires size >= 1 && start < |text|
    ensures RightlyCut(text, size, Window(start, text[start..WindowEnd(text, size, start)]))
  {
    hide CutAtBest, BestBreak;
    if start + size < |text| {
      BestBreakIsBest(text[start..start + size], size);
    }
  }

  /** Every window, whatever the overlap, ends at the best boundary. */
  lemma {:induction false} WindowsAreRightlyCut(text: string, size: nat, overlap: nat, start: nat)
    requires size >= 1
    ensures forall w :: w in RawWindows(text, size, overlap, start) ==> RightlyCut(text, size, w)
    decreases |text| - start
  {
    hide RightlyCut;
    if start < |text| {
      EndIsRightlyCut(text, size, start);
      WindowsAreRightlyCut(text, size, overlap, Next(start, WindowEnd(text, size, start), overlap));
    }
  }

  function NotBlank(): Window -> bool {
    (w: Window) => !Blank(w.body)
  }

  /** The pieces are exactly the windows that are not blank, in order, each stripped and with its start. */
  lemma {:induction false} PiecesMeaning(windows: seq<Window>) returns (places: seq<nat>)
    ensures Picks(windows, NotBlank(), places) && |Pieces(windows)| == |places|
    ensures forall k :: 0 <= k < |places| ==>
              Pieces(windows)[k] == Piece(Strip(windows[places[k]].body), windows[places[k]].start)
  {
    hide Strip, Blank;
    places := PiecesOfPrefix(windows, |windows|);
    assert windows[..|windows|] == windows;
  }

  lemma {:induction false} PiecesOfPrefix(windows: seq<Window>, n: nat) returns (places: seq<nat>)
    requires n <= |windows|
    ensures Picks(windows[..n], NotBlank(), places) && |Pieces(windows[..n])| == |places|
    ensures forall k :: 0 <= k < |places| ==>
              Pieces(windows[..n])[k] == Piece(Strip(windows[places[k]].body), windows[places[k]].start)
  {
    hide Strip, Blank, Picks;
    if n == 0 {
      places := [];
      PicksNone(NotBlank());
    } else {
      var w := windows[n - 1];
      places := PiecesOfPrefix(windows, n - 1);
      assert windows[..n] == windows[..n - 1] + [w];
      PicksNext(windows[..n - 1], w, NotBlank(), places);
      PiecesOfSnoc(windows[..n - 1], w);
      var _ := StripMeaning(w.body);
      if !Blank(w.body) {
        places := places + [n - 1];
      }
    }
  }

  lemma {:induction false} PiecesOfSnoc(windows: seq<Window>, w: Window)
    ensures Pieces(windows + [w])
         == Pieces(windows) + if Strip(w.body) == "" then [] else [Piece(Strip(w.body), w.start)]
  {
    hide Strip;
    if windows == [] {
      assert windows + [w] == [w];
    } else {
      assert (windows + [w])[1..] == windows[1..] + [w];
      PiecesOfSnoc(windows[1..], w);
    }
  }

  /** All there is to know about the pieces of a text that is not blank: some windows of the stripped text
      cover it from its start with the clamped overlap, each cut at its best boundary, which determines them;
      and the pieces are those that are not blank, in order, stripped. */
  lemma {:induction false} WindowsOfMeaning(raw: string, size: nat, overlap: int)
    returns (windows: seq<Window>, places: seq<nat>)
    requires size >= 1 && !Blank(raw)
    ensures var lap := if overlap < 0 then 0 else if overlap > size / 2 then size / 2 else overlap;
            Chain(Strip(raw), windows, 0, size, lap)
    ensures forall w :: w in windows ==> RightlyCut(Strip(raw), size, w)
    ensures Picks(windows, NotBlank(), places) && |WindowsOf(raw, size, overlap)| == |places|
    ensures forall k :: 0 <= k < |places| ==>
              WindowsOf(raw, size, overlap)[k] == Piece(Strip(windows[places[k]].body), windows[places[k]].start)
  {
    hide Chain, RightlyCut, Picks, RawWindows, Pieces, Strip;
    var text := Strip(raw);
    var _ := StripMeaning(raw);
    var lap := ClampOverlap(overlap, size);
    WindowsFormAChain(text, size, lap, 0);
    WindowsAreRightlyCut(text, size, lap, 0);
    windows := RawWindows(text, size, lap, 0);
    places := PiecesMeaning(windows);
    if |text| <= size {
      StripOfTrimmed(text);
      ShortTextIsOneWindow(text, size, lap);
    }
  }
}
