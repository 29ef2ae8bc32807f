/** Boundary-preferring sliding windows over cleaned text. */
module Windows {
  import opened Text

  /** A raw window: the offset it starts at and the characters it covers. */
  datatype Window = Window(start: nat, body: string) {
    function End(): nat { start + |body| }
  }

  /** A non-blank window after stripping; `offset` is where the window started before stripping. */
  datatype Piece = Piece(text: string, offset: nat)

  const BREAKS: seq<string> := ["\n\n", "\n", ". ", "! ", "? ", "; ", ", ", " "]

  /** Just past the best of `breaks`, in order of preference, at or after `minIndex`; -1 if none fits. */
  function BestOf(window: string, minIndex: nat, breaks: seq<string>): int {
    if breaks == [] then -1
    else
      var at := RFind(window, breaks[0]);
      if at >= minIndex then at + |breaks[0]| else BestOf(window, minIndex, breaks[1..])
  }

  function BestBreak(window: string, minIndex: nat): int {
    BestOf(window, minIndex, BREAKS)
  }

  /** None of the given boundaries occurs at or after `minIndex`. */
  ghost predicate NoneFits(window: string, minIndex: nat, breaks: seq<string>) {
    forall b, j :: 0 <= b < |breaks| && j >= minIndex ==> !OccursAt(window, breaks[b], j)
  }

  /** `r` is just past the last occurrence of `breaks[b]`, late enough, and no preferred one fits. */
  ghost predicate BreaksAt(window: string, minIndex: nat, breaks: seq<string>, b: nat, r: int)
    requires b < |breaks|
  {
    var at := r - |breaks[b]|;
    && at >= minIndex && OccursAt(window, breaks[b], at)
    && (forall j :: j > at ==> !OccursAt(window, breaks[b], j))
    && NoneFits(window, minIndex, breaks[..b])
  }

  /** The cut lies just past the last occurrence of the most preferred boundary that occurs late
      enough; it is -1 exactly when no boundary does. */
  lemma {:induction false} BestOfMeaning(window: string, minIndex: nat, breaks: seq<string>)
    ensures var r := BestOf(window, minIndex, breaks);
            if r == -1 then NoneFits(window, minIndex, breaks)
            else exists b :: 0 <= b < |breaks| && BreaksAt(window, minIndex, breaks, b, r)
  {
    if breaks != [] {
      var first, rest := breaks[0], breaks[1..];
      RFindMeaning(window, first);
      var at := RFind(window, first);
      if at >= minIndex {
        assert BreaksAt(window, minIndex, breaks, 0, at + |first|);
      } else {
        BestOfMeaning(window, minIndex, rest);
        var r := BestOf(window, minIndex, rest);
        if r == -1 {
          assert forall b :: 0 < b < |breaks| ==> breaks[b] == rest[b - 1];
        } else {
          var b :| 0 <= b < |rest| && BreaksAt(window, minIndex, rest, b, r);
          assert breaks[..b + 1] == [first] + rest[..b];
          assert BreaksAt(window, minIndex, breaks, b + 1, r);
        }
      }
    }
  }

  function Min(a: int, b: int): int { if a <= b then a else b }

  function Max(a: int, b: int): int { if a >= b then a else b }

  function ClampOverlap(overlap: int, size: nat): nat {
    Max(0, Min(overlap, size / 2))
  }

  lemma {:induction false} CutFits(window: string, minIndex: nat)
    ensures BestBreak(window, minIndex) <= |window|
    ensures BestBreak(window, minIndex) == -1 || BestBreak(window, minIndex) > minIndex
  {
    BestOfMeaning(window, minIndex, BREAKS);
  }

  /** Where the window that starts at `start` ends. */
  function WindowEnd(text: string, size: nat, start: nat): (end: nat)
    requires start < |text|
    ensures start <= end <= Min(start + size, |text|)
    ensures end < |text| && size > 0 ==> end - start > size / 2
  {
    var end := Min(start + size, |text|);
    if end < |text| then
      CutFits(text[start..end], size / 2);
      var cut := BestBreak(text[start..end], size / 2);
      if cut > 0 then start + cut else end
    else end
  }

  /** Where the window after [start, end) starts. */
  function Next(start: nat, end: nat, overlap: nat): (next: nat)
    ensures next > start
  {
    Max(end - overlap, start + 1)
  }

  /** The raw windows from `start` on, before stripping. */
  function RawWindows(text: string, size: nat, overlap: nat, start: nat): seq<Window>
    decreases |text| - start
  {
    if start >= |text| then []
    else
      var end := WindowEnd(text, size, start);
      var w := Window(start, text[start..end]);
      if end >= |text| then [w] else [w] + RawWindows(text, size, overlap, Next(start, end, overlap))
  }

  /** The non-blank windows, stripped. */
  function Pieces(windows: seq<Window>): seq<Piece> {
    if windows == [] then []
    else
      var p := Strip(windows[0].body);
      if p == "" then Pieces(windows[1..]) else [Piece(p, windows[0].start)] + Pieces(windows[1..])
  }

  function PiecesFrom(text: string, size: nat, overlap: nat, start: nat): seq<Piece> {
    Pieces(RawWindows(text, size, overlap, start))
  }

  function WindowsOf(raw: string, size: nat, overlap: int): seq<Piece> {
    var text := Strip(raw);
    if text == "" then []
    else if |text| <= size then [Piece(text, 0)]
    else PiecesFrom(text, size, ClampOverlap(overlap, size), 0)
  }

  lemma {:induction false} PiecesOfCons(w: Window, rest: seq<Window>)
    ensures Pieces([w] + rest)
         == if Strip(w.body) == "" then Pieces(rest) else [Piece(Strip(w.body), w.start)] + Pieces(rest)
  {
    assert ([w] + rest)[1..] == rest;
  }

  lemma {:induction false} PiecesFromUnfolds(text: string, size: nat, overlap: nat, start: nat)
    requires start < |text|
    ensures var end := WindowEnd(text, size, start);
            var p := Strip(text[start..end]);
            var rest := if end >= |text| then [] else PiecesFrom(text, size, overlap, Next(start, end, overlap));
            PiecesFrom(text, size, overlap, start) == if p == "" then rest else [Piece(p, start)] + rest
  {
    var end := WindowEnd(text, size, start);
    var w := Window(start, text[start..end]);
    if end >= |text| {
      PiecesOfCons(w, []);
      assert [w] + [] == [w];
    } else {
      PiecesOfCons(w, RawWindows(text, size, overlap, Next(start, end, overlap)));
    }
  }

  lemma {:induction false} NoPiecesPastTheEnd(text: string, size: nat, overlap: nat, start: nat)
    requires start >= |text|
    ensures PiecesFrom(text, size, overlap, start) == []
  {
  }

  // ----- The loops -----

  method SlidingWindows(raw: string, size: nat, overlap: int) returns (out: seq<Piece>)
    ensures out == WindowsOf(raw, size, overlap)
  {
    hide RawWindows, Pieces, BestBreak, StripLeft, StripRight;
    var text := Strip(raw);
    var n := |text|;
    if n == 0 { return []; }
    if n <= size { return [Piece(text, 0)]; }
    var lap := ClampOverlap(overlap, size);
    out := [];
    var start := 0;
    ghost var all := PiecesFrom(text, size, lap, 0);
    while start < n
      invariant out + PiecesFrom(text, size, lap, start) == all
      decreases n - start
    {
      var end := WindowEnd(text, size, start);
      var piece := Strip(text[start..end]);
      ghost var rest := if end >= n then [] else PiecesFrom(text, size, lap, Next(start, end, lap));
      PiecesFromUnfolds(text, size, lap, start);
      if piece != "" {
        out := out + [Piece(piece, start)];
      }
      assert out + rest == all;
      if end >= n { return; }
      start := Next(start, end, lap);
    }
    NoPiecesPastTheEnd(text, size, lap, start);
  }

  function Texts(pieces: seq<Piece>): seq<string> {
    if pieces == [] then [] else [pieces[0].text] + Texts(pieces[1..])
  }

  lemma {:induction false} TextsOfCons(p: Piece, rest: seq<Piece>)
    ensures Texts([p] + rest) == [p.text] + Texts(rest)
  {
    assert ([p] + rest)[1..] == rest;
  }

  /** The flat chunker runs its own copy of the loop; it is the window list without the offsets. */
  method ChunkText(raw: string, size: nat, overlap: int) returns (chunks: seq<string>)
    ensures chunks == Texts(WindowsOf(raw, size, overlap))
  {
    hide RawWindows, Pieces, BestBreak, StripLeft, StripRight;
    var text := Strip(raw);
    var n := |text|;
    if n == 0 { return []; }
    if n <= size {
      TextsOfCons(Piece(text, 0), []);
      return [text];
    }
    var lap := ClampOverlap(overlap, size);
    chunks := [];
    var start := 0;
    ghost var all := Texts(PiecesFrom(text, size, lap, 0));
    while start < n
      invariant chunks + Texts(PiecesFrom(text, size, lap, start)) == all
      decreases n - start
    {
      var end := WindowEnd(text, size, start);
      var chunk := Strip(text[start..end]);
      ghost var rest := if end >= n then [] else PiecesFrom(text, size, lap, Next(start, end, lap));
      PiecesFromUnfolds(text, size, lap, start);
      if chunk != "" {
        TextsOfCons(Piece(chunk, start), rest);
        chunks := chunks + [chunk];
      }
      assert chunks + Texts(rest) == all;
      if end >= n { return; }
      start := Next(start, end, lap);
    }
    NoPiecesPastTheEnd(text, size, lap, start);
  }

  // ----- Main results -----

  /** A chain of windows of `text` from `from` to its end: each shows its part of the text, is at most
      `size` long, and starts exactly `overlap` characters before the end of the one before. */
  ghost predicate Chain(text: string, windows: seq<Window>, from: nat, size: nat, overlap: nat) {
    && windows != [] && windows[0].start == from && windows[|windows| - 1].End() == |text|
    && (forall i :: 0 <= i < |windows| ==> OccursAt(text, windows[i].body, windows[i].start))
    && (forall i :: 0 <= i < |windows| ==> 0 < |windows[i].body| <= size)
    && (forall i :: 0 <= i < |windows| - 1 ==>
          && windows[i].End() < |text|
          && |windows[i].body| > overlap
          && windows[i + 1].start == windows[i].End() - overlap)
  }

  lemma {:induction false} ChainGrows(text: string, w: Window, rest: seq<Window>, size: nat, overlap: nat)
    requires OccursAt(text, w.body, w.start) && overlap < |w.body| <= size && w.End() < |text|
    requires Chain(text, rest, w.End() - overlap, size, overlap)
    ensures Chain(text, [w] + rest, w.start, size, overlap)
  {
    var windows := [w] + rest;
    forall i | 0 < i < |windows|
      ensures windows[i] == rest[i - 1]
    {
    }
  }

  /** The windows cover the text without a gap, and consecutive ones overlap by exactly the clamped
      overlap: the `start + 1` guard in the loop never decides. */
  lemma {:induction false} WindowsFormAChain(text: string, size: nat, overlap: nat, start: nat)
    requires size >= 1 && overlap <= size / 2 && start < |text|
    ensures Chain(text, RawWindows(text, size, overlap, start), start, size, overlap)
    decreases |text| - start
  {
    hide Chain, OccursAt;
    var end := WindowEnd(text, size, start);
    var w := Window(start, text[start..end]);
    if end < |text| {
      NextStepsBack(start, end, overlap);
      WindowsFormAChain(text, size, overlap, end - overlap);
      ChainGrows(text, w, RawWindows(text, size, overlap, end - overlap), size, overlap);
    } else {
      ChainOfOne(text, w, size, overlap);
    }
  }

  lemma {:induction false} NextStepsBack(start: nat, end: nat, overlap: nat)
    requires start + overlap < end
    ensures Next(start, end, overlap) == end - overlap
  {
  }

  lemma {:induction false} ChainOfOne(text: string, w: Window, size: nat, overlap: nat)
    requires OccursAt(text, w.body, w.start) && 0 < |w.body| <= size && w.End() == |text|
    ensures Chain(text, [w], w.start, size, overlap)
  {
  }

  /** Glues windows together, leaving out the characters each repeats from the one before. */
  function Rejoin(windows: seq<Window>, overlap: nat): string {
    if windows == [] then ""
    else if overlap > |windows[0].body| then Rejoin(windows[1..], overlap)
    else windows[0].body[overlap..] + Rejoin(windows[1..], overlap)
  }

  lemma {:induction false} ChainHead(text: string, windows: seq<Window>, from: nat, size: nat, overlap: nat)
    requires Chain(text, windows, from, size, overlap)
    ensures windows != [] && OccursAt(text, windows[0].body, from) && windows[0].start == from
    ensures |windows| == 1 ==> windows[0].End() == |text|
    ensures |windows| > 1 ==> overlap < |windows[0].body|
  {
  }

  lemma {:induction false} ChainTail(text: string, windows: seq<Window>, from: nat, size: nat, overlap: nat)
    requires Chain(text, windows, from, size, overlap) && |windows| > 1
    ensures Chain(text, windows[1..], windows[0].End() - overlap, size, overlap)
    ensures overlap <= |windows[1].body|
  {
    var rest := windows[1..];
    forall i | 0 <= i < |rest| ensures rest[i] == windows[i + 1] {}
    assert |rest| == 1 ==> rest[0].End() == |text|;
  }

  lemma {:induction false} RejoinIsSuffix(text: string, windows: seq<Window>, from: nat, size: nat, overlap: nat)
    requires Chain(text, windows, from, size, overlap) && overlap <= |windows[0].body|
    ensures Rejoin(windows, overlap) == text[from + overlap..]
  {
    hide Chain;
    ChainHead(text, windows, from, size, overlap);
    var w := windows[0];
    SliceOfSlice(text, from, w.End(), overlap, |w.body|);
    assert w.body[overlap..] == w.body[overlap..|w.body|];
    if |windows| > 1 {
      ChainTail(text, windows, from, size, overlap);
      RejoinIsSuffix(text, windows[1..], w.End() - overlap, size, overlap);
      assert text[from + overlap..] == text[from + overlap..w.End()] + text[w.End()..];
    }
  }

  lemma {:induction false} ChainRejoins(text: string, windows: seq<Window>, size: nat, overlap: nat)
    requires Chain(text, windows, 0, size, overlap)
    ensures windows[0].body + Rejoin(windows[1..], overlap) == text
  {
    hide Chain;
    ChainHead(text, windows, 0, size, overlap);
    if |windows| > 1 {
      ChainTail(text, windows, 0, size, overlap);
      RejoinIsSuffix(text, windows[1..], windows[0].End() - overlap, size, overlap);
    }
  }

  /** Round trip: the first window followed by the new part of every later one is the whole text. With
      overlap 0 this says that the windows partition the text. */
  lemma {:induction false} WindowsRejoin(text: string, size: nat, overlap: nat)
    requires size >= 1 && overlap <= size / 2 && text != ""
    ensures var windows := RawWindows(text, size, overlap, 0);
            windows != [] && windows[0].body + Rejoin(windows[1..], overlap) == text
  {
    WindowsFormAChain(text, size, overlap, 0);
    ChainRejoins(text, RawWindows(text, size, overlap, 0), size, overlap);
  }

  /** Piece `p` shows character `i` of the text, given that `lead` spaces were stripped before it. */
  ghost predicate Shows(text: string, p: Piece, lead: nat, i: int) {
    var at := p.offset + lead;
    at <= i < at + |p.text| && OccursAt(text, p.text, at)
  }

  lemma {:induction false} PieceOfWindow(windows: seq<Window>, k: nat)
    requires k < |windows| && Strip(windows[k].body) != ""
    ensures Piece(Strip(windows[k].body), windows[k].start) in Pieces(windows)
  {
    if k > 0 {
      PieceOfWindow(windows[1..], k - 1);
    }
  }

  lemma {:induction false} WindowContaining(text: string, windows: seq<Window>, size: nat, overlap: nat, i: nat)
    returns (k: nat)
    requires Chain(text, windows, 0, size, overlap) && i < |text|
    ensures k < |windows| && windows[k].start <= i < windows[k].End()
    ensures OccursAt(text, windows[k].body, windows[k].start)
  {
    k := 0;
    while i >= windows[k].End()
      invariant k < |windows| && windows[k].start <= i
      decreases |windows| - k
    {
      k := k + 1;
    }
  }

  lemma {:induction false} ChainShowsCharacter(text: string, windows: seq<Window>, size: nat, overlap: nat, i: nat)
    returns (p: Piece, lead: nat)
    requires Chain(text, windows, 0, size, overlap)
    requires i < |text| && !IsSpace(text[i])
    ensures p in Pieces(windows) && Shows(text, p, lead, i)
  {
    hide Chain, Pieces, Strip;
    var k := WindowContaining(text, windows, size, overlap, i);
    var w := windows[k];
    assert w.body[i - w.start] == text[i];
    lead := StripMeaning(w.body);
    p := Piece(Strip(w.body), w.start);
    PieceOfWindow(windows, k);
    CoreOfPart(text, w.body, w.start, Strip(w.body), lead);
  }

  /** No character that is not white space is lost: each one shows in some piece. */
  lemma {:induction false} NoCharacterLost(raw: string, size: nat, overlap: int, i: nat)
    returns (p: Piece, lead: nat)
    requires size >= 1
    requires i < |Strip(raw)| && !IsSpace(Strip(raw)[i])
    ensures p in WindowsOf(raw, size, overlap) && Shows(Strip(raw), p, lead, i)
  {
    var text := Strip(raw);
    if |text| <= size {
      p, lead := Piece(text, 0), 0;
    } else {
      var lap := ClampOverlap(overlap, size);
      WindowsFormAChain(text, size, lap, 0);
      p, lead := ChainShowsCharacter(text, RawWindows(text, size, lap, 0), size, lap, i);
    }
  }

  /** What a caller may rely on about each piece: it is a non-blank, trimmed, contiguous part of the
      text, it ends inside the window that starts at its recorded offset, and it begins there plus the
      `lead` white-space characters that stripping removed. */
  ghost predicate GoodPiece(text: string, size: nat, p: Piece, lead: nat) {
    && p.text != "" && Trimmed(p.text) && lead + |p.text| <= size
    && OccursAt(text, p.text, p.offset + lead) && SpacesAt(text, p.offset, lead)
  }

  lemma {:induction false} PiecesAreGood(text: string, windows: seq<Window>, size: nat, k: nat)
    returns (lead: nat)
    requires k < |Pieces(windows)|
    requires forall i :: 0 <= i < |windows| ==>
               OccursAt(text, windows[i].body, windows[i].start) && |windows[i].body| <= size
    ensures GoodPiece(text, size, Pieces(windows)[k], lead)
  {
    var w := windows[0];
    var p := Strip(w.body);
    var skip := if p == "" then 0 else 1;
    hide Strip, OccursAt, SpacesAt;
    if k < skip {
      lead := StripMeaning(w.body);
      CoreOfPart(text, w.body, w.start, p, lead);
    } else {
      lead := PiecesAreGood(text, windows[1..], size, k - skip);
    }
  }

  /** Every piece the chunker returns is a good piece of the stripped text. */
  lemma {:induction false} WindowPiecesAreGood(raw: string, size: nat, overlap: int, k: nat)
    returns (lead: nat)
    requires k < |WindowsOf(raw, size, overlap)|
    ensures GoodPiece(Strip(raw), size, WindowsOf(raw, size, overlap)[k], lead)
  {
    var text := Strip(raw);
    var _ := StripMeaning(raw);
    if |text| <= size {
      lead := 0;
    } else {
      var lap := ClampOverlap(overlap, size);
      if size == 0 {
        ZeroSizeWindowsAreEmpty(text, lap, 0);
      } else {
        WindowsFormAChain(text, size, lap, 0);
      }
      lead := PiecesAreGood(text, RawWindows(text, size, lap, 0), size, k);
    }
  }

  /** With a window size of 0 the loop still ends, one character at a time, and finds nothing. */
  lemma {:induction false} ZeroSizeWindowsAreEmpty(text: string, overlap: nat, start: nat)
    ensures forall w :: w in RawWindows(text, 0, overlap, start) ==> w.body == "" && w.start < |text|
    decreases |text| - start
  {
    if start < |text| {
      ZeroSizeWindowsAreEmpty(text, overlap, Next(start, WindowEnd(text, 0, start), overlap));
    }
  }

  /** The shortcut for short texts is the general rule with one window. */
  lemma {:induction false} ShortTextIsOneWindow(text: string, size: nat, overlap: nat)
    requires 0 < |text| <= size && Trimmed(text)
    ensures PiecesFrom(text, size, overlap, 0) == WindowsOf(text, size, overlap)
  {
    var w := Window(0, text);
    assert text[0..|text|] == text;
    PiecesOfCons(w, []);
    assert [w] + [] == [w];
  }

  /** A non-blank text yields at least one piece, and the first starts at offset 0. */
  lemma {:induction false} FirstPiece(raw: string, size: nat, overlap: int)
    requires size >= 1 && !Blank(raw)
    ensures WindowsOf(raw, size, overlap) != [] && WindowsOf(raw, size, overlap)[0].offset == 0
  {
    var text := Strip(raw);
    var _ := StripMeaning(raw);
    if |text| > size {
      var lap := ClampOverlap(overlap, size);
      WindowsFormAChain(text, size, lap, 0);
      var w := RawWindows(text, size, lap, 0)[0];
      assert OccursAt(text, w.body, 0) && w.body[0] == text[0];
      var _ := StripMeaning(w.body);
    }
  }
}
