/** Where chunks lie in their document: nothing visible is lost on the way to the chunks, and the recorded
    offsets point at the chunks up to the white space that stripping removed. */
module ChunkOffsets {
  import opened Text
  import opened Windows
  import opened Sections
  import opened ChunkDocument

  // ----- Nothing visible is lost -----

  /** Every visible character of a section body, at whatever place, is shown at that very place by a child of
      a window of that section. */
  lemma {:induction false} NoBodyCharacterLost(
      sections: seq<Section>, n: nat, childSize: nat, parentSize: nat, overlap: int, i: nat)
    returns (p: Piece, c: Child, at: nat)
    requires childSize >= 1 && parentSize >= 1 && n < |sections|
    requires i < |Strip(sections[n].body)| && !IsSpace(Strip(sections[n].body)[i])
    ensures c in Children(Parents(sections, parentSize), childSize, overlap)
    ensures c.parentKey < |Parents(sections, parentSize)| && ParentFrom(sections, parentSize, c.parentKey, n, p)
    ensures OccursAt(Strip(sections[n].body), c.rawText, at) && at <= i < at + |c.rawText|
    ensures c.section == LabelOf(sections[n].path)
  {
    hide WindowsOf, Children, Parents, LabelOf, WithHeading;
    var body := Strip(sections[n].body);
    var lead, lead', q;
    p, lead := NoCharacterLost(sections[n].body, parentSize, 0, i);
    var inParent := i - (p.offset + lead);
    assert body[p.offset + lead..p.offset + lead + |p.text|][inParent] == body[i];
    var k := ParentOfPiece(sections, parentSize, n, p);
    var parents := Parents(sections, parentSize);
    ParentsAreGood(sections, parentSize, k);
    StripOfTrimmed(p.text);
    q, lead' := NoCharacterLost(p.text, childSize, overlap, inParent);
    ChildOfPiece(parents, childSize, overlap, k, q);
    c, at := ChildOf(parents[k], k, q), p.offset + lead + (q.offset + lead');
    OccursWithin(body, p.text, p.offset + lead, q.text, q.offset + lead');
  }

  /** The same for a whole document: every visible character of a line that is not a heading is shown at its
      own place by a chunk, which is labelled with the headings that enclose the line. Without structure
      awareness every line counts, and there is no label. */
  lemma {:induction false} DocumentKeepsVisibleCharacters(
      raw: string, detect: Detector, childSize: nat, parentSize: nat, overlap: int, structureAware: bool,
      l: nat, j: nat)
    returns (c: Child, at: nat)
    requires childSize >= 1
    requires var lines := Lines(Strip(raw));
             l < |lines| && j < |lines[l]| && !IsSpace(lines[l][j]) && (structureAware ==> detect(lines[l]).Plain?)
    ensures c in DocumentChildren(raw, detect, childSize, parentSize, overlap, structureAware)
    ensures var lines := Lines(Strip(raw));
            && OccursAt(Strip(raw), c.rawText, at) && at <= Offset(lines, l) + j < at + |c.rawText|
            && c.section == LabelOf(if structureAware then Titles(Enclosing(lines, detect, 0, l)) else [])
  {
    hide Lines, Join, Strip, Offset, Enclosing, Titles, Children, Parents, LabelOf, Sectioning, ParentFrom;
    var doc, lines := Strip(raw), Lines(Strip(raw));
    var sections, size := DocumentSections(raw, detect, structureAware), Max(parentSize, childSize);
    var lead := StripMeaning(raw);
    JoinOfLines(doc);
    CharacterOfLine(lines, l, l, l + 1, j);
    StripOfTrimmed(doc);
    var n, base, i, p;
    if structureAware {
      n, base, i := PlainCharacterIsInSection(doc, detect, l, j);
      StripOfTrimmed(sections[n].body);
    } else {
      FlatSection(doc, detect);
      n, base, i := 0, 0, Offset(lines, l) + j;
    }
    p, c, at := NoBodyCharacterLost(sections, n, childSize, size, overlap, i);
    OccursWithin(doc, sections[n].body, base, c.rawText, at);
    at := base + at;
  }

  lemma {:induction false} FlatSection(doc: string, detect: Detector)
    ensures Sectioning(doc, detect, false) == [Section([], doc, 0)] && OccursAt(doc, doc, 0)
  {
  }

  // ----- Recorded offsets -----

  /** The three places where stripping can remove white space in front of a chunk: before the body of its
      section, before its parent window and before its own window. */
  datatype Gaps = Gaps(section: nat, parent: nat, own: nat) {
    function Total(): nat { section + parent + own }
  }

  /** The chunk comes from the window `q` of parent `k`, which is the window `p` of section `s`; each text lies
      in the one before at its recorded place plus a gap of white space. */
  ghost predicate LiesIn(doc: string, s: Section, p: Piece, q: Piece, c: Child, gaps: Gaps) {
    && c.rawText == q.text && c.charStart == s.start + p.offset + q.offset && c.charEnd == c.charStart + |q.text|
    && OccursAt(doc, s.body, s.start + gaps.section) && SpacesAt(doc, s.start, gaps.section)
    && OccursAt(s.body, p.text, p.offset + gaps.parent) && SpacesAt(s.body, p.offset, gaps.parent)
    && OccursAt(p.text, q.text, q.offset + gaps.own) && SpacesAt(p.text, q.offset, gaps.own)
    && q.text != "" && Trimmed(q.text)
  }

  /** Every chunk is found in the document at its recorded `char_start` plus the white space stripped on the
      way from its section, its parent window and its own window. */
  lemma {:induction false} ChunkLocated(
      raw: string, detect: Detector, childSize: nat, parentSize: nat, overlap: int, structureAware: bool, i: nat)
    returns (s: Section, p: Piece, q: Piece, gaps: Gaps)
    requires i < |DocumentChildren(raw, detect, childSize, parentSize, overlap, structureAware)|
    ensures var c := DocumentChildren(raw, detect, childSize, parentSize, overlap, structureAware)[i];
            && s in DocumentSections(raw, detect, structureAware)
            && p in WindowsOf(s.body, Max(parentSize, childSize), 0) && q in WindowsOf(p.text, childSize, overlap)
            && LiesIn(Strip(raw), s, p, q, c, gaps)
            && OccursAt(Strip(raw), c.rawText, c.charStart + gaps.Total())
  {
    hide Parents, Children, Sectioning, OccursAt, SpacesAt, WindowsOf, Strip;
    var sections, size := DocumentSections(raw, detect, structureAware), Max(parentSize, childSize);
    var parents := Parents(sections, size);
    var k, n;
    k, q := ChildSource(parents, childSize, overlap, i);
    n, p := ParentSource(sections, size, k);
    s := sections[n];
    var _ := StripMeaning(raw);
    var sectionGap := SectionLocated(Strip(raw), detect, structureAware, s);
    StripOfTrimmed(s.body);
    var parentGap := PieceIsGood(s.body, size, 0, p);
    StripOfTrimmed(p.text);
    var ownGap := PieceIsGood(p.text, childSize, overlap, q);
    gaps := Gaps(sectionGap, parentGap, ownGap);
    OccursWithin(Strip(raw), s.body, s.start + sectionGap, p.text, p.offset + parentGap);
    OccursWithin(Strip(raw), p.text, s.start + sectionGap + p.offset + parentGap, q.text, q.offset + ownGap);
  }

  ghost predicate VisibleAt(text: string, i: nat) {
    i < |text| && !IsSpace(text[i])
  }

  /** `doc[char_start:char_end] == raw_text` for every chunk. */
  ghost predicate AllExact(doc: string, children: seq<Child>) {
    forall i :: 0 <= i < |children| ==> IsExact(doc, children[i])
  }

  ghost predicate IsExact(doc: string, c: Child) {
    c.charStart <= c.charEnd <= |doc| && doc[c.charStart..c.charEnd] == c.rawText
  }

  ghost predicate AllStartsVisible(doc: string, children: seq<Child>) {
    forall i :: 0 <= i < |children| ==> VisibleAt(doc, children[i].charStart)
  }

  /** No child window of the parent window begins with white space. */
  ghost predicate ChildWindowsStartVisible(text: string, childSize: nat, overlap: int) {
    forall q :: q in WindowsOf(text, childSize, overlap) ==> VisibleAt(text, q.offset)
  }

  ghost predicate WindowStartsVisible(body: string, p: Piece, childSize: nat, overlap: int) {
    VisibleAt(body, p.offset) && ChildWindowsStartVisible(p.text, childSize, overlap)
  }

  /** The section's block begins with a visible character, and so does each of its windows. */
  ghost predicate SectionStartsVisible(doc: string, s: Section, size: nat, childSize: nat, overlap: int) {
    && VisibleAt(doc, s.start)
    && forall p :: p in WindowsOf(s.body, size, 0) ==> WindowStartsVisible(s.body, p, childSize, overlap)
  }

  ghost predicate AllWindowsStartVisible(doc: string, sections: seq<Section>, size: nat, childSize: nat, overlap: int) {
    forall s :: s in sections ==> SectionStartsVisible(doc, s, size, childSize, overlap)
  }

  lemma {:induction false} VisibleMeansNoGap(text: string, at: nat, gap: nat)
    requires SpacesAt(text, at, gap) && VisibleAt(text, at)
    ensures gap == 0
  {
  }

  /** A trimmed text is found only where there is a visible character. */
  lemma {:induction false} FoundTextIsVisible(text: string, part: string, at: nat)
    requires OccursAt(text, part, at) && part != "" && Trimmed(part)
    ensures VisibleAt(text, at)
  {
    assert text[at..at + |part|][0] == text[at];
  }

  /** A character of a part, in the whole. */
  lemma {:induction false} SameCharacter(text: string, part: string, at: nat, i: nat)
    requires OccursAt(text, part, at) && VisibleAt(text, at + i) && i < |part|
    ensures VisibleAt(part, i)
  {
    assert text[at..at + |part|][i] == text[at + i];
  }

  lemma {:induction false} VisibleWindowsAreExact(
      raw: string, detect: Detector, childSize: nat, parentSize: nat, overlap: int, structureAware: bool)
    requires AllWindowsStartVisible(Strip(raw), DocumentSections(raw, detect, structureAware),
                                    Max(parentSize, childSize), childSize, overlap)
    ensures AllExact(Strip(raw), DocumentChildren(raw, detect, childSize, parentSize, overlap, structureAware))
  {
    hide DocumentChildren, DocumentSections, WindowsOf, Strip, VisibleAt, SpacesAt, OccursAt, IsExact;
    var children := DocumentChildren(raw, detect, childSize, parentSize, overlap, structureAware);
    forall i | 0 <= i < |children| ensures IsExact(Strip(raw), children[i]) {
      var s, p, q, gaps := ChunkLocated(raw, detect, childSize, parentSize, overlap, structureAware, i);
      assert SectionStartsVisible(Strip(raw), s, Max(parentSize, childSize), childSize, overlap);
      assert WindowStartsVisible(s.body, p, childSize, overlap);
      VisibleMeansNoGap(Strip(raw), s.start, gaps.section);
      VisibleMeansNoGap(s.body, p.offset, gaps.parent);
      VisibleMeansNoGap(p.text, q.offset, gaps.own);
      FoundIsExact(Strip(raw), children[i]);
    }
  }

  lemma {:induction false} FoundIsExact(doc: string, c: Child)
    requires OccursAt(doc, c.rawText, c.charStart) && c.charEnd == c.charStart + |c.rawText|
    ensures IsExact(doc, c)
  {
  }

  /** Every window of a section gives a child that starts where it starts. */
  lemma {:induction false} ChildOfWindows(
      sections: seq<Section>, size: nat, childSize: nat, overlap: int, n: nat, p: Piece, q: Piece)
    returns (i: nat)
    requires n < |sections| && p in WindowsOf(sections[n].body, size, 0) && q in WindowsOf(p.text, childSize, overlap)
    ensures var children := Children(Parents(sections, size), childSize, overlap);
            i < |children| && children[i].charStart == sections[n].start + p.offset + q.offset
  {
    hide Parents, Children, WindowsOf, LabelOf, WithHeading;
    var k := ParentOfPiece(sections, size, n, p);
    var parents := Parents(sections, size);
    ChildOfPiece(parents, childSize, overlap, k, q);
    var children := Children(parents, childSize, overlap);
    i :| 0 <= i < |children| && children[i] == ChildOf(parents[k], k, q);
  }

  /** With visible starts the first child of a section starts where the section starts, and the first child
      of a parent where the parent starts: so the gaps vanish one after the other. */
  lemma {:induction false} VisibleStartsGiveSection(
      doc: string, sections: seq<Section>, size: nat, childSize: nat, overlap: int, n: nat, sectionGap: nat)
    requires childSize >= 1 && size >= 1 && n < |sections|
    requires AllStartsVisible(doc, Children(Parents(sections, size), childSize, overlap))
    requires sections[n].body != "" && Trimmed(sections[n].body)
    requires OccursAt(doc, sections[n].body, sections[n].start + sectionGap)
             && SpacesAt(doc, sections[n].start, sectionGap)
    ensures SectionStartsVisible(doc, sections[n], size, childSize, overlap)
  {
    hide Parents, Children, WindowsOf, OccursAt, SpacesAt, VisibleAt, Strip;
    var s, children := sections[n], Children(Parents(sections, size), childSize, overlap);
    StripOfTrimmed(s.body);
    TrimmedIsNotBlank(s.body);
    FirstPiece(s.body, size, 0);
    var p0 := WindowsOf(s.body, size, 0)[0];
    assert p0 in WindowsOf(s.body, size, 0);
    WindowsGiveVisible(doc, sections, size, childSize, overlap, n, p0);
    VisibleMeansNoGap(doc, s.start, sectionGap);
    forall p | p in WindowsOf(s.body, size, 0) ensures WindowStartsVisible(s.body, p, childSize, overlap) {
      WindowsGiveVisible(doc, sections, size, childSize, overlap, n, p);
      var gap := PieceIsGood(s.body, size, 0, p);
      PieceEndsInside(s.body, size, p, gap);
      SameCharacter(doc, s.body, s.start, p.offset);
      VisibleMeansNoGap(s.body, p.offset, gap);
      OccursWithin(doc, s.body, s.start, p.text, p.offset);
      ChildWindowsVisible(doc, sections, size, childSize, overlap, n, p);
    }
  }

  lemma {:induction false} TrimmedIsNotBlank(s: string)
    requires s != "" && Trimmed(s)
    ensures !Blank(s)
  {
    assert !IsSpace(s[0]);
  }

  lemma {:induction false} WindowsGiveVisible(
      doc: string, sections: seq<Section>, size: nat, childSize: nat, overlap: int, n: nat, p: Piece)
    requires childSize >= 1 && n < |sections| && p in WindowsOf(sections[n].body, size, 0)
    requires AllStartsVisible(doc, Children(Parents(sections, size), childSize, overlap))
    ensures VisibleAt(doc, sections[n].start + p.offset)
  {
    hide Parents, Children, WindowsOf, VisibleAt, Strip;
    var _ := PieceIsGood(sections[n].body, size, 0, p);
    TrimmedIsNotBlank(p.text);
    FirstPiece(p.text, childSize, overlap);
    var i := ChildOfWindows(sections, size, childSize, overlap, n, p, WindowsOf(p.text, childSize, overlap)[0]);
  }

  lemma {:induction false} ChildWindowsVisible(
      doc: string, sections: seq<Section>, size: nat, childSize: nat, overlap: int, n: nat, p: Piece)
    requires n < |sections| && p in WindowsOf(sections[n].body, size, 0)
    requires AllStartsVisible(doc, Children(Parents(sections, size), childSize, overlap))
    requires OccursAt(doc, p.text, sections[n].start + p.offset) && p.text != "" && Trimmed(p.text)
    ensures ChildWindowsStartVisible(p.text, childSize, overlap)
  {
    hide Parents, Children, WindowsOf, OccursAt, VisibleAt, Strip;
    StripOfTrimmed(p.text);
    forall q | q in WindowsOf(p.text, childSize, overlap) ensures VisibleAt(p.text, q.offset) {
      var i := ChildOfWindows(sections, size, childSize, overlap, n, p, q);
      var gap := PieceIsGood(p.text, childSize, overlap, q);
      PieceEndsInside(p.text, childSize, q, gap);
      SameCharacter(doc, p.text, sections[n].start + p.offset, q.offset);
    }
  }

  /** Every recorded span is exactly its chunk if and only if no block of a section, no parent window and no
      child window begins with white space; which is so if and only if no recorded start is on white space. */
  lemma {:induction false} OffsetsAreExactIff(
      raw: string, detect: Detector, childSize: nat, parentSize: nat, overlap: int, structureAware: bool)
    requires childSize >= 1
    ensures var doc := Strip(raw);
            var children := DocumentChildren(raw, detect, childSize, parentSize, overlap, structureAware);
            var sections := DocumentSections(raw, detect, structureAware);
            && (AllExact(doc, children)
                <==> AllWindowsStartVisible(doc, sections, Max(parentSize, childSize), childSize, overlap))
            && (AllExact(doc, children) <==> AllStartsVisible(doc, children))
  {
    hide DocumentSections, Parents, Children, WindowsOf, Strip, OccursAt, SpacesAt, SectionStartsVisible,
         AllStartsVisible, AllExact;
    var doc, children := Strip(raw), DocumentChildren(raw, detect, childSize, parentSize, overlap, structureAware);
    var sections, size := DocumentSections(raw, detect, structureAware), Max(parentSize, childSize);
    if AllExact(doc, children) {
      ExactStartsAreVisible(raw, detect, childSize, parentSize, overlap, structureAware);
    }
    if AllStartsVisible(doc, children) {
      forall s | s in sections ensures SectionStartsVisible(doc, s, size, childSize, overlap) {
        var n :| 0 <= n < |sections| && sections[n] == s;
        var gap := DocumentSectionLocated(raw, detect, structureAware, s);
        VisibleStartsGiveSection(doc, sections, size, childSize, overlap, n, gap);
      }
    }
    if AllWindowsStartVisible(doc, sections, size, childSize, overlap) {
      VisibleWindowsAreExact(raw, detect, childSize, parentSize, overlap, structureAware);
    }
  }

  lemma {:induction false} ExactStartsAreVisible(
      raw: string, detect: Detector, childSize: nat, parentSize: nat, overlap: int, structureAware: bool)
    requires AllExact(Strip(raw), DocumentChildren(raw, detect, childSize, parentSize, overlap, structureAware))
    ensures AllStartsVisible(Strip(raw), DocumentChildren(raw, detect, childSize, parentSize, overlap, structureAware))
  {
    hide DocumentChildren, DocumentSections, WindowsOf, Strip, SpacesAt, VisibleAt;
    var children := DocumentChildren(raw, detect, childSize, parentSize, overlap, structureAware);
    forall i | 0 <= i < |children| ensures VisibleAt(Strip(raw), children[i].charStart) {
      var s, p, q, gaps := ChunkLocated(raw, detect, childSize, parentSize, overlap, structureAware, i);
      assert IsExact(Strip(raw), children[i]);
      FoundTextIsVisible(Strip(raw), q.text, children[i].charStart);
    }
  }

  lemma {:induction false} DocumentSectionLocated(raw: string, detect: Detector, structureAware: bool, s: Section)
    returns (gap: nat)
    requires s in DocumentSections(raw, detect, structureAware)
    ensures s.body != "" && Trimmed(s.body)
    ensures OccursAt(Strip(raw), s.body, s.start + gap) && SpacesAt(Strip(raw), s.start, gap)
  {
    hide Sectioning, Strip, OccursAt, SpacesAt;
    var _ := StripMeaning(raw);
    gap := SectionLocated(Strip(raw), detect, structureAware, s);
  }

  // ----- A concrete document -----

  const EXAMPLE: string := "# T\n\nab"
  const EXAMPLE_LINES: seq<string> := ["# T", "", "ab"]

  function TitleOnly(line: string): Line {
    if line == "# T" then Head(Heading(1, "T")) else Plain
  }

  lemma {:induction false} LinesOfNewline(rest: string)
    ensures Lines(['\n'] + rest) == [""] + Lines(rest)
  {
    assert (['\n'] + rest)[1..] == rest;
  }

  lemma {:induction false} LinesOfCharacter(c: char, rest: string, first: string, others: seq<string>)
    requires c != '\n' && Lines(rest) == [first] + others
    ensures Lines([c] + rest) == [[c] + first] + others
  {
    assert ([c] + rest)[1..] == rest;
    assert ([first] + others)[1..] == others;
  }

  lemma {:induction false} LinesOfExample()
    ensures Lines(EXAMPLE) == EXAMPLE_LINES
  {
    hide Lines;
    LinesOfNothing();
    assert [""] == [""] + [];
    LinesOfCharacter('b', "", "", []);
    assert ['b'] + "" == "b";
    LinesOfCharacter('a', "b", "b", []);
    assert ['a'] + "b" == "ab";
    LinesOfNewline("ab");
    assert ['\n'] + "ab" == "\nab";
    LinesOfNewline("\nab");
    assert ['\n'] + "\nab" == "\n\nab";
    var others := [""] + ["ab"];
    LinesOfCharacter('T', "\n\nab", "", others);
    assert ['T'] + "\n\nab" == "T\n\nab" && ['T'] + "" == "T";
    LinesOfCharacter(' ', "T\n\nab", "T", others);
    assert [' '] + "T\n\nab" == " T\n\nab" && [' '] + "T" == " T";
    LinesOfCharacter('#', " T\n\nab", " T", others);
    assert ['#'] + " T\n\nab" == EXAMPLE && ['#'] + " T" == "# T";
  }

  lemma {:induction false} LinesOfNothing()
    ensures Lines("") == [""]
  {
  }

  lemma {:induction false} BlocksOfExample()
    ensures Blocks(EXAMPLE_LINES, TitleOnly) == [Block(0, 0), Block(1, 3)]
  {
    var lines := EXAMPLE_LINES;
    assert BlockStart(lines, TitleOnly, 0) == 0 && BlockStart(lines, TitleOnly, 1) == 1;
    assert BlockStart(lines, TitleOnly, 2) == 1 && BlockStart(lines, TitleOnly, 3) == 1;
    assert BlocksBefore(lines, TitleOnly, 1) == [Block(0, 0)];
    assert BlocksBefore(lines, TitleOnly, 2) == [Block(0, 0)];
  }

  lemma {:induction false} SectionsOfExample()
    ensures SectionsOf(EXAMPLE_LINES, TitleOnly, [Block(0, 0), Block(1, 3)]) == [Section(["T"], "ab", 4)]
  {
    var lines := EXAMPLE_LINES;
    assert lines[0..0] == [] && SectionOf(lines, TitleOnly, Block(0, 0)) == [];
    assert lines[1..3] == ["", "ab"] && ["", "ab"][1..] == ["ab"];
    assert Join(lines[1..3], "\n") == "\nab";
    StripNewline();
    assert Enclosing(lines, TitleOnly, 1, 1) == [] && Encloses(lines, TitleOnly, 0, 1);
    assert Enclosing(lines, TitleOnly, 0, 1) == [Heading(1, "T")];
    assert [Heading(1, "T")][1..] == [] && Titles([Heading(1, "T")]) == ["T"];
    assert Offset(lines, 0) == 0 && Offset(lines, 1) == 4;
    assert SectionOf(lines, TitleOnly, Block(1, 3)) == [Section(["T"], "ab", 4)];
    assert [Block(0, 0), Block(1, 3)][..1] == [Block(0, 0)] && [Block(0, 0)][..0] == [];
  }

  lemma {:induction false} StripNewline()
    ensures Strip("\nab") == "ab"
  {
    assert "\nab"[1..] == "ab";
  }

  lemma {:induction false} ChildrenOfExample()
    ensures var s := Section(["T"], "ab", 4);
            var child := ChildOf(ParentOf(s, Piece("ab", 0)), 0, Piece("ab", 0));
            Children(Parents([s], 10), 10, 0) == [child] && child.rawText == "ab" && child.charStart == 4
  {
    hide LabelOf, WithHeading, Strip;
    StripOfTrimmed("ab");
    assert WindowsOf("ab", 10, 0) == [Piece("ab", 0)];
    var s := Section(["T"], "ab", 4);
    var parent := ParentOf(s, Piece("ab", 0));
    assert [s][..0] == [] && Parents([], 10) == [] && Parents([s], 10) == [parent];
    assert [parent][..0] == [] && Children([], 10, 0) == [];
    assert Children([parent], 10, 0) == [ChildOf(parent, 0, Piece("ab", 0))];
  }

  /** After a heading and an empty line the text starts at 5, but 4 is recorded. */
  lemma {:induction false} OffsetCanBeTooEarly()
    ensures var children := DocumentChildren(EXAMPLE, TitleOnly, 10, 10, 0, true);
            && Strip(EXAMPLE) == EXAMPLE && |children| == 1 && children[0].rawText == "ab" && children[0].charStart == 4
            && OccursAt(EXAMPLE, "ab", 5) && !OccursAt(EXAMPLE, "ab", 4)
  {
    hide Lines, Blocks, SectionsOf, Children, Parents, Strip, ChildOf, ParentOf, TitleOnly;
    StripOfTrimmed(EXAMPLE);
    LinesOfExample();
    BlocksOfExample();
    SectionsOfExample();
    ChildrenOfExample();
    assert EXAMPLE[4..6][0] == '\n' && EXAMPLE[5..7] == "ab";
  }
}
