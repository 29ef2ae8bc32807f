/** Splitting a document into sections under a stack of headings. The regular expressions that
    recognise a heading are a parameter: any function from a line to an optional heading. */
module Sections {
  import opened Text

  datatype Heading = Heading(level: nat, title: string)

  datatype Line = Plain | Head(heading: Heading)

  type Detector = string -> Line

  datatype Section = Section(path: seq<string>, body: string, start: nat)

  // ----- Lines and offsets -----

  /** Python's `text.split("\n")`. */
  function Lines(text: string): (lines: seq<string>)
    ensures lines != []
  {
    if text == "" then [""]
    else
      var rest := Lines(text[1..]);
      if text[0] == '\n' then [""] + rest else [[text[0]] + rest[0]] + rest[1..]
  }

  /** The offset of line `i` in the text the lines were split from. */
  function Offset(lines: seq<string>, i: nat): nat
    requires i <= |lines|
  {
    if i == 0 then 0 else Offset(lines, i - 1) + |lines[i - 1]| + 1
  }

  lemma {:induction false} JoinOfLines(text: string)
    ensures Join(Lines(text), "\n") == text
  {
    if text != "" {
      var rest := Lines(text[1..]);
      JoinOfLines(text[1..]);
      if text[0] == '\n' {
        assert ([""] + rest)[1..] == rest;
      } else {
        assert ([[text[0]] + rest[0]] + rest[1..])[1..] == rest[1..];
      }
    }
  }

  lemma {:induction false} OffsetIsJoinLength(lines: seq<string>, k: nat)
    requires 0 < k <= |lines|
    ensures Offset(lines, k) == |Join(lines[..k], "\n")| + 1
  {
    if k == 1 {
      assert lines[..1] == [lines[0]];
      assert Offset(lines, 0) == 0;
    } else {
      OffsetIsJoinLength(lines, k - 1);
      JoinSplits(lines[..k], "\n", k - 1);
      assert lines[..k][..k - 1] == lines[..k - 1] && lines[..k][k - 1..] == [lines[k - 1]];
    }
  }

  /** A block of lines sits in the text at the offset of its first line. */
  lemma {:induction false} BlockAtOffset(lines: seq<string>, a: nat, b: nat)
    requires a < b <= |lines|
    ensures OccursAt(Join(lines, "\n"), Join(lines[a..b], "\n"), Offset(lines, a))
  {
    var text, block := Join(lines, "\n"), Join(lines[a..b], "\n");
    var tail := Join(lines[a..], "\n");
    assert block <= tail by {
      if b < |lines| {
        JoinSplits(lines[a..], "\n", b - a);
        assert lines[a..][..b - a] == lines[a..b];
      } else {
        assert lines[a..] == lines[a..b];
      }
    }
    if a == 0 {
      assert lines[a..] == lines;
    } else {
      JoinSplits(lines, "\n", a);
      OffsetIsJoinLength(lines, a);
      assert text[Offset(lines, a)..] == tail;
    }
  }

  // ----- What a section's path means -----

  /** The heading on line `j` still encloses line `i`: no later heading before `i` is as shallow. */
  predicate Encloses(lines: seq<string>, detect: Detector, j: nat, i: nat)
    requires j < i <= |lines|
  {
    && detect(lines[j]).Head?
    && forall k :: j < k < i && detect(lines[k]).Head? ==>
         detect(lines[k]).heading.level > detect(lines[j]).heading.level
  }

  /** The headings on lines `from..i` that enclose line `i`, outermost first. */
  function Enclosing(lines: seq<string>, detect: Detector, from: nat, i: nat): seq<Heading>
    requires from <= i <= |lines|
    decreases i - from
  {
    if from == i then []
    else
      var rest := Enclosing(lines, detect, from + 1, i);
      if Encloses(lines, detect, from, i) then [detect(lines[from]).heading] + rest else rest
  }

  function Titles(stack: seq<Heading>): seq<string> {
    if stack == [] then [] else [stack[0].title] + Titles(stack[1..])
  }

  // ----- Blocks -----

  /** A maximal run of lines without headings, possibly empty. */
  datatype Block = Block(start: nat, end: nat)

  /** The line after the last heading before line `i`. */
  function BlockStart(lines: seq<string>, detect: Detector, i: nat): (a: nat)
    requires i <= |lines|
    ensures a <= i
  {
    if i == 0 || detect(lines[i - 1]).Head? then i else BlockStart(lines, detect, i - 1)
  }

  /** The blocks closed by a heading among the first `i` lines. */
  function BlocksBefore(lines: seq<string>, detect: Detector, i: nat): seq<Block>
    requires i <= |lines|
  {
    if i == 0 then []
    else
      var before := BlocksBefore(lines, detect, i - 1);
      if detect(lines[i - 1]).Head?
      then before + [Block(BlockStart(lines, detect, i - 1), i - 1)]
      else before
  }

  function Blocks(lines: seq<string>, detect: Detector): seq<Block> {
    BlocksBefore(lines, detect, |lines|) + [Block(BlockStart(lines, detect, |lines|), |lines|)]
  }

  predicate BlockFits(lines: seq<string>, b: Block) {
    b.start <= b.end <= |lines|
  }

  /** The section of one block; a block that is blank gives none. */
  function SectionOf(lines: seq<string>, detect: Detector, b: Block): seq<Section>
    requires BlockFits(lines, b)
  {
    var body := Strip(Join(lines[b.start..b.end], "\n"));
    if body == "" then []
    else [Section(Titles(Enclosing(lines, detect, 0, b.start)), body, Offset(lines, b.start))]
  }

  function SectionsOf(lines: seq<string>, detect: Detector, blocks: seq<Block>): seq<Section> {
    if blocks == [] then []
    else
      var last := blocks[|blocks| - 1];
      SectionsOf(lines, detect, blocks[..|blocks| - 1]) +
      if BlockFits(lines, last) then SectionOf(lines, detect, last) else []
  }

  function Sectioning(text: string, detect: Detector, structureAware: bool): seq<Section> {
    var found := SectionsOf(Lines(text), detect, Blocks(Lines(text), detect));
    if !structureAware || found == [] then [Section([], text, 0)] else found
  }

  // ----- The heading stack -----

  function PopTo(stack: seq<Heading>, level: nat): seq<Heading> {
    if stack != [] && stack[|stack| - 1].level >= level then PopTo(stack[..|stack| - 1], level) else stack
  }

  ghost predicate Increasing(stack: seq<Heading>) {
    forall i, j :: 0 <= i < j < |stack| ==> stack[i].level < stack[j].level
  }

  function Shallower(stack: seq<Heading>, level: nat): seq<Heading> {
    if stack == [] then []
    else if stack[0].level < level then [stack[0]] + Shallower(stack[1..], level)
    else Shallower(stack[1..], level)
  }

  lemma {:induction false} ShallowerOfAll(stack: seq<Heading>, level: nat)
    requires forall i :: 0 <= i < |stack| ==> stack[i].level < level
    ensures Shallower(stack, level) == stack
  {
    if stack != [] {
      ShallowerOfAll(stack[1..], level);
    }
  }

  lemma {:induction false} ShallowerSplits(a: seq<Heading>, b: seq<Heading>, level: nat)
    ensures Shallower(a + b, level) == Shallower(a, level) + Shallower(b, level)
  {
    if a == [] {
      assert a + b == b;
    } else {
      assert (a + b)[1..] == a[1..] + b;
      ShallowerSplits(a[1..], b, level);
    }
  }

  /** On a stack with increasing levels, popping from the top keeps exactly the shallower headings. */
  lemma {:induction false} PoppingKeepsShallower(stack: seq<Heading>, level: nat)
    requires Increasing(stack)
    ensures PopTo(stack, level) == Shallower(stack, level)
  {
    if stack != [] {
      var front, top := stack[..|stack| - 1], stack[|stack| - 1];
      if top.level >= level {
        PoppingKeepsShallower(front, level);
        ShallowerSplits(front, [top], level);
        assert stack == front + [top];
      } else {
        ShallowerOfAll(stack, level);
      }
    }
  }

  lemma {:induction false} EnclosingSource(lines: seq<string>, detect: Detector, from: nat, i: nat, k: nat)
    returns (j: nat)
    requires from <= i <= |lines| && k < |Enclosing(lines, detect, from, i)|
    ensures from <= j < i && Encloses(lines, detect, j, i)
    ensures Enclosing(lines, detect, from, i)[k] == detect(lines[j]).heading
    decreases i - from
  {
    if Encloses(lines, detect, from, i) {
      if k == 0 {
        j := from;
      } else {
        j := EnclosingSource(lines, detect, from + 1, i, k - 1);
      }
    } else {
      j := EnclosingSource(lines, detect, from + 1, i, k);
    }
  }

  /** Levels strictly increase along every path. */
  lemma {:induction false} EnclosingIncreases(lines: seq<string>, detect: Detector, from: nat, i: nat)
    requires from <= i <= |lines|
    ensures Increasing(Enclosing(lines, detect, from, i))
    decreases i - from
  {
    if from < i {
      EnclosingIncreases(lines, detect, from + 1, i);
      var rest := Enclosing(lines, detect, from + 1, i);
      if Encloses(lines, detect, from, i) {
        forall k | 0 <= k < |rest| ensures rest[k].level > detect(lines[from]).heading.level {
          var j := EnclosingSource(lines, detect, from + 1, i, k);
        }
      }
    }
  }

  /** Reading a plain line changes no path. */
  lemma {:induction false} PlainLineKeepsPath(lines: seq<string>, detect: Detector, from: nat, i: nat)
    requires from <= i < |lines| && detect(lines[i]).Plain?
    ensures Enclosing(lines, detect, from, i + 1) == Enclosing(lines, detect, from, i)
    decreases i - from
  {
    if from < i {
      PlainLineKeepsPath(lines, detect, from + 1, i);
      assert Encloses(lines, detect, from, i + 1) == Encloses(lines, detect, from, i);
    }
  }

  /** Reading a heading drops what is as deep or deeper and adds the heading. */
  lemma {:induction false} HeadingLineUpdatesPath(lines: seq<string>, detect: Detector, from: nat, i: nat)
    requires from <= i < |lines| && detect(lines[i]).Head?
    ensures var h := detect(lines[i]).heading;
            Enclosing(lines, detect, from, i + 1)
              == Shallower(Enclosing(lines, detect, from, i), h.level) + [h]
    decreases i - from
  {
    var h := detect(lines[i]).heading;
    if from == i {
      assert Enclosing(lines, detect, i + 1, i + 1) == [];
      assert Encloses(lines, detect, i, i + 1);
    } else {
      HeadingLineUpdatesPath(lines, detect, from + 1, i);
      var rest := Enclosing(lines, detect, from + 1, i);
      if Encloses(lines, detect, from, i) {
        var f := detect(lines[from]).heading;
        assert Encloses(lines, detect, from, i + 1) <==> f.level < h.level;
        assert ([f] + rest)[1..] == rest;
      } else {
        assert !Encloses(lines, detect, from, i + 1);
      }
    }
  }

  // ----- The loop -----

  lemma {:induction false} AfterHeading(lines: seq<string>, detect: Detector, i: nat)
    requires i < |lines| && detect(lines[i]).Head?
    ensures BlockStart(lines, detect, i + 1) == i + 1
    ensures BlocksBefore(lines, detect, i + 1)
         == BlocksBefore(lines, detect, i) + [Block(BlockStart(lines, detect, i), i)]
    ensures var h := detect(lines[i]).heading;
            Enclosing(lines, detect, 0, i + 1) == PopTo(Enclosing(lines, detect, 0, i), h.level) + [h]
  {
    EnclosingIncreases(lines, detect, 0, i);
    PoppingKeepsShallower(Enclosing(lines, detect, 0, i), detect(lines[i]).heading.level);
    HeadingLineUpdatesPath(lines, detect, 0, i);
  }

  lemma {:induction false} AfterPlainLine(lines: seq<string>, detect: Detector, i: nat)
    requires i < |lines| && detect(lines[i]).Plain?
    ensures BlockStart(lines, detect, i + 1) == BlockStart(lines, detect, i)
    ensures BlocksBefore(lines, detect, i + 1) == BlocksBefore(lines, detect, i)
    ensures Enclosing(lines, detect, 0, i + 1) == Enclosing(lines, detect, 0, i)
  {
    PlainLineKeepsPath(lines, detect, 0, i);
  }

  /** What the loop's variables hold after `i` lines. */
  ghost predicate AfterLines(lines: seq<string>, detect: Detector, i: nat, sections: seq<Section>,
                             stack: seq<Heading>, buf: seq<string>, bufStart: nat, pos: nat)
  {
    && i <= |lines|
    && var begin := BlockStart(lines, detect, i);
    && sections == SectionsOf(lines, detect, BlocksBefore(lines, detect, i))
    && stack == Enclosing(lines, detect, 0, i) && stack == Enclosing(lines, detect, 0, begin)
    && buf == lines[begin..i]
    && bufStart == Offset(lines, begin) && pos == Offset(lines, i)
  }

  /** The `flush` helper: the section of the buffered block, if it is not blank, is added. */
  function Flush(sections: seq<Section>, stack: seq<Heading>, buf: seq<string>, bufStart: nat): seq<Section> {
    var body := Strip(Join(buf, "\n"));
    if body != "" then sections + [Section(Titles(stack), body, bufStart)] else sections
  }

  lemma {:induction false} FlushAddsBlock(lines: seq<string>, detect: Detector, i: nat, sections: seq<Section>,
                                          stack: seq<Heading>, buf: seq<string>, bufStart: nat, pos: nat)
    requires AfterLines(lines, detect, i, sections, stack, buf, bufStart, pos)
    ensures Flush(sections, stack, buf, bufStart)
         == SectionsOf(lines, detect, BlocksBefore(lines, detect, i) + [Block(BlockStart(lines, detect, i), i)])
  {
    var before, block := BlocksBefore(lines, detect, i), Block(BlockStart(lines, detect, i), i);
    assert (before + [block])[..|before|] == before;
  }

  lemma {:induction false} HeadingStep(lines: seq<string>, detect: Detector, i: nat, sections: seq<Section>,
                                       stack: seq<Heading>, buf: seq<string>, bufStart: nat, pos: nat)
    requires i < |lines| && detect(lines[i]).Head?
    requires AfterLines(lines, detect, i, sections, stack, buf, bufStart, pos)
    ensures var h, next := detect(lines[i]).heading, pos + |lines[i]| + 1;
            AfterLines(lines, detect, i + 1, Flush(sections, stack, buf, bufStart),
                       PopTo(stack, h.level) + [h], [], next, next)
  {
    FlushAddsBlock(lines, detect, i, sections, stack, buf, bufStart, pos);
    AfterHeading(lines, detect, i);
  }

  lemma {:induction false} PlainStep(lines: seq<string>, detect: Detector, i: nat, sections: seq<Section>,
                                     stack: seq<Heading>, buf: seq<string>, bufStart: nat, pos: nat)
    requires i < |lines| && detect(lines[i]).Plain?
    requires AfterLines(lines, detect, i, sections, stack, buf, bufStart, pos)
    ensures AfterLines(lines, detect, i + 1, sections, stack, buf + [lines[i]],
                       if buf == [] then pos else bufStart, pos + |lines[i]| + 1)
  {
    AfterPlainLine(lines, detect, i);
    var begin := BlockStart(lines, detect, i);
    SliceGrows(lines, begin, i);
  }

  lemma {:induction false} AtTop(lines: seq<string>, detect: Detector)
    ensures AfterLines(lines, detect, 0, [], [], [], 0, 0)
  {
  }

  method SplitSections(text: string, detect: Detector, structureAware: bool) returns (sections: seq<Section>)
    ensures sections == Sectioning(text, detect, structureAware)
  {
    hide Lines, Flush, PopTo, AfterLines, SectionsOf, BlocksBefore, BlockStart;
    if !structureAware { return [Section([], text, 0)]; }
    sections := [];
    var stack: seq<Heading>, buf: seq<string> := [], [];
    var bufStart: nat, pos: nat := 0, 0;
    var lines := Lines(text);
    AtTop(lines, detect);
    for i := 0 to |lines|
      invariant AfterLines(lines, detect, i, sections, stack, buf, bufStart, pos)
    {
      var line := lines[i];
      var h := detect(line);
      if h.Head? {
        HeadingStep(lines, detect, i, sections, stack, buf, bufStart, pos);
        sections := Flush(sections, stack, buf, bufStart);
        stack := PopTo(stack, h.heading.level) + [h.heading];
        buf := [];
        bufStart := pos + |line| + 1;
      } else {
        PlainStep(lines, detect, i, sections, stack, buf, bufStart, pos);
        if buf == [] {
          bufStart := pos;
        }
        buf := buf + [line];
      }
      pos := pos + |line| + 1;
    }
    FlushAddsBlock(lines, detect, |lines|, sections, stack, buf, bufStart, pos);
    sections := Flush(sections, stack, buf, bufStart);
    if sections == [] {
      sections := [Section([], text, 0)];
    }
  }

  // ----- Main results -----

  /** A heading is on the path at line `i` exactly when it precedes the line and no later heading
      before the line has an equal or shallower level. */
  lemma {:induction false} PathMeaning(lines: seq<string>, detect: Detector, from: nat, i: nat, h: Heading)
    requires from <= i <= |lines|
    ensures h in Enclosing(lines, detect, from, i)
       <==> exists j :: from <= j < i && Encloses(lines, detect, j, i) && detect(lines[j]).heading == h
    decreases i - from
  {
    if from < i {
      PathMeaning(lines, detect, from + 1, i, h);
    }
  }

  /** The blocks tile the lines: they start at line 0, end at the last line, contain no heading, and
      between two neighbours lies exactly one line, a heading. */
  ghost predicate Tiles(lines: seq<string>, detect: Detector, blocks: seq<Block>, end: nat)
    requires end <= |lines|
  {
    && blocks != [] && blocks[0].start == 0 && blocks[|blocks| - 1].end == end
    && (forall k :: 0 <= k < |blocks| ==> blocks[k].start <= blocks[k].end <= end)
    && (forall k, i :: 0 <= k < |blocks| && blocks[k].start <= i < blocks[k].end ==> detect(lines[i]).Plain?)
    && (forall k :: 0 <= k < |blocks| - 1 ==>
          blocks[k + 1].start == blocks[k].end + 1 && blocks[k].end < end && detect(lines[blocks[k].end]).Head?)
  }

  lemma {:induction false} BlockStartMeaning(lines: seq<string>, detect: Detector, i: nat)
    requires i <= |lines|
    ensures var a := BlockStart(lines, detect, i);
            && (forall k :: a <= k < i ==> detect(lines[k]).Plain?)
            && (a > 0 ==> detect(lines[a - 1]).Head?)
  {
    if i > 0 && detect(lines[i - 1]).Plain? {
      BlockStartMeaning(lines, detect, i - 1);
    }
  }

  lemma {:induction false} BlocksTile(lines: seq<string>, detect: Detector, i: nat)
    requires i <= |lines|
    ensures Tiles(lines, detect, BlocksBefore(lines, detect, i) + [Block(BlockStart(lines, detect, i), i)], i)
  {
    var before := BlocksBefore(lines, detect, i);
    BlockStartMeaning(lines, detect, i);
    if i > 0 {
      BlocksTile(lines, detect, i - 1);
      var a := BlockStart(lines, detect, i - 1);
      var shorter := BlocksBefore(lines, detect, i - 1);
      if detect(lines[i - 1]).Head? {
        TilesGrow(lines, detect, shorter + [Block(a, i - 1)], i - 1);
      } else {
        LastTileGrows(lines, detect, shorter, a, i - 1);
      }
    }
  }

  lemma {:induction false} TilesGrow(lines: seq<string>, detect: Detector, blocks: seq<Block>, end: nat)
    requires end < |lines| && Tiles(lines, detect, blocks, end) && detect(lines[end]).Head?
    ensures Tiles(lines, detect, blocks + [Block(end + 1, end + 1)], end + 1)
  {
    var more := blocks + [Block(end + 1, end + 1)];
    assert forall k :: 0 <= k < |blocks| ==> more[k] == blocks[k];
  }

  lemma {:induction false} LastTileGrows(lines: seq<string>, detect: Detector, before: seq<Block>, a: nat, end: nat)
    requires end < |lines| && Tiles(lines, detect, before + [Block(a, end)], end) && detect(lines[end]).Plain?
    ensures Tiles(lines, detect, before + [Block(a, end + 1)], end + 1)
  {
    var was, now := before + [Block(a, end)], before + [Block(a, end + 1)];
    assert forall k :: 0 <= k < |before| ==> now[k] == was[k];
    assert was[|before|] == Block(a, end);
  }

  function PlainLines(lines: seq<string>, detect: Detector, i: nat): seq<string>
    requires i <= |lines|
  {
    if i == 0 then []
    else if detect(lines[i - 1]).Plain? then PlainLines(lines, detect, i - 1) + [lines[i - 1]]
    else PlainLines(lines, detect, i - 1)
  }

  function LinesIn(lines: seq<string>, blocks: seq<Block>): seq<string> {
    if blocks == [] then []
    else
      var last := blocks[|blocks| - 1];
      LinesIn(lines, blocks[..|blocks| - 1]) + if BlockFits(lines, last) then lines[last.start..last.end] else []
  }

  /** The lines that are not headings are dealt out to the blocks in order, none lost or repeated. */
  lemma {:induction false} BlocksKeepPlainLines(lines: seq<string>, detect: Detector, i: nat)
    requires i <= |lines|
    ensures LinesIn(lines, BlocksBefore(lines, detect, i) + [Block(BlockStart(lines, detect, i), i)])
         == PlainLines(lines, detect, i)
  {
    hide LinesIn;
    var before, a := BlocksBefore(lines, detect, i), BlockStart(lines, detect, i);
    LinesInLast(lines, before, Block(a, i));
    if i == 0 {
      assert lines[0..0] == [];
    } else {
      BlocksKeepPlainLines(lines, detect, i - 1);
      var before', a' := BlocksBefore(lines, detect, i - 1), BlockStart(lines, detect, i - 1);
      LinesInLast(lines, before', Block(a', i - 1));
      if detect(lines[i - 1]).Plain? {
        LongerLastBlock(lines, LinesIn(lines, before), a, i - 1);
      } else {
        NewLastBlock(lines, LinesIn(lines, before), i);
      }
    }
  }

  lemma {:induction false} LongerLastBlock(lines: seq<string>, front: seq<string>, a: nat, b: nat)
    requires a <= b < |lines|
    ensures front + lines[a..b + 1] == (front + lines[a..b]) + [lines[b]]
  {
    SliceGrows(lines, a, b);
    ConcatAssociates(front, lines[a..b], [lines[b]]);
  }

  lemma {:induction false} NewLastBlock(lines: seq<string>, front: seq<string>, i: nat)
    requires i <= |lines|
    ensures front + lines[i..i] == front
  {
  }

  lemma {:induction false} LinesInLast(lines: seq<string>, before: seq<Block>, b: Block)
    requires BlockFits(lines, b)
    ensures LinesIn(lines, before + [b]) == LinesIn(lines, before) + lines[b.start..b.end]
    ensures before == [] ==> LinesIn(lines, before) == []
  {
    assert (before + [b])[..|before|] == before;
  }

  /** A section's body lies in the text at its recorded start, plus the white space that stripping
      removed from the front of the block. */
  lemma {:induction false} SectionBodyAt(text: string, detect: Detector, b: Block) returns (lead: nat)
    requires b.start < b.end <= |Lines(text)| && SectionOf(Lines(text), detect, b) != []
    ensures var s := SectionOf(Lines(text), detect, b)[0];
            && OccursAt(text, s.body, s.start + lead)
            && SpacesAt(text, s.start, lead) && s.body != "" && Trimmed(s.body)
  {
    hide Join, Strip, Offset, Lines, Enclosing, Titles, OccursAt, CoreAt;
    var lines := Lines(text);
    var block := Join(lines[b.start..b.end], "\n");
    JoinOfLines(text);
    BlockAtOffset(lines, b.start, b.end);
    lead := StripMeaning(block);
    CoreOfPart(text, block, Offset(lines, b.start), Strip(block), lead);
  }

  /** The recorded start points at the body itself exactly when the block does not begin with white
      space. */
  lemma {:induction false} SectionStartIsExactIff(text: string, detect: Detector, b: Block)
    requires b.start < b.end <= |Lines(text)| && SectionOf(Lines(text), detect, b) != []
    ensures var s := SectionOf(Lines(text), detect, b)[0];
            s.start < |text| && (OccursAt(text, s.body, s.start) <==> !IsSpace(text[s.start]))
  {
    var lead := SectionBodyAt(text, detect, b);
    var s := SectionOf(Lines(text), detect, b)[0];
    if OccursAt(text, s.body, s.start) {
      assert text[s.start..s.start + |s.body|][0] == text[s.start];
    }
  }

  lemma {:induction false} SectionSource(lines: seq<string>, detect: Detector, blocks: seq<Block>, s: Section)
    returns (b: Block)
    requires s in SectionsOf(lines, detect, blocks)
    ensures b in blocks && BlockFits(lines, b) && SectionOf(lines, detect, b) == [s]
  {
    hide SectionOf;
    var last := blocks[|blocks| - 1];
    if s in SectionsOf(lines, detect, blocks[..|blocks| - 1]) {
      b := SectionSource(lines, detect, blocks[..|blocks| - 1], s);
    } else {
      b := last;
      OneSection(lines, detect, b);
    }
  }

  /** Only a block with at least one line can give a section, and it gives at most one. */
  lemma {:induction false} OneSection(lines: seq<string>, detect: Detector, b: Block)
    requires BlockFits(lines, b)
    ensures |SectionOf(lines, detect, b)| <= 1
    ensures SectionOf(lines, detect, b) != [] ==> b.start < b.end
  {
    if b.start == b.end {
      assert lines[b.start..b.end] == [];
    }
  }

  /** Every section of a text, however it was split, has a trimmed, non-blank body that lies in the text
      at the section's start plus the white space that stripping removed there. */
  lemma {:induction false} SectionLocated(text: string, detect: Detector, structureAware: bool, s: Section)
    returns (lead: nat)
    requires text != "" && Trimmed(text) && s in Sectioning(text, detect, structureAware)
    ensures OccursAt(text, s.body, s.start + lead) && SpacesAt(text, s.start, lead)
    ensures s.body != "" && Trimmed(s.body)
  {
    hide SectionsOf, Blocks, SectionOf, Lines;
    var blocks := Blocks(Lines(text), detect);
    if structureAware && s in SectionsOf(Lines(text), detect, blocks) {
      var b := SectionSource(Lines(text), detect, blocks, s);
      OneSection(Lines(text), detect, b);
      lead := SectionBodyAt(text, detect, b);
    } else {
      lead := 0;
    }
  }

  // ----- From a line to its section -----

  /** The headings that enclose a line enclose the whole block it lies in. */
  lemma {:induction false} BlockKeepsPath(lines: seq<string>, detect: Detector, i: nat)
    requires i <= |lines|
    ensures Enclosing(lines, detect, 0, BlockStart(lines, detect, i)) == Enclosing(lines, detect, 0, i)
  {
    if i > 0 && detect(lines[i - 1]).Plain? {
      BlockKeepsPath(lines, detect, i - 1);
      PlainLineKeepsPath(lines, detect, 0, i - 1);
    }
  }

  /** Every plain line lies in a block. */
  lemma {:induction false} BlockOfLine(lines: seq<string>, detect: Detector, l: nat, i: nat) returns (b: Block)
    requires l < i <= |lines| && detect(lines[l]).Plain?
    ensures b in BlocksBefore(lines, detect, i) + [Block(BlockStart(lines, detect, i), i)]
    ensures b.start <= l < b.end <= i
    ensures Enclosing(lines, detect, 0, b.start) == Enclosing(lines, detect, 0, l)
  {
    hide Enclosing;
    if i == l + 1 {
      b := Block(BlockStart(lines, detect, i), i);
      BlockKeepsPath(lines, detect, l);
    } else {
      b := BlockOfLine(lines, detect, l, i - 1);
      if b !in BlocksBefore(lines, detect, i - 1) && detect(lines[i - 1]).Plain? {
        b := Block(b.start, i);
      }
    }
  }

  /** The section of a block that is not blank is found. */
  lemma {:induction false} SectionIsFound(lines: seq<string>, detect: Detector, blocks: seq<Block>, b: Block)
    requires b in blocks && BlockFits(lines, b) && SectionOf(lines, detect, b) != []
    ensures SectionOf(lines, detect, b)[0] in SectionsOf(lines, detect, blocks)
  {
    hide SectionOf;
    var front, last := blocks[..|blocks| - 1], blocks[|blocks| - 1];
    if b in front {
      SectionIsFound(lines, detect, front, b);
    }
  }

  /** A block of lines reaches to the end of its last line. */
  lemma {:induction false} BlockLength(lines: seq<string>, a: nat, b: nat)
    requires a < b <= |lines|
    ensures Offset(lines, b) == Offset(lines, a) + |Join(lines[a..b], "\n")| + 1
  {
    if b == a + 1 {
      assert lines[a..b] == [lines[a]];
    } else {
      BlockLength(lines, a, b - 1);
      assert lines[a..b] == lines[a..b - 1] + [lines[b - 1]];
      JoinAppends(lines[a..b - 1], "\n", lines[b - 1]);
    }
  }

  lemma {:induction false} OffsetsGrow(lines: seq<string>, a: nat, b: nat)
    requires a <= b <= |lines|
    ensures Offset(lines, a) <= Offset(lines, b)
  {
    if a < b { OffsetsGrow(lines, a, b - 1); }
  }

  /** A character of a line, in the text and in any block that holds the line. */
  lemma {:induction false} CharacterOfLine(lines: seq<string>, a: nat, l: nat, b: nat, j: nat)
    requires a <= l < b <= |lines| && j < |lines[l]|
    ensures var text, block, at := Join(lines, "\n"), Join(lines[a..b], "\n"), Offset(lines, l) + j;
            && Offset(lines, a) <= at < Offset(lines, a) + |block| && OccursAt(text, block, Offset(lines, a))
            && at < |text| && text[at] == lines[l][j] && block[at - Offset(lines, a)] == lines[l][j]
  {
    hide Join, Offset;
    BlockAtOffset(lines, l, l + 1);
    BlockAtOffset(lines, a, b);
    BlockLength(lines, a, b);
    BlockLength(lines, l, l + 1);
    OffsetsGrow(lines, a, l);
    OffsetsGrow(lines, l + 1, b);
    OneLine(lines, l);
    var text, block, at := Join(lines, "\n"), Join(lines[a..b], "\n"), Offset(lines, l) + j;
    assert text[Offset(lines, l)..Offset(lines, l) + |lines[l]|][j] == text[at];
    assert text[Offset(lines, a)..Offset(lines, a) + |block|][at - Offset(lines, a)] == text[at];
  }

  lemma {:induction false} OneLine(lines: seq<string>, l: nat)
    requires l < |lines|
    ensures Join(lines[l..l + 1], "\n") == lines[l]
  {
    assert lines[l..l + 1] == [lines[l]];
  }

  /** A visible character of a plain line is in the body of a section with the headings that enclose it. */
  lemma {:induction false} PlainCharacterIsInSection(text: string, detect: Detector, l: nat, j: nat)
    returns (n: nat, at: nat, i: nat)
    requires var lines := Lines(text);
             l < |lines| && j < |lines[l]| && !IsSpace(lines[l][j]) && detect(lines[l]).Plain?
    ensures var lines, sections := Lines(text), Sectioning(text, detect, true);
            && n < |sections| && sections[n].path == Titles(Enclosing(lines, detect, 0, l))
            && Trimmed(sections[n].body) && OccursAt(text, sections[n].body, at) && i < |sections[n].body|
            && at + i == Offset(lines, l) + j && sections[n].body[i] == lines[l][j]
  {
    hide Lines, Join, Strip, Offset, Enclosing, Titles, Blocks, SectionsOf, CoreAt;
    var lines := Lines(text);
    JoinOfLines(text);
    var b := BlockInDocument(lines, detect, l);
    CharacterOfLine(lines, b.start, l, b.end, j);
    var block := Join(lines[b.start..b.end], "\n");
    var inBlock := Offset(lines, l) + j - Offset(lines, b.start);
    var lead := StripMeaning(block);
    InCore(block, Strip(block), lead, inBlock);
    CoreOfPart(text, block, Offset(lines, b.start), Strip(block), lead);
    SectionIsFound(lines, detect, Blocks(lines, detect), b);
    var s := SectionOf(lines, detect, b)[0];
    n :| 0 <= n < |Sectioning(text, detect, true)| && Sectioning(text, detect, true)[n] == s;
    at, i := Offset(lines, b.start) + lead, inBlock - lead;
  }

  lemma {:induction false} BlockInDocument(lines: seq<string>, detect: Detector, l: nat) returns (b: Block)
    requires l < |lines| && detect(lines[l]).Plain?
    ensures b in Blocks(lines, detect) && b.start <= l < b.end <= |lines|
    ensures Enclosing(lines, detect, 0, b.start) == Enclosing(lines, detect, 0, l)
  {
    b := BlockOfLine(lines, detect, l, |lines|);
  }

  /** A visible character survives stripping. */
  lemma {:induction false} InCore(s: string, core: string, lead: nat, i: nat)
    requires CoreAt(s, core, lead) && i < |s| && !IsSpace(s[i])
    ensures lead <= i < lead + |core| && core[i - lead] == s[i]
  {
    assert s[lead..lead + |core|] == core;
  }

  /** The lines are what newlines separate: none has one, and joined with newlines they are the text. */
  lemma {:induction false} LinesMeaning(text: string)
    ensures Join(Lines(text), "\n") == text
    ensures forall l :: l in Lines(text) ==> '\n' !in l
  {
    JoinOfLines(text);
    NoNewlineInLines(text);
  }

  lemma {:induction false} NoNewlineInLines(text: string)
    ensures forall l :: l in Lines(text) ==> '\n' !in l
  {
    if text != "" {
      NoNewlineInLines(text[1..]);
      var rest := Lines(text[1..]);
      assert rest[0] in rest && forall l :: l in rest[1..] ==> l in rest;
    }
  }
}
