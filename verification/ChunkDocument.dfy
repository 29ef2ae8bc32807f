/** Structure-aware parent/child chunking: sections are cut into large parents, parents into the
    small children that are searched. */
module ChunkDocument {
  import opened Text
  import opened Windows
  import opened Sections

  datatype Label = NoLabel | Label(text: string)

  /** A parent window: its text without the heading, and where its window starts in the document. */
  datatype Parent = Parent(section: Label, text: string, start: nat)

  datatype Child = Child(
    text: string, rawText: string, section: Label, charStart: nat, charEnd: nat,
    parentKey: nat, parentText: string, parentStart: nat, parentEnd: nat)

  function LabelOf(path: seq<string>): Label {
    if path == [] then NoLabel else Label(Join(path, " \U{25B8} "))
  }

  function WithHeading(heading: Label, body: string): string {
    if heading.Label? && heading.text != "" then heading.text + "\n" + body else body
  }

  function ParentOf(s: Section, p: Piece): Parent {
    Parent(LabelOf(s.path), p.text, s.start + p.offset)
  }

  function ChildOf(p: Parent, key: nat, c: Piece): Child {
    var at := p.start + c.offset;
    Child(WithHeading(p.section, c.text), c.text, p.section, at, at + |c.text|,
          key, WithHeading(p.section, p.text), p.start, p.start + |p.text|)
  }

  function ParentsIn(s: Section, pieces: seq<Piece>): seq<Parent> {
    seq(|pieces|, i requires 0 <= i < |pieces| => ParentOf(s, pieces[i]))
  }

  function ChildrenIn(p: Parent, key: nat, pieces: seq<Piece>): seq<Child> {
    seq(|pieces|, i requires 0 <= i < |pieces| => ChildOf(p, key, pieces[i]))
  }

  /** The parents of all sections, in document order. */
  function Parents(sections: seq<Section>, size: nat): seq<Parent> {
    if sections == [] then []
    else
      var last := sections[|sections| - 1];
      Parents(sections[..|sections| - 1], size) + ParentsIn(last, WindowsOf(last.body, size, 0))
  }

  /** The children of all parents; a parent's key is its position. */
  function Children(parents: seq<Parent>, size: nat, overlap: int): seq<Child> {
    if parents == [] then []
    else
      var k := |parents| - 1;
      Children(parents[..k], size, overlap) + ChildrenIn(parents[k], k, WindowsOf(parents[k].text, size, overlap))
  }

  function DocumentSections(raw: string, detect: Detector, structureAware: bool): seq<Section> {
    if Strip(raw) == "" then [] else Sectioning(Strip(raw), detect, structureAware)
  }

  function DocumentParents(raw: string, detect: Detector, childSize: nat, parentSize: nat, structureAware: bool)
    : seq<Parent>
  {
    Parents(DocumentSections(raw, detect, structureAware), Max(parentSize, childSize))
  }

  function DocumentChildren(raw: string, detect: Detector, childSize: nat, parentSize: nat, overlap: int,
                            structureAware: bool): seq<Child>
  {
    Children(DocumentParents(raw, detect, childSize, parentSize, structureAware), childSize, overlap)
  }

  // ----- The nested loops -----

  lemma {:induction false} ChildrenOfOneMore(done: seq<Parent>, p: Parent, size: nat, overlap: int)
    ensures Children(done + [p], size, overlap)
         == Children(done, size, overlap) + ChildrenIn(p, |done|, WindowsOf(p.text, size, overlap))
  {
    assert (done + [p])[..|done|] == done;
  }

  lemma {:induction false} ParentsOfOneMore(sections: seq<Section>, i: nat, size: nat)
    requires i < |sections|
    ensures Parents(sections[..i + 1], size)
         == Parents(sections[..i], size) + ParentsIn(sections[i], WindowsOf(sections[i].body, size, 0))
  {
    assert sections[..i + 1][..i] == sections[..i];
  }

  method ChunkDocument(raw: string, detect: Detector, childSize: nat, parentSize: nat, overlap: int,
                       structureAware: bool)
    returns (out: seq<Child>)
    ensures out == DocumentChildren(raw, detect, childSize, parentSize, overlap, structureAware)
  {
    hide Strip, Sectioning, Children, Parents, WindowsOf, ChildrenIn, ParentsIn;
    var text := Strip(raw);
    assert Children([], childSize, overlap) == [] && Parents([], Max(parentSize, childSize)) == [] by {
      NothingFromNothing(childSize, Max(parentSize, childSize), overlap);
    }
    if text == "" { return []; }
    var size := Max(parentSize, childSize);
    out := [];
    var parentKey := 0;
    var sections := SplitSections(text, detect, structureAware);
    ghost var done: seq<Parent> := [];
    for i := 0 to |sections|
      invariant done == Parents(sections[..i], size)
      invariant out == Children(done, childSize, overlap) && parentKey == |done|
    {
      var windows := SlidingWindows(sections[i].body, size, 0);
      ghost var before := done;
      NoParentsYet(sections[i], windows);
      for j := 0 to |windows|
        invariant done == before + ParentsIn(sections[i], windows[..j])
        invariant out == Children(done, childSize, overlap) && parentKey == |done|
      {
        var parent := ParentOf(sections[i], windows[j]);
        var children := ChunkParent(parent, parentKey, childSize, overlap);
        ChildrenOfOneMore(done, parent, childSize, overlap);
        ParentsInPrefix(sections[i], windows, j);
        out := out + children;
        done := done + [parent];
        parentKey := parentKey + 1;
      }
      assert windows[..|windows|] == windows;
      ParentsOfOneMore(sections, i, size);
    }
    assert sections[..|sections|] == sections;
  }

  lemma {:induction false} NothingFromNothing(childSize: nat, size: nat, overlap: int)
    ensures Children([], childSize, overlap) == [] && Parents([], size) == []
  {
  }

  lemma {:induction false} NoParentsYet(s: Section, windows: seq<Piece>)
    ensures ParentsIn(s, windows[..0]) == []
  {
  }

  lemma {:induction false} ParentsInPrefix(s: Section, windows: seq<Piece>, j: nat)
    requires j < |windows|
    ensures ParentsIn(s, windows[..j + 1]) == ParentsIn(s, windows[..j]) + [ParentOf(s, windows[j])]
  {
  }

  /** The innermost loop: the children of one parent. */
  method ChunkParent(p: Parent, key: nat, size: nat, overlap: int) returns (out: seq<Child>)
    ensures out == ChildrenIn(p, key, WindowsOf(p.text, size, overlap))
  {
    hide WindowsOf;
    var pieces := SlidingWindows(p.text, size, overlap);
    out := [];
    for k := 0 to |pieces|
      invariant out == ChildrenIn(p, key, pieces)[..k]
    {
      out := out + [ChildOf(p, key, pieces[k])];
    }
  }

  // ----- Where parents and children come from -----

  /** Parent `k` is the window `p` of section `n`. */
  ghost predicate ParentFrom(sections: seq<Section>, size: nat, k: nat, n: nat, p: Piece)
    requires k < |Parents(sections, size)|
  {
    && n < |sections| && p in WindowsOf(sections[n].body, size, 0)
    && Parents(sections, size)[k] == ParentOf(sections[n], p)
  }

  lemma {:induction false} ParentSource(sections: seq<Section>, size: nat, k: nat) returns (n: nat, p: Piece)
    requires k < |Parents(sections, size)|
    ensures ParentFrom(sections, size, k, n, p)
  {
    hide WindowsOf, ParentOf;
    var m := |sections| - 1;
    var before := Parents(sections[..m], size);
    if k < |before| {
      n, p := ParentSource(sections[..m], size, k);
    } else {
      n, p := m, WindowsOf(sections[m].body, size, 0)[k - |before|];
    }
  }

  lemma {:induction false} ParentOfPiece(sections: seq<Section>, size: nat, n: nat, p: Piece) returns (k: nat)
    requires n < |sections| && p in WindowsOf(sections[n].body, size, 0)
    ensures k < |Parents(sections, size)| && ParentFrom(sections, size, k, n, p)
  {
    hide WindowsOf, ParentOf;
    var m := |sections| - 1;
    var before := Parents(sections[..m], size);
    if n < m {
      k := ParentOfPiece(sections[..m], size, n, p);
    } else {
      var j :| 0 <= j < |WindowsOf(sections[n].body, size, 0)| && WindowsOf(sections[n].body, size, 0)[j] == p;
      k := |before| + j;
    }
  }

  lemma {:induction false} ChildSource(parents: seq<Parent>, size: nat, overlap: int, i: nat) returns (k: nat, q: Piece)
    requires i < |Children(parents, size, overlap)|
    ensures k < |parents| && q in WindowsOf(parents[k].text, size, overlap)
    ensures Children(parents, size, overlap)[i] == ChildOf(parents[k], k, q)
  {
    hide WindowsOf, ChildOf;
    var m := |parents| - 1;
    var before := Children(parents[..m], size, overlap);
    if i < |before| {
      k, q := ChildSource(parents[..m], size, overlap, i);
    } else {
      k, q := m, WindowsOf(parents[m].text, size, overlap)[i - |before|];
    }
  }

  lemma {:induction false} ChildOfPiece(parents: seq<Parent>, size: nat, overlap: int, k: nat, p: Piece)
    requires k < |parents| && p in WindowsOf(parents[k].text, size, overlap)
    ensures ChildOf(parents[k], k, p) in Children(parents, size, overlap)
  {
    hide WindowsOf, ChildOf;
    var m := |parents| - 1;
    if k < m {
      ChildOfPiece(parents[..m], size, overlap, k, p);
    } else {
      var pieces := WindowsOf(parents[k].text, size, overlap);
      var j :| 0 <= j < |pieces| && pieces[j] == p;
      assert ChildrenIn(parents[k], k, pieces)[j] == ChildOf(parents[k], k, p);
    }
  }

  lemma {:induction false} PieceIsGood(raw: string, size: nat, overlap: int, p: Piece) returns (lead: nat)
    requires p in WindowsOf(raw, size, overlap)
    ensures GoodPiece(Strip(raw), size, p, lead)
  {
    hide WindowsOf, Strip, GoodPiece;
    var k :| 0 <= k < |WindowsOf(raw, size, overlap)| && WindowsOf(raw, size, overlap)[k] == p;
    lead := WindowPiecesAreGood(raw, size, overlap, k);
  }

  // ----- What every chunk satisfies -----

  /** A child is a non-blank, trimmed, contiguous piece of the text of the parent its key names, after the
      white space that stripping removed; it has at most `size` characters, its span lies inside the
      parent's, and it carries that parent's text. */
  ghost predicate GoodChild(parents: seq<Parent>, size: nat, c: Child, lead: nat) {
    && c.parentKey < |parents|
    && var p := parents[c.parentKey];
    && p.start <= c.charStart && c.charEnd == c.charStart + |c.rawText| <= p.start + |p.text|
    && c.parentStart == p.start && c.parentEnd == p.start + |p.text|
    && c.parentText == WithHeading(p.section, p.text) && c.section == p.section
    && c.text == WithHeading(p.section, c.rawText)
    && c.rawText != "" && Trimmed(c.rawText) && |c.rawText| <= size
    && OccursAt(p.text, c.rawText, c.charStart - p.start + lead) && SpacesAt(p.text, c.charStart - p.start, lead)
  }

  /** A parent's text is never blank, is trimmed, and never longer than the parent size. */
  lemma {:induction false} ParentsAreGood(sections: seq<Section>, size: nat, k: nat)
    requires k < |Parents(sections, size)|
    ensures var t := Parents(sections, size)[k].text; t != "" && Trimmed(t) && |t| <= size
  {
    hide Parents, WindowsOf, Strip;
    var n, p := ParentSource(sections, size, k);
    var _ := PieceIsGood(sections[n].body, size, 0, p);
  }

  ghost predicate GoodParents(parents: seq<Parent>, size: nat) {
    forall k :: 0 <= k < |parents| ==>
      parents[k].text != "" && Trimmed(parents[k].text) && |parents[k].text| <= size
  }

  lemma {:induction false} ChildrenAreGood(parents: seq<Parent>, parentSize: nat, size: nat, overlap: int, i: nat)
    returns (lead: nat)
    requires GoodParents(parents, parentSize) && i < |Children(parents, size, overlap)|
    ensures GoodChild(parents, size, Children(parents, size, overlap)[i], lead)
  {
    hide WindowsOf, Children, WithHeading, OccursAt, SpacesAt;
    var k, q := ChildSource(parents, size, overlap, i);
    StripOfTrimmed(parents[k].text);
    lead := PieceIsGood(parents[k].text, size, overlap, q);
    PieceEndsInside(parents[k].text, size, q, lead);
  }

  lemma {:induction false} PieceEndsInside(text: string, size: nat, p: Piece, lead: nat)
    requires GoodPiece(text, size, p, lead)
    ensures p.offset + lead + |p.text| <= |text|
  {
  }

  // ----- Main results -----

  /** Every chunk of every document is a good child of the document's parent list. */
  lemma {:induction false} DocumentChildrenAreGood(
      raw: string, detect: Detector, childSize: nat, parentSize: nat, overlap: int, structureAware: bool, i: nat)
    returns (lead: nat)
    requires i < |DocumentChildren(raw, detect, childSize, parentSize, overlap, structureAware)|
    ensures GoodChild(DocumentParents(raw, detect, childSize, parentSize, structureAware), childSize,
                      DocumentChildren(raw, detect, childSize, parentSize, overlap, structureAware)[i], lead)
  {
    hide Parents, Children, DocumentSections, GoodChild;
    var sections := DocumentSections(raw, detect, structureAware);
    var size := Max(parentSize, childSize);
    var parents := Parents(sections, size);
    forall k | 0 <= k < |parents|
      ensures parents[k].text != "" && Trimmed(parents[k].text) && |parents[k].text| <= size
    {
      ParentsAreGood(sections, size, k);
    }
    lead := ChildrenAreGood(parents, size, childSize, overlap, i);
  }

  /** Parent keys run 0, 1, 2, ... in the order of the children, and none is skipped: every parent has a
      child. This is what ingestion relies on to number the rows. */
  ghost predicate KeysRun(children: seq<Child>, n: nat) {
    && (forall i :: 0 <= i < |children| ==> children[i].parentKey < n)
    && (forall i, j :: 0 <= i < j < |children| ==> children[i].parentKey <= children[j].parentKey)
    && (forall k :: 0 <= k < n ==> HasKey(children, k))
  }

  predicate HasKey(children: seq<Child>, key: nat) {
    exists i :: 0 <= i < |children| && children[i].parentKey == key
  }

  lemma {:induction false} KeysRunThroughParents(parents: seq<Parent>, size: nat, overlap: int)
    requires size >= 1 && forall k :: 0 <= k < |parents| ==> !Blank(parents[k].text)
    ensures KeysRun(Children(parents, size, overlap), |parents|)
  {
    if parents != [] {
      hide WindowsOf, Blank;
      var k := |parents| - 1;
      KeysRunThroughParents(parents[..k], size, overlap);
      FirstPiece(parents[k].text, size, overlap);
      KeysRunOneMore(Children(parents[..k], size, overlap),
                     ChildrenIn(parents[k], k, WindowsOf(parents[k].text, size, overlap)), k);
    }
  }

  lemma {:induction false} KeysRunOneMore(before: seq<Child>, more: seq<Child>, k: nat)
    requires KeysRun(before, k) && more != []
    requires forall i :: 0 <= i < |more| ==> more[i].parentKey == k
    ensures KeysRun(before + more, k + 1)
  {
    var all := before + more;
    forall key | 0 <= key < k + 1 ensures HasKey(all, key) {
      if key == k {
        assert all[|before|].parentKey == k;
      } else {
        assert HasKey(before, key);
        var i :| 0 <= i < |before| && before[i].parentKey == key;
        assert all[i].parentKey == key;
      }
    }
  }

  /** Keys run through the parents of every document, for every child size of at least one. */
  lemma {:induction false} DocumentKeysRun(
      raw: string, detect: Detector, childSize: nat, parentSize: nat, overlap: int, structureAware: bool)
    requires childSize >= 1
    ensures KeysRun(DocumentChildren(raw, detect, childSize, parentSize, overlap, structureAware),
                    |DocumentParents(raw, detect, childSize, parentSize, structureAware)|)
  {
    hide Parents, Children, DocumentSections, KeysRun;
    var sections := DocumentSections(raw, detect, structureAware);
    var size := Max(parentSize, childSize);
    var parents := Parents(sections, size);
    forall k | 0 <= k < |parents| ensures !Blank(parents[k].text) {
      ParentsAreGood(sections, size, k);
      assert !IsSpace(parents[k].text[0]);
    }
    KeysRunThroughParents(parents, childSize, overlap);
  }

  /** With a parent size no larger than the child size, chunking is flat: each parent has exactly one
      child, and the child is the parent. */
  lemma {:induction false} FlatChunking(parents: seq<Parent>, size: nat, overlap: int)
    requires GoodParents(parents, size)
    ensures var children := Children(parents, size, overlap);
            && |children| == |parents|
            && forall k :: 0 <= k < |parents| ==>
                 && children[k].parentKey == k && children[k].rawText == parents[k].text
                 && children[k].text == children[k].parentText
                 && children[k].charStart == children[k].parentStart
                 && children[k].charEnd == children[k].parentEnd
  {
    if parents != [] {
      var k := |parents| - 1;
      FlatChunking(parents[..k], size, overlap);
      assert WindowsOf(parents[k].text, size, overlap) == [Piece(parents[k].text, 0)];
    }
  }

  lemma {:induction false} DocumentFlatChunking(
      raw: string, detect: Detector, childSize: nat, parentSize: nat, overlap: int, structureAware: bool)
    requires parentSize <= childSize
    ensures var children := DocumentChildren(raw, detect, childSize, parentSize, overlap, structureAware);
            var parents := DocumentParents(raw, detect, childSize, parentSize, structureAware);
            && |children| == |parents|
            && forall k :: 0 <= k < |parents| ==>
                 && children[k].parentKey == k && children[k].rawText == parents[k].text
                 && children[k].text == children[k].parentText
                 && children[k].charStart == children[k].parentStart
                 && children[k].charEnd == children[k].parentEnd
  {
    hide Parents, Children, DocumentSections;
    var sections := DocumentSections(raw, detect, structureAware);
    var parents := Parents(sections, childSize);
    forall k | 0 <= k < |parents|
      ensures parents[k].text != "" && Trimmed(parents[k].text) && |parents[k].text| <= childSize
    {
      ParentsAreGood(sections, childSize, k);
    }
    FlatChunking(parents, childSize, overlap);
  }
}
