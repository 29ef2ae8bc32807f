/** Sections, parents and children come in document order, none left out, and carry the headings that enclose
    them, written in order. */
module ChunkOrder {
  import opened Text
  import opened Picking
  import opened Windows
  import opened Sections
  import opened ChunkDocument

  // ----- Sections -----

  lemma {:induction false} TitlesMeaning(stack: seq<Heading>)
    ensures |Titles(stack)| == |stack| && forall i :: 0 <= i < |stack| ==> Titles(stack)[i] == stack[i].title
  {
    if stack != [] { TitlesMeaning(stack[1..]); }
  }

  function HasBody(lines: seq<string>): Block -> bool {
    (b: Block) => BlockFits(lines, b) && !Blank(Join(lines[b.start..b.end], "\n"))
  }

  /** The section is what stripping leaves of the block, at the offset of the block's first line, under the
      headings that enclose that line, outermost first. */
  ghost predicate IsSectionOf(lines: seq<string>, detect: Detector, b: Block, s: Section) {
    && BlockFits(lines, b)
    && s.body == Strip(Join(lines[b.start..b.end], "\n")) && s.start == Offset(lines, b.start)
    && var path := Enclosing(lines, detect, 0, b.start);
    |s.path| == |path| && forall i :: 0 <= i < |path| ==> s.path[i] == path[i].title
  }

  /** The sections are those of the blocks that are not blank, in order. */
  lemma {:induction false} SectionsInOrder(lines: seq<string>, detect: Detector, blocks: seq<Block>)
    returns (places: seq<nat>)
    ensures Picks(blocks, HasBody(lines), places) && |SectionsOf(lines, detect, blocks)| == |places|
    ensures forall k :: 0 <= k < |places| ==>
              places[k] < |blocks|
              && IsSectionOf(lines, detect, blocks[places[k]], SectionsOf(lines, detect, blocks)[k])
  {
    hide Picks, IsSectionOf;
    if blocks == [] {
      places := [];
      PicksNone(HasBody(lines));
    } else {
      var n := |blocks| - 1;
      var b := blocks[n];
      places := SectionsInOrder(lines, detect, blocks[..n]);
      assert blocks == blocks[..n] + [b];
      PicksNext(blocks[..n], b, HasBody(lines), places);
      OneBlock(lines, detect, b);
      if HasBody(lines)(b) {
        places := places + [n];
      }
    }
  }

  lemma {:induction false} OneBlock(lines: seq<string>, detect: Detector, b: Block)
    ensures if HasBody(lines)(b) then |SectionOf(lines, detect, b)| == 1
                                      && IsSectionOf(lines, detect, b, SectionOf(lines, detect, b)[0])
            else BlockFits(lines, b) ==> SectionOf(lines, detect, b) == []
  {
    hide Join, Strip, Enclosing, Titles, Offset;
    if BlockFits(lines, b) {
      var _ := StripMeaning(Join(lines[b.start..b.end], "\n"));
      TitlesMeaning(Enclosing(lines, detect, 0, b.start));
    }
  }

  // ----- Parents and children -----

  /** Window `window` of item `item`. */
  datatype Place = Place(item: nat, window: nat) {
    ghost predicate Before(that: Place) {
      item < that.item || (item == that.item && window < that.window)
    }
  }

  ghost predicate InOrder(places: seq<Place>) {
    forall i, j :: 0 <= i < j < |places| ==> places[i].Before(places[j])
  }

  /** Parent `p` is this window of this section. */
  ghost predicate IsParent(sections: seq<Section>, size: nat, at: Place, p: Parent) {
    && at.item < |sections| && at.window < |WindowsOf(sections[at.item].body, size, 0)|
    && var s := sections[at.item];
    var w := WindowsOf(s.body, size, 0)[at.window];
    p.text == w.text && p.start == s.start + w.offset && p.section == LabelOf(s.path)
  }

  /** The parents are all windows of all sections, in order. */
  lemma {:induction false} ParentsInOrder(sections: seq<Section>, size: nat) returns (places: seq<Place>)
    ensures |places| == |Parents(sections, size)| && InOrder(places)
    ensures forall k :: 0 <= k < |places| ==> IsParent(sections, size, places[k], Parents(sections, size)[k])
    ensures forall n, j :: 0 <= n < |sections| && 0 <= j < |WindowsOf(sections[n].body, size, 0)| ==>
              Place(n, j) in places
    ensures forall at :: at in places ==> at.item < |sections|
  {
    hide WindowsOf, LabelOf;
    if sections == [] {
      places := [];
    } else {
      var n := |sections| - 1;
      var before := ParentsInOrder(sections[..n], size);
      var windows := WindowsOf(sections[n].body, size, 0);
      var more := seq(|windows|, j requires 0 <= j < |windows| => Place(n, j));
      places := before + more;
      forall k | 0 <= k < |places| ensures IsParent(sections, size, places[k], Parents(sections, size)[k]) {
        if k < |before| {
          assert IsParent(sections[..n], size, before[k], Parents(sections[..n], size)[k]);
        }
      }
      AllPlaces(before, more, n, |windows|);
    }
  }

  lemma {:induction false} AllPlaces(before: seq<Place>, more: seq<Place>, n: nat, count: nat)
    requires InOrder(before) && forall at :: at in before ==> at.item < n
    requires |more| == count && forall j :: 0 <= j < count ==> more[j] == Place(n, j)
    ensures InOrder(before + more) && forall at :: at in before + more ==> at.item < n + 1
    ensures forall at :: at in before ==> at in before + more
    ensures forall j :: 0 <= j < count ==> Place(n, j) in before + more
  {
    var all := before + more;
    forall i, j | 0 <= i < j < |all| ensures all[i].Before(all[j]) {
      if i < |before| { assert all[i] in before; }
    }
    forall j | 0 <= j < count ensures Place(n, j) in all {
      assert all[|before| + j] == Place(n, j);
    }
  }

  /** Child `c` is this window of this parent. */
  ghost predicate IsChild(parents: seq<Parent>, size: nat, overlap: int, at: Place, c: Child) {
    && at.item < |parents| && at.window < |WindowsOf(parents[at.item].text, size, overlap)|
    && var p := parents[at.item];
    var w := WindowsOf(p.text, size, overlap)[at.window];
    && c.rawText == w.text && c.charStart == p.start + w.offset && c.charEnd == c.charStart + |w.text|
    && c.parentKey == at.item && c.section == p.section
    && c.parentStart == p.start && c.parentEnd == p.start + |p.text|
    && IsHeaded(c.text, c.section, w.text) && IsHeaded(c.parentText, c.section, p.text)
  }

  /** The text stands under its label, on a line of its own, if there is one that is not empty. */
  ghost predicate IsHeaded(text: string, heading: Label, body: string) {
    match heading
    case NoLabel => text == body
    case Label(l) => if l == "" then text == body else text == l + "\n" + body
  }

  /** The children are all windows of all parents, in order. */
  lemma {:induction false} ChildrenInOrder(parents: seq<Parent>, size: nat, overlap: int) returns (places: seq<Place>)
    ensures |places| == |Children(parents, size, overlap)| && InOrder(places)
    ensures forall k :: 0 <= k < |places| ==>
              IsChild(parents, size, overlap, places[k], Children(parents, size, overlap)[k])
    ensures forall n, j :: 0 <= n < |parents| && 0 <= j < |WindowsOf(parents[n].text, size, overlap)| ==>
              Place(n, j) in places
    ensures forall at :: at in places ==> at.item < |parents|
  {
    hide WindowsOf, IsHeaded, WithHeading;
    if parents == [] {
      places := [];
    } else {
      var n := |parents| - 1;
      var before := ChildrenInOrder(parents[..n], size, overlap);
      var windows := WindowsOf(parents[n].text, size, overlap);
      var more := seq(|windows|, j requires 0 <= j < |windows| => Place(n, j));
      places := before + more;
      forall k | 0 <= k < |places|
        ensures IsChild(parents, size, overlap, places[k], Children(parents, size, overlap)[k])
      {
        if k < |before| {
          assert IsChild(parents[..n], size, overlap, before[k], Children(parents[..n], size, overlap)[k]);
        } else {
          HeadingIsWritten(parents[n].section, windows[k - |before|].text);
          HeadingIsWritten(parents[n].section, parents[n].text);
        }
      }
      AllPlaces(before, more, n, |windows|);
    }
  }

  lemma {:induction false} HeadingIsWritten(heading: Label, body: string)
    ensures IsHeaded(WithHeading(heading, body), heading, body)
  {
  }

  /** A label is the titles in order with an arrow in between; without titles there is none. */
  lemma {:induction false} LabelMeaning(path: seq<string>)
    ensures LabelOf(path) == NoLabel <==> path == []
    ensures path != [] ==> forall i :: 0 <= i < |path| ==> PartInPlace(LabelOf(path).text, path, " ▸ ", i)
  {
    forall i | 0 <= i < |path| ensures PartInPlace(LabelOf(path).text, path, " ▸ ", i) {
      JoinMeaning(path, " ▸ ", i);
    }
  }
}
