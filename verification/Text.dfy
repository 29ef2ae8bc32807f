/** Text helpers shared by the models: Python's `strip`, `join`, substring tests and `rfind`. */
module Text {

  /** The characters Python's `str.strip()` removes. */
  predicate IsSpace(c: char) {
    var n := c as int;
    || 9 <= n <= 13 || 28 <= n <= 32 || n == 133 || n == 160 || n == 5760
    || 8192 <= n <= 8202 || n == 8232 || n == 8233 || n == 8239 || n == 8287 || n == 12288
  }

  predicate Blank(s: string) {
    forall i :: 0 <= i < |s| ==> IsSpace(s[i])
  }

  function StripLeft(s: string): string {
    if s != "" && IsSpace(s[0]) then StripLeft(s[1..]) else s
  }

  function StripRight(s: string): string {
    if s != "" && IsSpace(s[|s| - 1]) then StripRight(s[..|s| - 1]) else s
  }

  function Strip(s: string): string {
    StripRight(StripLeft(s))
  }

  /** A string with no white space at either end. */
  predicate Trimmed(s: string) {
    s != "" ==> !IsSpace(s[0]) && !IsSpace(s[|s| - 1])
  }

  /** `core` sits in `s` after `lead` white-space characters and before nothing but white space. */
  ghost predicate CoreAt(s: string, core: string, lead: nat) {
    && lead + |core| <= |s| && s[lead..lead + |core|] == core
    && (forall i :: 0 <= i < lead ==> IsSpace(s[i]))
    && (forall i :: lead + |core| <= i < |s| ==> IsSpace(s[i]))
  }

  lemma {:induction false} StripLeftMeaning(s: string) returns (lead: nat)
    ensures lead <= |s| && StripLeft(s) == s[lead..]
    ensures forall i :: 0 <= i < lead ==> IsSpace(s[i])
    ensures lead < |s| ==> !IsSpace(s[lead])
  {
    if s != "" && IsSpace(s[0]) {
      var k := StripLeftMeaning(s[1..]);
      lead := k + 1;
      assert forall i :: 0 < i < lead ==> s[i] == s[1..][i - 1];
    } else {
      lead := 0;
    }
  }

  lemma {:induction false} StripRightMeaning(s: string) returns (end: nat)
    ensures end <= |s| && StripRight(s) == s[..end]
    ensures forall i :: end <= i < |s| ==> IsSpace(s[i])
    ensures end > 0 ==> !IsSpace(s[end - 1])
  {
    if s != "" && IsSpace(s[|s| - 1]) {
      end := StripRightMeaning(s[..|s| - 1]);
      assert s[..|s| - 1][..end] == s[..end];
    } else {
      end := |s|;
    }
  }

  lemma {:induction false} StripMeaning(s: string) returns (lead: nat)
    ensures CoreAt(s, Strip(s), lead) && Trimmed(Strip(s))
    ensures Strip(s) == "" <==> Blank(s)
    ensures Strip(s) != "" && !IsSpace(s[0]) ==> lead == 0
  {
    lead := StripLeftMeaning(s);
    var t := s[lead..];
    var end := StripRightMeaning(t);
    assert s[lead..lead + end] == t[..end];
    forall i | lead + end <= i < |s| ensures IsSpace(s[i]) {
      assert s[i] == t[i - lead];
    }
    if end > 0 {
      assert t[0] == s[lead] && t[end - 1] == s[lead + end - 1];
    }
  }

  lemma {:induction false} StripOfTrimmed(s: string)
    requires Trimmed(s)
    ensures Strip(s) == s
  {
  }

  function Join(parts: seq<string>, sep: string): string {
    if parts == [] then ""
    else if |parts| == 1 then parts[0]
    else parts[0] + sep + Join(parts[1..], sep)
  }

  /** Joining splits at any inner boundary. */
  lemma {:induction false} JoinSplits(parts: seq<string>, sep: string, k: nat)
    requires 0 < k < |parts|
    ensures Join(parts, sep) == Join(parts[..k], sep) + sep + Join(parts[k..], sep)
  {
    var first, rest := parts[0], parts[1..];
    if k == 1 {
      assert parts[..1] == [first];
    } else {
      JoinSplits(rest, sep, k - 1);
      assert parts[..k][1..] == rest[..k - 1] && parts[k..] == rest[k - 1..];
    }
  }

  lemma {:induction false} JoinAppends(parts: seq<string>, sep: string, last: string)
    ensures Join(parts + [last], sep) == if parts == [] then last else Join(parts, sep) + sep + last
  {
    if parts != [] {
      JoinSplits(parts + [last], sep, |parts|);
      assert (parts + [last])[..|parts|] == parts && (parts + [last])[|parts|..] == [last];
    }
  }

  /** Where part `i` starts when the parts are written one after another with `sep` in between. */
  function PartStart(parts: seq<string>, sep: string, i: nat): nat
    requires i <= |parts|
  {
    if i == 0 then 0 else PartStart(parts, sep, i - 1) + |parts[i - 1]| + |sep|
  }

  /** Part `i` is where it belongs, followed by the separator, or by nothing if it is the last. */
  ghost predicate PartInPlace(text: string, parts: seq<string>, sep: string, i: nat)
    requires i < |parts|
  {
    var at := PartStart(parts, sep, i);
    && OccursAt(text, parts[i], at)
    && if i + 1 < |parts| then OccursAt(text, sep, at + |parts[i]|) else at + |parts[i]| == |text|
  }

  /** Joining puts every part in its place. */
  lemma {:induction false} JoinMeaning(parts: seq<string>, sep: string, i: nat)
    requires i < |parts|
    ensures PartInPlace(Join(parts, sep), parts, sep, i)
  {
    var rest := parts[i..];
    if i > 0 {
      JoinSplits(parts, sep, i);
      PrefixLength(parts, sep, i);
    } else {
      assert rest == parts;
    }
    var text, at := Join(parts, sep), PartStart(parts, sep, i);
    assert text[at..] == Join(rest, sep);
    if i + 1 < |parts| {
      assert Join(rest, sep) == (parts[i] + sep) + Join(rest[1..], sep);
      OccursInFront(text, at, parts[i], sep, Join(rest[1..], sep));
    } else {
      assert Join(rest, sep) == parts[i];
    }
  }

  lemma {:induction false} OccursInFront(text: string, at: nat, p: string, q: string, more: string)
    requires at <= |text| && text[at..] == (p + q) + more
    ensures OccursAt(text, p, at) && OccursAt(text, q, at + |p|)
  {
    var tail := text[at..];
    assert tail[..|p|] == p && tail[|p|..|p| + |q|] == q;
    SliceOfSlice(text, at, |text|, 0, |p|);
    SliceOfSlice(text, at, |text|, |p|, |p| + |q|);
    assert text[at..|text|] == tail;
  }

  lemma {:induction false} PrefixLength(parts: seq<string>, sep: string, i: nat)
    requires 0 < i <= |parts|
    ensures |Join(parts[..i], sep)| + |sep| == PartStart(parts, sep, i)
  {
    if i == 1 {
      assert PartStart(parts, sep, 0) == 0;
    } else {
      PrefixLength(parts, sep, i - 1);
      assert parts[..i] == parts[..i - 1] + [parts[i - 1]];
      JoinAppends(parts[..i - 1], sep, parts[i - 1]);
    }
  }

  function Concat(parts: seq<string>): string {
    if parts == [] then "" else parts[0] + Concat(parts[1..])
  }

  lemma {:induction false} ConcatAppends(a: seq<string>, b: seq<string>)
    ensures Concat(a + b) == Concat(a) + Concat(b)
  {
    if a == [] {
      assert a + b == b;
    } else {
      assert (a + b)[1..] == a[1..] + b;
      ConcatAppends(a[1..], b);
    }
  }

  predicate OccursAt(s: string, p: string, i: int) {
    0 <= i && i + |p| <= |s| && s[i..i + |p|] == p
  }

  /** White space only, on `n` characters from `from` on. */
  ghost predicate SpacesAt(s: string, from: nat, n: nat) {
    forall i :: from <= i < from + n ==> i < |s| && IsSpace(s[i])
  }

  lemma {:induction false} ConcatAssociates<T>(a: seq<T>, b: seq<T>, c: seq<T>)
    ensures a + (b + c) == (a + b) + c
  {
  }

  lemma {:induction false} SliceGrows<T>(s: seq<T>, a: nat, b: nat)
    requires a <= b < |s|
    ensures s[a..b + 1] == s[a..b] + [s[b]]
  {
  }

  lemma {:induction false} SliceOfSlice<T>(s: seq<T>, a: nat, b: nat, c: nat, d: nat)
    requires a <= b <= |s| && c <= d <= b - a
    ensures s[a..b][c..d] == s[a + c..a + d]
  {
    forall i | 0 <= i < d - c ensures s[a..b][c..d][i] == s[a + c..a + d][i] {
      assert s[a..b][c + i] == s[a + c + i];
    }
  }

  /** The core of a part of `s` lies in `s` after the white space stripped from the part's front. */
  lemma {:induction false} CoreOfPart(s: string, part: string, at: nat, core: string, lead: nat)
    requires OccursAt(s, part, at) && CoreAt(part, core, lead)
    ensures OccursAt(s, core, at + lead) && SpacesAt(s, at, lead)
  {
    var there := s[at..at + |part|];
    assert there == part;
    SliceOfSlice(s, at, at + |part|, lead, lead + |core|);
    forall i | at <= i < at + lead ensures IsSpace(s[i]) {
      assert s[i] == there[i - at];
    }
  }

  lemma {:induction false} OccursWithin(s: string, mid: string, at: nat, p: string, k: nat)
    requires OccursAt(s, mid, at) && OccursAt(mid, p, k)
    ensures OccursAt(s, p, at + k)
  {
    SliceOfSlice(s, at, at + |mid|, k, k + |p|);
  }

  predicate Contains(s: string, p: string) {
    exists i :: 0 <= i <= |s| && OccursAt(s, p, i)
  }

  predicate ContainsAny(s: string, patterns: seq<string>) {
    exists k :: 0 <= k < |patterns| && Contains(s, patterns[k])
  }

  /** A text does not contain what has a character that the text has not. */
  lemma {:induction false} LacksCharacter(s: string, p: string, k: nat)
    requires k < |p| && p[k] !in s
    ensures !Contains(s, p) && forall i :: !OccursAt(s, p, i)
  {
    forall i ensures !OccursAt(s, p, i) {
      if 0 <= i && i + |p| <= |s| {
        assert s[i..i + |p|][k] == s[i + k] && s[i + k] in s;
      }
    }
  }

  /** The last occurrence of `p` at or before `from`, or -1. */
  function LastOccurrence(s: string, p: string, from: int): int
    decreases from
  {
    if from < 0 then -1 else if OccursAt(s, p, from) then from else LastOccurrence(s, p, from - 1)
  }

  /** Python's `s.rfind(p)`. */
  function RFind(s: string, p: string): int {
    LastOccurrence(s, p, |s|)
  }

  lemma {:induction false} LastOccurrenceMeaning(s: string, p: string, from: int)
    requires from >= -1
    ensures var i := LastOccurrence(s, p, from);
            && -1 <= i <= from && (i >= 0 ==> OccursAt(s, p, i))
            && forall j :: i < j <= from ==> !OccursAt(s, p, j)
    decreases from
  {
    if from >= 0 && !OccursAt(s, p, from) {
      LastOccurrenceMeaning(s, p, from - 1);
    }
  }

  /** `rfind` returns the last occurrence, or -1 when there is none. */
  lemma {:induction false} RFindMeaning(s: string, p: string)
    ensures RFind(s, p) == -1 || OccursAt(s, p, RFind(s, p))
    ensures forall j :: RFind(s, p) < j ==> !OccursAt(s, p, j)
  {
    LastOccurrenceMeaning(s, p, |s|);
  }
}
