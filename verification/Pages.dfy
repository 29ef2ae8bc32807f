/** Joining the cleaned pages of a paged document, and looking a character offset up again. The
    cleaning of one page is a parameter: any function from text to text. */
module Pages {
  import opened Text

  datatype PageSpan = PageSpan(start: nat, end: nat, page: nat)

  datatype PageLookup = NoPage | Page(number: nat)

  const JOIN: string := "\n\n"

  type Cleaner = string -> string

  /** The cleaned pages among the first `n`, without the empty ones. */
  function Parts(pages: seq<string>, clean: Cleaner, n: nat): seq<string>
    requires n <= |pages|
  {
    if n == 0 then []
    else if clean(pages[n - 1]) == "" then Parts(pages, clean, n - 1)
    else Parts(pages, clean, n - 1) + [clean(pages[n - 1])]
  }

  /** Where the next non-empty page would start after the first `n` pages. */
  function NextOffset(pages: seq<string>, clean: Cleaner, n: nat): nat
    requires n <= |pages|
  {
    if n == 0 then 0
    else if clean(pages[n - 1]) == "" then NextOffset(pages, clean, n - 1)
    else NextOffset(pages, clean, n - 1) + |clean(pages[n - 1])| + |JOIN|
  }

  /** The spans of the first `n` pages; page numbers start at 1. */
  function Spans(pages: seq<string>, clean: Cleaner, n: nat): seq<PageSpan>
    requires n <= |pages|
  {
    if n == 0 then []
    else
      var before, ct := Spans(pages, clean, n - 1), clean(pages[n - 1]);
      var start := NextOffset(pages, clean, n - 1);
      if ct == "" then before else before + [PageSpan(start, start + |ct|, n)]
  }

  method BuildPagedText(pages: seq<string>, clean: Cleaner) returns (text: string, spans: seq<PageSpan>)
    ensures text == Join(Parts(pages, clean, |pages|), JOIN)
    ensures spans == Spans(pages, clean, |pages|)
  {
    var parts: seq<string> := [];
    spans := [];
    var offset := 0;
    for i := 0 to |pages|
      invariant parts == Parts(pages, clean, i) && spans == Spans(pages, clean, i)
      invariant offset == NextOffset(pages, clean, i)
    {
      var ct := clean(pages[i]);
      if ct == "" { continue; }
      var start := offset;
      parts := parts + [ct];
      offset := offset + |ct|;
      spans := spans + [PageSpan(start, offset, i + 1)];
      offset := offset + |JOIN|;
    }
    text := Join(parts, JOIN);
  }

  /** The first span that contains the offset. */
  function FirstContaining(offset: int, spans: seq<PageSpan>): PageLookup {
    if spans == [] then NoPage
    else if spans[0].start <= offset < spans[0].end then Page(spans[0].page)
    else FirstContaining(offset, spans[1..])
  }

  function PageForOffset(offset: int, spans: seq<PageSpan>): PageLookup {
    var hit := FirstContaining(offset, spans);
    if hit.Page? then hit
    else if spans == [] then NoPage
    else if offset >= spans[|spans| - 1].end then Page(spans[|spans| - 1].page)
    else Page(spans[0].page)
  }

  // ----- Main results -----

  /** Spans laid out over a text of the given length: from 0 to its end, non-empty, in page order, each
      two characters after the one before. */
  ghost predicate LaidOut(spans: seq<PageSpan>, length: nat) {
    && (spans == [] ==> length == 0)
    && (spans != [] ==> spans[0].start == 0 && spans[|spans| - 1].end == length)
    && (forall k :: 0 <= k < |spans| ==> spans[k].start < spans[k].end <= length)
    && (forall k :: 0 <= k < |spans| - 1 ==> spans[k + 1].start == spans[k].end + |JOIN|)
    && (forall j, k :: 0 <= j < k < |spans| ==> spans[j].page < spans[k].page && spans[j].end < spans[k].start)
  }

  /** Each span shows exactly its page's cleaned text. */
  ghost predicate ShowsItsPage(pages: seq<string>, clean: Cleaner, text: string, s: PageSpan) {
    && 1 <= s.page <= |pages| && s.start <= s.end <= |text|
    && text[s.start..s.end] == clean(pages[s.page - 1]) && clean(pages[s.page - 1]) != ""
  }

  lemma {:induction false} LayoutGrows(spans: seq<PageSpan>, length: nat, n: nat, size: nat)
    requires LaidOut(spans, length) && size > 0
    requires forall k :: 0 <= k < |spans| ==> spans[k].page < n
    ensures var start := if spans == [] then 0 else length + |JOIN|;
            LaidOut(spans + [PageSpan(start, start + size, n)], start + size)
  {
    var start := if spans == [] then 0 else length + |JOIN|;
    var more := spans + [PageSpan(start, start + size, n)];
    forall k | 0 <= k < |spans| ensures more[k] == spans[k] && spans[k].end <= length {}
  }

  /** Parts, spans and next offset that belong together after `n` pages. */
  ghost predicate InStep(parts: seq<string>, spans: seq<PageSpan>, next: nat, n: nat) {
    var text := Join(parts, JOIN);
    && LaidOut(spans, |text|)
    && |spans| == |parts|
    && next == (if spans == [] then 0 else |text| + |JOIN|)
    && forall k :: 0 <= k < |spans| ==> spans[k].page <= n
  }

  lemma {:induction false} InStepGrows(parts: seq<string>, spans: seq<PageSpan>, next: nat, n: nat, ct: string)
    requires InStep(parts, spans, next, n) && ct != ""
    ensures InStep(parts + [ct], spans + [PageSpan(next, next + |ct|, n + 1)], next + |ct| + |JOIN|, n + 1)
  {
    hide Join, LaidOut;
    JoinAppends(parts, JOIN, ct);
    NothingJoinsToNothing();
    LayoutGrows(spans, |Join(parts, JOIN)|, n + 1, |ct|);
  }

  lemma {:induction false} NothingJoinsToNothing()
    ensures Join([], JOIN) == "" && InStep([], [], 0, 0)
  {
  }

  lemma {:induction false} SpansFollowText(pages: seq<string>, clean: Cleaner, n: nat)
    requires n <= |pages|
    ensures InStep(Parts(pages, clean, n), Spans(pages, clean, n), NextOffset(pages, clean, n), n)
  {
    hide InStep;
    if n == 0 {
      NothingJoinsToNothing();
    } else {
      SpansFollowText(pages, clean, n - 1);
      var parts, spans := Parts(pages, clean, n - 1), Spans(pages, clean, n - 1);
      var next, ct := NextOffset(pages, clean, n - 1), clean(pages[n - 1]);
      if ct == "" {
        InStepSkips(parts, spans, next, n - 1);
      } else {
        InStepGrows(parts, spans, next, n - 1, ct);
      }
    }
  }

  lemma {:induction false} InStepSkips(parts: seq<string>, spans: seq<PageSpan>, next: nat, n: nat)
    requires InStep(parts, spans, next, n)
    ensures InStep(parts, spans, next, n + 1)
  {
  }

  /** The spans tile the combined text: from its start to its end, in page order, two characters apart. */
  lemma {:induction false} SpansAreLaidOut(pages: seq<string>, clean: Cleaner)
    ensures LaidOut(Spans(pages, clean, |pages|), |Join(Parts(pages, clean, |pages|), JOIN)|)
  {
    hide LaidOut;
    SpansFollowText(pages, clean, |pages|);
  }

  /** Cutting the combined text at any span gives back that page's cleaned text. */
  lemma {:induction false} SpansShowTheirPages(pages: seq<string>, clean: Cleaner, n: nat, k: nat)
    requires n <= |pages| && k < |Spans(pages, clean, n)|
    ensures ShowsItsPage(pages, clean, Join(Parts(pages, clean, n), JOIN), Spans(pages, clean, n)[k])
  {
    hide Join, InStep;
    assert n > 0;
    SpansFollowText(pages, clean, n - 1);
    var parts, before := Parts(pages, clean, n - 1), Spans(pages, clean, n - 1);
    var next, ct := NextOffset(pages, clean, n - 1), clean(pages[n - 1]);
    if k < |before| {
      SpansShowTheirPages(pages, clean, n - 1, k);
    }
    if ct != "" {
      TextGrows(parts, before, next, n - 1, ct);
    }
  }

  /** Adding a page keeps the text so far and puts the new page at the next offset. */
  lemma {:induction false} TextGrows(parts: seq<string>, spans: seq<PageSpan>, next: nat, n: nat, ct: string)
    requires InStep(parts, spans, next, n)
    ensures var text, text' := Join(parts, JOIN), Join(parts + [ct], JOIN);
            && |text| <= |text'| && text'[..|text|] == text
            && next + |ct| == |text'| && text'[next..] == ct
  {
    hide Join, LaidOut;
    JoinAppends(parts, JOIN, ct);
    NothingJoinsToNothing();
  }

  lemma {:induction false} PageNumbersGrow(pages: seq<string>, clean: Cleaner, n: nat)
    requires n <= |pages|
    ensures forall k :: 0 <= k < |Spans(pages, clean, n)| ==> Spans(pages, clean, n)[k].page <= n
  {
    hide Join, LaidOut;
    SpansFollowText(pages, clean, n);
  }

  /** A page has a span exactly when its cleaned text is not empty. */
  lemma {:induction false} PageHasSpanIff(pages: seq<string>, clean: Cleaner, n: nat, page: nat)
    requires n <= |pages| && 1 <= page <= n
    ensures clean(pages[page - 1]) != "" <==> exists s :: s in Spans(pages, clean, n) && s.page == page
  {
    hide InStep, NextOffset;
    var before := Spans(pages, clean, n - 1);
    PageNumbersGrow(pages, clean, n - 1);
    if page < n {
      PageHasSpanIff(pages, clean, n - 1, page);
    } else if clean(pages[n - 1]) != "" {
      assert Spans(pages, clean, n)[|before|].page == page;
    }
  }

  lemma {:induction false} FirstContainingMeaning(offset: int, spans: seq<PageSpan>)
    ensures var r := FirstContaining(offset, spans);
            if r.NoPage? then forall k :: 0 <= k < |spans| ==> !(spans[k].start <= offset < spans[k].end)
            else exists k :: 0 <= k < |spans| && spans[k].start <= offset < spans[k].end && r.number == spans[k].page
  {
    if spans != [] && !(spans[0].start <= offset < spans[0].end) {
      FirstContainingMeaning(offset, spans[1..]);
      var rest := spans[1..];
      forall k | 0 < k < |spans| ensures spans[k] == rest[k - 1] {}
      if FirstContaining(offset, rest).Page? {
        var k :| 0 <= k < |rest| && rest[k].start <= offset < rest[k].end
                 && FirstContaining(offset, rest).number == rest[k].page;
        assert spans[k + 1] == rest[k];
      }
    }
  }

  /** An offset inside a page's span is looked up to that page: building and looking up invert. */
  lemma {:induction false} LookupInsideSpan(spans: seq<PageSpan>, length: nat, k: nat, offset: int)
    requires LaidOut(spans, length) && k < |spans| && spans[k].start <= offset < spans[k].end
    ensures PageForOffset(offset, spans) == Page(spans[k].page)
  {
    FirstContainingMeaning(offset, spans);
    var j :| 0 <= j < |spans| && spans[j].start <= offset < spans[j].end
             && FirstContaining(offset, spans) == Page(spans[j].page);
    assert j == k;
  }

  /** Outside every span the lookup falls back: at or past the end to the last page, anywhere else
      (before the text, or in a joiner between two pages) to the first page. */
  lemma {:induction false} LookupOutsideSpans(spans: seq<PageSpan>, length: nat, offset: int)
    requires LaidOut(spans, length) && spans != []
    requires forall k :: 0 <= k < |spans| ==> !(spans[k].start <= offset < spans[k].end)
    ensures PageForOffset(offset, spans)
         == Page(if offset >= length then spans[|spans| - 1].page else spans[0].page)
  {
    FirstContainingMeaning(offset, spans);
  }

  /** In the joiner after span `k` the lookup returns the page before the joiner only for the first
      joiner, and never the page after it: it is not the nearest page in general. */
  lemma {:induction false} JoinerIsNearestOnlyForFirstPage(spans: seq<PageSpan>, length: nat, k: nat, offset: int)
    requires LaidOut(spans, length) && k + 1 < |spans| && spans[k].end <= offset < spans[k + 1].start
    ensures PageForOffset(offset, spans) == Page(spans[k].page) <==> k == 0
    ensures PageForOffset(offset, spans) != Page(spans[k + 1].page)
  {
    forall j | 0 <= j < |spans| ensures !(spans[j].start <= offset < spans[j].end) {
      if j < k {
        assert spans[j].end < spans[k].start;
      } else if j > k + 1 {
        assert spans[k + 1].end < spans[j].start;
      }
    }
    assert offset < length;
    LookupOutsideSpans(spans, length, offset);
  }

  /** Three pages of one letter: just after the second, the lookup names the first. */
  lemma {:induction false} JoinerNamesFirstPage()
    ensures var pages, clean: Cleaner := ["a", "b", "c"], (s: string) => s;
            && Join(Parts(pages, clean, 3), JOIN) == "a\n\nb\n\nc"
            && Spans(pages, clean, 3) == [PageSpan(0, 1, 1), PageSpan(3, 4, 2), PageSpan(6, 7, 3)]
            && PageForOffset(4, Spans(pages, clean, 3)) == Page(1)
  {
    var pages, clean: Cleaner := ["a", "b", "c"], (s: string) => s;
    assert Parts(pages, clean, 0) == [] && Parts(pages, clean, 1) == ["a"] && Parts(pages, clean, 2) == ["a", "b"];
    assert Parts(pages, clean, 3) == ["a", "b", "c"];
    assert Spans(pages, clean, 0) == [] && Spans(pages, clean, 1) == [PageSpan(0, 1, 1)];
    var spans := [PageSpan(0, 1, 1), PageSpan(3, 4, 2), PageSpan(6, 7, 3)];
    assert Spans(pages, clean, 3) == spans;
    assert spans[1..][1..][1..] == [];
  }

  /** Between two neighbouring spans the text has exactly a blank line's two newlines. */
  lemma {:induction false} JoinersAreNewlines(pages: seq<string>, clean: Cleaner, k: nat)
    requires k + 1 < |Spans(pages, clean, |pages|)|
    ensures var text, spans := Join(Parts(pages, clean, |pages|), JOIN), Spans(pages, clean, |pages|);
            && spans[k].end + 2 == spans[k + 1].start <= |text|
            && text[spans[k].end] == '\n' && text[spans[k].end + 1] == '\n'
  {
    hide Join, OccursAt;
    var parts := Parts(pages, clean, |pages|);
    SpansAreLaidOut(pages, clean);
    SpansArePartStarts(pages, clean, |pages|, k);
    SpansArePartStarts(pages, clean, |pages|, k + 1);
    JoinMeaning(parts, JOIN, k);
    OccursIsAt(Join(parts, JOIN), PartStart(parts, JOIN, k) + |parts[k]|);
  }

  lemma {:induction false} OccursIsAt(text: string, at: nat)
    requires OccursAt(text, "\n\n", at)
    ensures at + 2 <= |text| && text[at] == '\n' && text[at + 1] == '\n'
  {
    assert text[at..at + 2][0] == text[at] && text[at..at + 2][1] == text[at + 1];
  }

  lemma {:induction false} SpansArePartStarts(pages: seq<string>, clean: Cleaner, n: nat, k: nat)
    requires n <= |pages| && k < |Spans(pages, clean, n)|
    ensures var parts, spans := Parts(pages, clean, n), Spans(pages, clean, n);
            && |parts| == |spans| && spans[k].start == PartStart(parts, JOIN, k)
            && spans[k].end == spans[k].start + |parts[k]|
  {
    PartsAndOffset(pages, clean, n);
    if clean(pages[n - 1]) == "" {
      SpansArePartStarts(pages, clean, n - 1, k);
    } else {
      PartsAndOffset(pages, clean, n - 1);
      var before := Parts(pages, clean, n - 1);
      if k < |before| {
        SpansArePartStarts(pages, clean, n - 1, k);
        PartStartOfPrefix(before, clean(pages[n - 1]), k);
      } else {
        PartStartOfPrefix(before, clean(pages[n - 1]), |before|);
      }
    }
  }

  lemma {:induction false} PartStartOfPrefix(parts: seq<string>, last: string, k: nat)
    requires k <= |parts|
    ensures PartStart(parts + [last], JOIN, k) == PartStart(parts, JOIN, k)
  {
    if k > 0 { PartStartOfPrefix(parts, last, k - 1); }
  }

  lemma {:induction false} PartsAndOffset(pages: seq<string>, clean: Cleaner, n: nat)
    requires n <= |pages|
    ensures |Parts(pages, clean, n)| == |Spans(pages, clean, n)|
    ensures NextOffset(pages, clean, n) == PartStart(Parts(pages, clean, n), JOIN, |Parts(pages, clean, n)|)
  {
    if n > 0 {
      PartsAndOffset(pages, clean, n - 1);
      var before := Parts(pages, clean, n - 1);
      if clean(pages[n - 1]) != "" {
        PartStartOfPrefix(before, clean(pages[n - 1]), |before|);
      }
    }
  }
}
