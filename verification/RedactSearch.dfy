/** Finding secret values and cut-off beginnings of them in a text: `_starts`, `_cuts`,
    `_line_cuts` and `_cut_prefixes` of `runs/redact.py`. */
module RedactSearch {

  datatype Span = Span(start: nat, end: nat)

  /** A line, or the part of one before a truncation marker: what a cut may end. */
  datatype Cut = Cut(start: nat, end: nat)

  const TRUNCATED := "... (truncated)"

  const MIN_PREFIX := 4

  // ----------------------------------------------------- whole occurrences

  predicate OccursAt(text: string, needle: string, at: int) {
    0 <= at && at + |needle| <= |text| && text[at..at + |needle|] == needle
  }

  /** `text.find(needle, lo, hi)`: the first occurrence inside the bounds, else -1. */
  method Find(text: string, needle: string, lo: nat, hi: nat) returns (at: int)
    requires hi <= |text|
    ensures at == -1 ==> forall i :: lo <= i && i + |needle| <= hi ==> !OccursAt(text, needle, i)
    ensures at != -1 ==> lo <= at && at + |needle| <= hi && OccursAt(text, needle, at)
                         && forall i :: lo <= i < at ==> !OccursAt(text, needle, i)
  {
    at := lo;
    while at + |needle| <= hi
      invariant lo <= at
      invariant forall i :: lo <= i < at ==> !OccursAt(text, needle, i)
      decreases hi - at
    {
      if text[at..at + |needle|] == needle {
        return;
      }
      at := at + 1;
    }
    at := -1;
  }

  ghost predicate Rising(s: seq<nat>) {
    forall i, j :: 0 <= i < j < |s| ==> s[i] < s[j]
  }

  /** Every index where `needle` occurs, overlaps included, in order. */
  method Starts(text: string, needle: string) returns (found: seq<nat>)
    requires needle != ""
    ensures Rising(found)
    ensures forall i: nat :: i in found <==> OccursAt(text, needle, i)
  {
    found := [];
    var index := Find(text, needle, 0, |text|);
    while index >= 0
      invariant index == -1 || OccursAt(text, needle, index)
      invariant Rising(found)
      invariant forall i: nat :: i in found <==> OccursAt(text, needle, i) && (index == -1 || i < index)
      decreases if index == -1 then 0 else |text| + 1 - index
    {
      assert forall i :: 0 <= i < |found| ==> found[i] in found;
      found := found + [index];
      index := Find(text, needle, index + 1, |text|);
    }
  }

  // ------------------------------------------------------------------ cuts

  predicate IsEnd(c: char) {
    c == '\r' || c == '\n'
  }

  /** `start` to `end` is a whole line of the text, without what ends it. */
  ghost predicate IsLine(text: string, start: nat, end: nat) {
    && start <= end <= |text|
    && (forall i :: start <= i < end ==> text[i] != '\r' && text[i] != '\n')
    && (start == 0 || text[start - 1] == '\r' || text[start - 1] == '\n')
    && (end == |text| || text[end] == '\r' || text[end] == '\n')
  }

  /** A cut may end a line, or sit before the marker a truncated line ends with. */
  ghost predicate IsCut(text: string, start: nat, end: nat) {
    || IsLine(text, start, end)
    || (start <= end && IsLine(text, start, end + |TRUNCATED|) && OccursAt(text, TRUNCATED, end))
  }

  method LineCuts(text: string, start: nat, end: nat) returns (cuts: seq<Cut>)
    requires IsLine(text, start, end)
    ensures forall c :: c in cuts <==> c.start == start && c.end <= end && IsCut(text, c.start, c.end)
    ensures forall i, j :: 0 <= i < j < |cuts| ==> cuts[i].end != cuts[j].end
  {
    cuts := [Cut(start, end)];
    var marked := end - |TRUNCATED| >= start && text[end - |TRUNCATED|..end] == TRUNCATED;
    if marked {
      cuts := cuts + [Cut(start, end - |TRUNCATED|)];
    }
    forall c: Cut | c.start == start && c.end <= end && IsCut(text, c.start, c.end)
      ensures c in cuts
    {
      SameLine(text, start, end, if IsLine(text, start, c.end) then c.end else c.end + |TRUNCATED|);
      if c.end != end {
        assert marked && c.end == end - |TRUNCATED|;
        assert cuts[1] == c;
      } else {
        assert cuts[0] == c;
      }
    }
  }

  lemma {:induction false} SameLine(text: string, start: nat, end: nat, other: nat)
    requires IsLine(text, start, end) && IsLine(text, start, other)
    ensures end == other
  {
  }

  lemma {:induction false} LineStartsAfter(text: string, start: nat, end: nat, other: nat, otherEnd: nat)
    requires IsLine(text, start, end) && IsLine(text, other, otherEnd) && start < other
    ensures end < other
  {
  }

  /** The lines of the text and their cuts, found at each line end from the left. */
  method Cuts(text: string) returns (cuts: seq<Cut>)
    ensures forall c :: c in cuts <==> IsCut(text, c.start, c.end)
    ensures forall i, j :: 0 <= i < j < |cuts| ==> cuts[i].end != cuts[j].end
  {
    cuts := [];
    var start, at := 0, 0;
    while at < |text|
      invariant start <= at <= |text|
      invariant start == 0 || IsEnd(text[start - 1])
      invariant forall i :: start <= i < at ==> !IsEnd(text[i])
      invariant forall c :: c in cuts <==> c.start < start && IsCut(text, c.start, c.end)
      invariant forall c :: c in cuts ==> c.end < start
      invariant forall i, j :: 0 <= i < j < |cuts| ==> cuts[i].end != cuts[j].end
      decreases |text| - at
    {
      if IsEnd(text[at]) {
        var line := LineCuts(text, start, at);
        cuts := AddLine(text, cuts, line, start, at);
        start := at + 1;
      }
      at := at + 1;
    }
    var line := LineCuts(text, start, |text|);
    ghost var before := cuts;
    cuts := AddLine(text, cuts, line, start, |text|);
    forall c: Cut | IsCut(text, c.start, c.end)
      ensures c in cuts
    {
    }
  }

  /** A line's cuts come after those of the lines before it. */
  method AddLine(text: string, cuts: seq<Cut>, line: seq<Cut>, start: nat, end: nat) returns (all: seq<Cut>)
    requires IsLine(text, start, end)
    requires forall c :: c in cuts <==> c.start < start && IsCut(text, c.start, c.end)
    requires forall c :: c in cuts ==> c.end < start
    requires forall c :: c in line <==> c.start == start && c.end <= end && IsCut(text, c.start, c.end)
    requires forall i, j :: 0 <= i < j < |cuts| ==> cuts[i].end != cuts[j].end
    requires forall i, j :: 0 <= i < j < |line| ==> line[i].end != line[j].end
    ensures forall c :: c in all <==> c.start <= end && IsCut(text, c.start, c.end)
    ensures forall c :: c in all ==> c.end <= end
    ensures forall i, j :: 0 <= i < j < |all| ==> all[i].end != all[j].end
  {
    all := cuts + line;
    forall c: Cut | c.start <= end && IsCut(text, c.start, c.end)
      ensures c in all
    {
      var whole := if IsLine(text, c.start, c.end) then c.end else c.end + |TRUNCATED|;
      if c.start > start {
        LineStartsAfter(text, start, end, c.start, whole);
        assert false;
      }
      if c.start == start {
        SameLine(text, start, end, whole);
        assert c in line;
      }
    }
    forall i, j | 0 <= i < j < |all|
      ensures all[i].end != all[j].end
    {
      if i < |cuts| && j >= |cuts| {
        assert all[i] in cuts && all[j] in line;
      }
    }
  }

  // --------------------------------------------------------- cut prefixes

  predicate InLabel(c: char) {
    'A' <= c <= 'Z' || '0' <= c <= '9' || c == ' '
  }

  function LabelRun(s: string): nat
    ensures LabelRun(s) <= |s|
  {
    if s == "" || !InLabel(s[0]) then 0 else 1 + LabelRun(s[1..])
  }

  function AfterLabel(needle: string, open: nat): nat
    requires open <= |needle|
  {
    var run := LabelRun(needle[open..]);
    if run > 0 && "-----" <= needle[open + run..] then open + run + 5 else 0
  }

  /** The length of the PEM armour that `needle` starts with, or 0. */
  function Framing(needle: string): nat {
    if "-----BEGIN " <= needle then AfterLabel(needle, 11)
    else if "-----END " <= needle then AfterLabel(needle, 9)
    else 0
  }

  ghost predicate IsArmour(s: string) {
    exists open, tag ::
      && open in {"-----BEGIN ", "-----END "}
      && tag != "" && (forall i :: 0 <= i < |tag| ==> 'A' <= tag[i] <= 'Z' || '0' <= tag[i] <= '9' || tag[i] == ' ')
      && s == open + tag + "-----"
  }

  lemma {:induction false} LabelRunExact(tag: string, rest: string)
    requires forall i :: 0 <= i < |tag| ==> InLabel(tag[i])
    requires rest != "" && !InLabel(rest[0])
    ensures LabelRun(tag + rest) == |tag|
  {
    if tag == "" {
      assert tag + rest == rest;
    } else {
      assert (tag + rest)[1..] == tag[1..] + rest;
      LabelRunExact(tag[1..], rest);
    }
  }

  lemma {:induction false} LabelRunAll(s: string)
    ensures forall i :: 0 <= i < LabelRun(s) ==> InLabel(s[i])
  {
    if s != "" && InLabel(s[0]) {
      LabelRunAll(s[1..]);
      assert forall i :: 1 <= i < LabelRun(s) ==> s[i] == s[1..][i - 1];
    }
  }

  /** A needle's framing is its prefix that is a line of PEM armour, and there is at most one. */
  lemma {:induction false} FramingIsArmour(needle: string, n: nat)
    requires 0 < n <= |needle|
    ensures Framing(needle) <= |needle|
    ensures Framing(needle) == n <==> IsArmour(needle[..n])
  {
    if "-----BEGIN " <= needle {
      ArmourLength(needle, "-----BEGIN ", n);
    } else if "-----END " <= needle {
      ArmourLength(needle, "-----END ", n);
    } else if IsArmour(needle[..n]) {
      ArmourOpens(needle, n);
    }
  }

  lemma {:induction false} ArmourOpens(needle: string, n: nat)
    requires n <= |needle| && IsArmour(needle[..n])
    ensures "-----BEGIN " <= needle || "-----END " <= needle
  {
    var open, tag :| open in {"-----BEGIN ", "-----END "} && needle[..n] == open + tag + "-----";
    assert needle[..|open|] == needle[..n][..|open|] == open;
  }

  lemma {:induction false} ArmourLength(needle: string, open: string, n: nat)
    requires open in {"-----BEGIN ", "-----END "} && open <= needle && 0 < n <= |needle|
    ensures AfterLabel(needle, |open|) <= |needle|
    ensures AfterLabel(needle, |open|) == n <==> IsArmour(needle[..n])
  {
    if IsArmour(needle[..n]) {
      var o, tag :| o in {"-----BEGIN ", "-----END "} && tag != ""
        && (forall i :: 0 <= i < |tag| ==> InLabel(tag[i])) && needle[..n] == o + tag + "-----";
      assert needle[5] == open[5] && needle[5] == o[5];
      ArmourMeasured(needle, open, tag, n);
    } else {
      MeasuredArmour(needle, open);
    }
  }

  lemma {:induction false} ArmourMeasured(needle: string, open: string, tag: string, n: nat)
    requires tag != "" && forall i :: 0 <= i < |tag| ==> InLabel(tag[i])
    requires n <= |needle| && needle[..n] == open + tag + "-----"
    ensures |open| <= |needle| && AfterLabel(needle, |open|) == n
  {
    var rest := "-----" + needle[n..];
    assert needle == needle[..n] + needle[n..];
    assert needle[|open|..] == tag + rest;
    assert rest[0] == '-';
    LabelRunExact(tag, rest);
    assert needle[|open| + |tag|..] == rest;
  }

  lemma {:induction false} MeasuredArmour(needle: string, open: string)
    requires open in {"-----BEGIN ", "-----END "} && open <= needle
    ensures AfterLabel(needle, |open|) <= |needle|
    ensures AfterLabel(needle, |open|) > 0 ==> IsArmour(needle[..AfterLabel(needle, |open|)])
  {
    var tail := needle[|open|..];
    var run := LabelRun(tail);
    LabelRunAll(tail);
    if run > 0 && "-----" <= needle[|open| + run..] {
      var dashes := needle[|open| + run..|open| + run + 5];
      assert dashes == needle[|open| + run..][..5] == "-----";
      assert needle[..|open| + run + 5] == open + tail[..run] + "-----";
    }
  }

  /** `span` is a proper prefix of `needle`, of at least four characters and longer than
      any PEM framing, that ends where a line may have been cut. The whole line is
      searched: nothing here bounds how far before the cut it starts. */
  ghost predicate EndsCut(text: string, needle: string, c: Cut, span: Span) {
    && c.start <= span.start <= span.end == c.end <= |text|
    && MIN_PREFIX <= span.end - span.start < |needle|
    && Framing(needle) < span.end - span.start
    && text[span.start..span.end] == needle[..span.end - span.start]
  }

  ghost predicate Distinct(spans: seq<Span>) {
    forall i, j :: 0 <= i < j < |spans| ==> spans[i] != spans[j]
  }

  /** One cut's prefixes, searched only within `|needle| - 1` characters before it. */
  method PrefixesAt(text: string, needle: string, c: Cut) returns (spans: seq<Span>)
    requires c.start <= c.end <= |text|
    ensures forall s :: s in spans <==> EndsCut(text, needle, c, s)
    ensures Distinct(spans)
  {
    spans := [];
    var head := if |needle| < MIN_PREFIX then needle else needle[..MIN_PREFIX];
    var from := if c.end - |needle| + 1 > c.start then c.end - |needle| + 1 else c.start;
    forall s | EndsCut(text, needle, c, s)
      ensures from <= s.start && s.start + |head| <= c.end && OccursAt(text, head, s.start)
    {
      EndsCutHead(text, needle, c, s, head);
    }
    var start := Find(text, head, from, c.end);
    while start >= 0
      invariant start == -1 || (from <= start && start + |head| <= c.end && OccursAt(text, head, start))
      invariant forall s :: s in spans <==> EndsCut(text, needle, c, s) && (start == -1 || s.start < start)
      invariant Distinct(spans)
      decreases if start == -1 then 0 else |text| + 1 - start
    {
      if c.end - start > Framing(needle) && text[start..c.end] <= needle {
        spans := spans + [Span(start, c.end)];
      }
      start := Find(text, head, start + 1, c.end);
    }
  }

  lemma {:induction false} EndsCutHead(text: string, needle: string, c: Cut, s: Span, head: string)
    requires EndsCut(text, needle, c, s)
    requires head == if |needle| < MIN_PREFIX then needle else needle[..MIN_PREFIX]
    ensures OccursAt(text, head, s.start) && s.start + |head| <= c.end
  {
    assert text[s.start..s.start + |head|] == text[s.start..s.end][..|head|];
  }

  /** One span for each cut and each proper prefix that `EndsCut` allows there, and no other. */
  method CutPrefixes(text: string, needle: string, cuts: seq<Cut>) returns (spans: seq<Span>)
    requires forall c :: c in cuts ==> c.start <= c.end <= |text|
    requires forall i, j :: 0 <= i < j < |cuts| ==> cuts[i].end != cuts[j].end
    ensures forall s :: s in spans <==> exists c :: c in cuts && EndsCut(text, needle, c, s)
    ensures Distinct(spans)
  {
    spans := [];
    for k := 0 to |cuts|
      invariant forall s :: s in spans <==> exists j :: 0 <= j < k && EndsCut(text, needle, cuts[j], s)
      invariant Distinct(spans)
    {
      var more := PrefixesAt(text, needle, cuts[k]);
      ghost var before := spans;
      spans := spans + more;
      forall i, j | 0 <= i < j < |spans|
        ensures spans[i] != spans[j]
      {
        if i < |before| && |before| <= j {
          assert spans[i] in before && spans[j] in more;
        }
      }
    }
    forall s
      ensures s in spans <==> exists c :: c in cuts && EndsCut(text, needle, c, s)
    {
      if c :| c in cuts && EndsCut(text, needle, c, s) {
        var j :| 0 <= j < |cuts| && cuts[j] == c;
      }
    }
  }
}
