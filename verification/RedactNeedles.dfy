/** What a redactor looks for: `Redactor.__init__` and `_matchable_lines` of
    `runs/redact.py`. */
module RedactNeedles {
  import opened JsonEscape

  const MIN_LINE_LENGTH := 4

  datatype Result<T> = Ok(value: T) | Err(error: string)

  datatype Secret = Secret(name: string, value: string)

  /** An entry of the table: what to look for and the secrets it belongs to. */
  datatype Needle = Needle(text: string, names: seq<string>)

  // ------------------------------------------------------------------ lines

  datatype Line = Line(start: nat, end: nat)

  /** Where `str.splitlines` breaks. */
  predicate Breaks(c: char) {
    var n := c as int;
    10 <= n <= 13 || 0x1c <= n <= 0x1e || n == 0x85 || n == 0x2028 || n == 0x2029
  }

  /** What `str.strip` removes. */
  predicate IsSpace(c: char) {
    var n := c as int;
    || 9 <= n <= 13 || 0x1c <= n <= 0x20 || n == 0x85 || n == 0xa0 || n == 0x1680 || 0x2000 <= n <= 0x200a
    || n == 0x2028 || n == 0x2029 || n == 0x202f || n == 0x205f || n == 0x3000
  }

  function LineEnd(s: string, at: nat): (end: nat)
    requires at <= |s|
    ensures at <= end <= |s| && (end < |s| ==> Breaks(s[end]))
    ensures forall i :: at <= i < end ==> !Breaks(s[i])
    decreases |s| - at
  {
    if at == |s| || Breaks(s[at]) then at else LineEnd(s, at + 1)
  }

  /** The start of the line after a break; a carriage return and newline are one break. */
  function AfterBreak(s: string, end: nat): nat
    requires end < |s|
  {
    if s[end] == '\r' && end + 1 < |s| && s[end + 1] == '\n' then end + 2 else end + 1
  }

  function Lines(s: string, at: nat): seq<Line>
    requires at <= |s|
    decreases |s| - at
  {
    if at == |s| then []
    else
      var end := LineEnd(s, at);
      [Line(at, end)] + if end == |s| then [] else Lines(s, AfterBreak(s, end))
  }

  predicate StartsLine(s: string, at: nat)
    requires at <= |s|
  {
    at == 0 || (Breaks(s[at - 1]) && !(s[at - 1] == '\r' && at < |s| && s[at] == '\n'))
  }

  /** A maximal stretch without a break; nothing after a last break is no line. */
  ghost predicate IsLine(s: string, line: Line) {
    && line.start <= line.end <= |s| && line.start < |s|
    && StartsLine(s, line.start)
    && (forall i :: line.start <= i < line.end ==> !Breaks(s[i]))
    && (line.end == |s| || Breaks(s[line.end]))
  }

  lemma {:induction false} NextLine(s: string, at: nat, end: nat, line: Line)
    requires at <= end <= |s| && (end < |s| ==> Breaks(s[end])) && forall i :: at <= i < end ==> !Breaks(s[i])
    ensures end < |s| ==> StartsLine(s, AfterBreak(s, end))
    ensures IsLine(s, line) && line.start > at ==> end < |s| && line.start >= AfterBreak(s, end)
    ensures IsLine(s, line) && line.start == at ==> line.end == end
  {
    hide Breaks;
    Newlines();
    if IsLine(s, line) && at < line.start {
      var i := line.start - 1;
      assert Breaks(s[i]);
      assert i >= end;
    }
  }

  lemma {:induction false} Newlines()
    ensures Breaks('\r') && Breaks('\n')
  {
  }

  lemma {:induction false} LinesAreLines(s: string, at: nat, line: Line)
    requires at <= |s| && StartsLine(s, at)
    ensures line in Lines(s, at) <==> line.start >= at && IsLine(s, line)
    decreases |s| - at
  {
    hide Breaks, StartsLine;
    if at < |s| {
      var end := LineEnd(s, at);
      NextLine(s, at, end, line);
      if end < |s| {
        LinesAreLines(s, AfterBreak(s, end), line);
      }
    }
  }

  /** `str.strip`. */
  function Strip(s: string): string
    decreases |s|
  {
    if s == "" then s
    else if IsSpace(s[0]) then Strip(s[1..])
    else if IsSpace(s[|s| - 1]) then Strip(s[..|s| - 1])
    else s
  }

  /** `t` is what stays of `s` when all the white space at its two ends goes. */
  ghost predicate IsStripped(s: string, t: string, i: nat, j: nat) {
    && i <= j <= |s| && t == s[i..j]
    && (forall k :: 0 <= k < i || j <= k < |s| ==> IsSpace(s[k]))
    && (t != "" ==> !IsSpace(t[0]) && !IsSpace(t[|t| - 1]))
  }

  lemma {:induction false} StripIsStripped(s: string) returns (i: nat, j: nat)
    ensures IsStripped(s, Strip(s), i, j)
    decreases |s|
  {
    if s == "" {
      return 0, 0;
    } else if IsSpace(s[0]) {
      i, j := StripIsStripped(s[1..]);
      assert forall k :: 0 < k < |s| ==> s[k] == s[1..][k - 1];
      return i + 1, j + 1;
    } else if IsSpace(s[|s| - 1]) {
      i, j := StripIsStripped(s[..|s| - 1]);
      assert forall k :: 0 <= k < |s| - 1 ==> s[k] == s[..|s| - 1][k];
    } else {
      return 0, |s|;
    }
  }

  function Stripped(s: string, lines: seq<Line>): seq<string>
    requires forall line :: line in lines ==> line.start <= line.end <= |s|
  {
    if lines == [] then []
    else
      var text := Strip(s[lines[0].start..lines[0].end]);
      (if |text| >= MIN_LINE_LENGTH then [text] else []) + Stripped(s, lines[1..])
  }

  /** The lines of a value of several lines that are long enough to match. */
  function MatchableLines(value: string): seq<string> {
    var lines := Lines(value, 0);
    if |lines| < 2 then []
    else
      assert forall line :: line in lines ==> line.start <= line.end <= |value| by {
        forall line | line in lines
          ensures line.start <= line.end <= |value|
        {
          LinesAreLines(value, 0, line);
        }
      }
      Stripped(value, lines)
  }

  lemma {:induction false} StrippedHas(s: string, lines: seq<Line>, text: string)
    requires forall line :: line in lines ==> line.start <= line.end <= |s|
    ensures text in Stripped(s, lines) <==>
            |text| >= MIN_LINE_LENGTH && exists line :: line in lines && text == Strip(s[line.start..line.end])
    decreases |lines|
  {
    if lines != [] {
      StrippedHas(s, lines[1..], text);
      assert lines == [lines[0]] + lines[1..];
    }
  }

  /** The extra parts are exactly the stripped lines of a value of two lines or more that
      are long enough. */
  lemma {:induction false} MatchableIsLongLine(value: string, text: string)
    ensures text in MatchableLines(value) <==>
            && |text| >= MIN_LINE_LENGTH
            && (exists a, b :: a != b && IsLine(value, a) && IsLine(value, b))
            && (exists line :: IsLine(value, line) && text == Strip(value[line.start..line.end]))
  {
    var lines := Lines(value, 0);
    forall line: Line
      ensures line in lines <==> IsLine(value, line)
    {
      LinesAreLines(value, 0, line);
    }
    if |lines| >= 2 {
      TwoLines(value, 0);
      assert lines[0] in lines && lines[1] in lines;
      StrippedHas(value, lines, text);
    } else if a, b :| a != b && IsLine(value, a) && IsLine(value, b) {
      assert a in lines && b in lines;
    }
  }

  lemma {:induction false} TwoLines(s: string, at: nat)
    requires at <= |s| && |Lines(s, at)| >= 2
    ensures Lines(s, at)[0] != Lines(s, at)[1]
  {
  }

  // ---------------------------------------------------------------- needles

  function Parts(value: string): seq<string> {
    [value] + MatchableLines(value)
  }

  /** What one part is looked for as: itself and its two JSON forms. */
  function Forms(part: string): seq<string> {
    [part, Escape(part, false), Escape(part, true)]
  }

  /** `setdefault(needle, [])`, then the name unless it is there. */
  function AddName(table: seq<Needle>, needle: string, name: string): seq<Needle> {
    if table == [] then [Needle(needle, [name])]
    else if table[0].text == needle then
      [Needle(needle, if name in table[0].names then table[0].names else table[0].names + [name])] + table[1..]
    else [table[0]] + AddName(table[1..], needle, name)
  }

  function AddForms(table: seq<Needle>, needles: seq<string>, name: string): seq<Needle>
    decreases |needles|
  {
    if needles == [] then table
    else AddName(AddForms(table, needles[..|needles| - 1], name), needles[|needles| - 1], name)
  }

  function AddParts(table: seq<Needle>, parts: seq<string>, name: string): seq<Needle>
    decreases |parts|
  {
    if parts == [] then table
    else AddForms(AddParts(table, parts[..|parts| - 1], name), Forms(parts[|parts| - 1]), name)
  }

  function TableOf(secrets: seq<Secret>): seq<Needle> {
    if secrets == [] then []
    else
      var last := secrets[|secrets| - 1];
      AddParts(TableOf(secrets[..|secrets| - 1]), Parts(last.value), last.name)
  }

  /** The table built from the secrets, or the name of the first with an empty value. */
  method Build(secrets: seq<Secret>) returns (r: Result<seq<Needle>>)
    ensures r.Ok? <==> forall i :: 0 <= i < |secrets| ==> secrets[i].value != ""
    ensures r.Ok? ==> r.value == TableOf(secrets)
    ensures r.Err? ==> exists i :: 0 <= i < |secrets| && r.error == secrets[i].name && secrets[i].value == ""
                                   && forall j :: 0 <= j < i ==> secrets[j].value != ""
  {
    hide AddParts, Parts;
    var table: seq<Needle> := [];
    for i := 0 to |secrets|
      invariant table == TableOf(secrets[..i])
      invariant forall j :: 0 <= j < i ==> secrets[j].value != ""
    {
      if secrets[i].value == "" {
        return Err(secrets[i].name);
      }
      table := BuildParts(table, secrets[i]);
      assert secrets[..i + 1][..i] == secrets[..i];
    }
    assert secrets[..|secrets|] == secrets;
    return Ok(table);
  }

  method BuildParts(before: seq<Needle>, secret: Secret) returns (table: seq<Needle>)
    ensures table == AddParts(before, Parts(secret.value), secret.name)
  {
    hide AddForms, Forms;
    table := before;
    var parts := Parts(secret.value);
    for j := 0 to |parts|
      invariant table == AddParts(before, parts[..j], secret.name)
    {
      table := BuildForms(table, Forms(parts[j]), secret.name);
      assert parts[..j + 1][..j] == parts[..j];
    }
    assert parts[..|parts|] == parts;
  }

  method BuildForms(before: seq<Needle>, forms: seq<string>, name: string) returns (table: seq<Needle>)
    ensures table == AddForms(before, forms, name)
  {
    table := before;
    for k := 0 to |forms|
      invariant table == AddForms(before, forms[..k], name)
    {
      table := AddName(table, forms[k], name);
      assert forms[..k + 1][..k] == forms[..k];
    }
    assert forms[..|forms|] == forms;
  }

  // -------------------------------------------------------- what it contains

  /** A value, or one of its several lines that is long enough once it is stripped. */
  ghost predicate IsPart(value: string, part: string) {
    || part == value
    || (&& |part| >= MIN_LINE_LENGTH
        && (exists a, b :: a != b && IsLine(value, a) && IsLine(value, b))
        && (exists line :: IsLine(value, line) && part == Strip(value[line.start..line.end])))
  }

  /** What a value is to be looked for as: a part of it, or that written inside a JSON
      string, in ASCII or not. */
  ghost predicate IsFormOf(value: string, needle: string) {
    exists part :: IsPart(value, part) && (needle == part || needle == Escape(part, false) || needle == Escape(part, true))
  }

  lemma {:induction false} FormOfIff(value: string, needle: string)
    ensures IsFormOf(value, needle) <==> IsForm(needle, Parts(value))
  {
    hide Escape, MatchableLines, IsLine, Strip;
    forall part
      ensures part in Parts(value) <==> IsPart(value, part)
    {
      MatchableIsLongLine(value, part);
    }
    if part :| part in Parts(value) && needle in Forms(part) {
      assert IsPart(value, part);
    }
    if part :| IsPart(value, part) && (needle == part || needle == Escape(part, false) || needle == Escape(part, true)) {
      assert part in Parts(value) && needle in Forms(part);
    }
  }

  ghost predicate HasName(table: seq<Needle>, needle: string, name: string) {
    exists i :: 0 <= i < |table| && table[i].text == needle && name in table[i].names
  }

  /** The needles are distinct and each belongs to some secret. */
  ghost predicate TableOk(table: seq<Needle>) {
    && (forall i, j :: 0 <= i < j < |table| ==> table[i].text != table[j].text)
    && (forall i :: 0 <= i < |table| ==> table[i].names != [])
  }

  lemma {:induction false} AddNameTexts(table: seq<Needle>, needle: string, name: string)
    ensures forall n :: n in AddName(table, needle, name) ==> n.text == needle || exists m :: m in table && m.text == n.text
  {
    if table != [] && table[0].text != needle {
      AddNameTexts(table[1..], needle, name);
    }
  }

  lemma {:induction false} AddNameOk(table: seq<Needle>, needle: string, name: string)
    requires TableOk(table)
    ensures TableOk(AddName(table, needle, name))
  {
    if table != [] && table[0].text != needle {
      AddNameOk(table[1..], needle, name);
      AddNameTexts(table[1..], needle, name);
      var rest := AddName(table[1..], needle, name);
      forall j | 0 <= j < |rest|
        ensures rest[j].text != table[0].text
      {
        assert rest[j] in rest;
      }
    }
  }

  lemma {:induction false} AddNameHas(table: seq<Needle>, needle: string, name: string, n: string, x: string)
    requires TableOk(table)
    ensures HasName(AddName(table, needle, name), n, x) <==> HasName(table, n, x) || (n == needle && x == name)
  {
    var out := AddName(table, needle, name);
    if table == [] {
      assert out[0] == Needle(needle, [name]);
    } else if table[0].text == needle {
      assert forall i :: 1 <= i < |table| ==> out[i] == table[i];
      if HasName(table, n, x) {
        var i :| 0 <= i < |table| && table[i].text == n && x in table[i].names;
        assert out[i].text == n && x in out[i].names;
      }
      assert out[0].text == needle && name in out[0].names;
    } else {
      AddNameHas(table[1..], needle, name, n, x);
      HasCons(table[0], table[1..], n, x);
      HasCons(table[0], AddName(table[1..], needle, name), n, x);
      assert table == [table[0]] + table[1..];
    }
  }

  lemma {:induction false} HasCons(first: Needle, rest: seq<Needle>, n: string, x: string)
    ensures HasName([first] + rest, n, x) <==> HasName(rest, n, x) || (first.text == n && x in first.names)
  {
    var all := [first] + rest;
    if HasName(rest, n, x) {
      var i :| 0 <= i < |rest| && rest[i].text == n && x in rest[i].names;
      assert all[i + 1] == rest[i];
    }
    if first.text == n && x in first.names {
      assert all[0] == first;
    }
  }

  lemma {:induction false} AddFormsHas(table: seq<Needle>, needles: seq<string>, name: string, n: string, x: string)
    requires TableOk(table)
    ensures TableOk(AddForms(table, needles, name))
    ensures HasName(AddForms(table, needles, name), n, x) <==> HasName(table, n, x) || (x == name && n in needles)
    decreases |needles|
  {
    if needles != [] {
      var init, last := needles[..|needles| - 1], needles[|needles| - 1];
      AddFormsHas(table, init, name, n, x);
      AddNameOk(AddForms(table, init, name), last, name);
      AddNameHas(AddForms(table, init, name), last, name, n, x);
      assert needles == init + [last];
    }
  }

  /** The needle is a part of the value or one of its JSON forms. */
  ghost predicate IsForm(needle: string, parts: seq<string>) {
    exists part :: part in parts && needle in Forms(part)
  }

  lemma {:induction false} AddPartsHas(table: seq<Needle>, parts: seq<string>, name: string, n: string, x: string)
    requires TableOk(table)
    ensures TableOk(AddParts(table, parts, name))
    ensures HasName(AddParts(table, parts, name), n, x) <==> HasName(table, n, x) || (x == name && IsForm(n, parts))
    decreases |parts|
  {
    hide Forms;
    if parts != [] {
      var init, last := parts[..|parts| - 1], parts[|parts| - 1];
      AddPartsHas(table, init, name, n, x);
      AddFormsHas(AddParts(table, init, name), Forms(last), name, n, x);
      assert parts == init + [last];
    }
  }

  /** The table's needles, each once, are just the forms of the secrets' values and lines,
      and a needle names just the secrets it is a form of. */
  lemma {:induction false} TableIsForms(secrets: seq<Secret>, n: string, x: string)
    ensures TableOk(TableOf(secrets))
    ensures HasName(TableOf(secrets), n, x) <==>
            exists s :: s in secrets && s.name == x && IsFormOf(s.value, n)
  {
    hide AddParts, Parts, IsForm, HasName, IsFormOf;
    if secrets == [] {
      EmptyHas(n, x);
    } else {
      var init, last := secrets[..|secrets| - 1], secrets[|secrets| - 1];
      TableIsForms(init, n, x);
      AddPartsHas(TableOf(init), Parts(last.value), last.name, n, x);
      FormOfIff(last.value, n);
      assert secrets == init + [last];
    }
  }

  lemma {:induction false} EmptyHas(n: string, x: string)
    ensures !HasName([], n, x)
  {
  }

  lemma {:induction false} FormNotEmpty(value: string, needle: string)
    requires value != "" && IsFormOf(value, needle)
    ensures needle != ""
  {
    hide Escape;
    var part :| IsPart(value, part) && (needle == part || needle == Escape(part, false) || needle == Escape(part, true));
    EscapeGrows(part, false);
    EscapeGrows(part, true);
  }

  lemma {:induction false} NeedleNotEmpty(secrets: seq<Secret>, i: nat)
    requires forall k :: 0 <= k < |secrets| ==> secrets[k].value != ""
    requires i < |TableOf(secrets)|
    ensures TableOf(secrets)[i].text != "" && TableOf(secrets)[i].names != []
  {
    hide AddParts, Parts, IsForm, IsFormOf;
    var table := TableOf(secrets);
    var text := table[i].text;
    TableIsForms(secrets, text, "");
    var x := table[i].names[0];
    TableIsForms(secrets, text, x);
    assert HasName(table, text, x);
    var s :| s in secrets && s.name == x && IsFormOf(s.value, text);
    FormNotEmpty(s.value, text);
  }
}
