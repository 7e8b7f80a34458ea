/** Splitting a line of a hosts file into an address, or an alias target, and names
    (resolver/hostfile_source.go, util/strings.go). */
module HostLines {
  import opened Text

  datatype Line = Line(address: string, names: seq<string>)

  // ---- comments ----

  predicate StartsWithSlashes(s: string) {
    |s| >= 2 && s[0] == '/' && s[1] == '/'
  }

  /** Position of the first double slash, or the length. */
  function SlashesAt(s: string): (i: nat)
    ensures i <= |s|
  {
    if s == "" || StartsWithSlashes(s) then 0 else 1 + SlashesAt(s[1..])
  }

  /** TrimComments: what stands before the first comment sign. */
  function Uncommented(s: string): (r: string) {
    var s1 := if '#' in s then s[..IndexOf(s, '#')] else s;
    s1[..SlashesAt(s1)]
  }

  // ---- blanks ----

  /** Tabs and commas count as blanks. */
  function Blanked(s: string): (r: string)
    ensures |r| == |s|
  {
    if s == "" then "" else [if s[0] == '\t' || s[0] == ',' then ' ' else s[0]] + Blanked(s[1..])
  }

  predicate TwoBlanks(s: string) {
    |s| >= 2 && s[0] == ' ' && s[1] == ' '
  }

  /** One pass of replacing two blanks by one. */
  function Halved(s: string): (r: string)
    ensures |r| <= |s| && (r == "" <==> s == "") && (s != "" ==> r[0] == s[0])
    decreases |s|
  {
    if s == "" then "" else if TwoBlanks(s) then " " + Halved(s[2..]) else [s[0]] + Halved(s[1..])
  }

  /** Every run of blanks becomes one blank. */
  function Squeezed(s: string): (r: string)
    ensures |r| <= |s| && (r == "" <==> s == "")
  {
    if s == "" then "" else if TwoBlanks(s) then Squeezed(s[1..]) else [s[0]] + Squeezed(s[1..])
  }

  lemma {:induction false} HalvingSqueezes(s: string)
    ensures Squeezed(Halved(s)) == Squeezed(s)
    decreases |s|
  {
    if TwoBlanks(s) {
      HalvingSqueezes(s[2..]);
      assert Halved(s)[1..] == Halved(s[2..]);
      assert s[1..][1..] == s[2..];
      assert TwoBlanks(Halved(s)) <==> TwoBlanks(s[1..]);
    } else if s != "" {
      HalvingSqueezes(s[1..]);
      assert Halved(s)[1..] == Halved(s[1..]);
      assert !TwoBlanks(Halved(s));
    }
  }

  lemma {:induction false} HalvedInHalf(s: string)
    requires |Halved(s)| == |s|
    ensures Halved(s) == s && Squeezed(s) == s
    decreases |s|
  {
    if s != "" {
      assert !TwoBlanks(s);
      HalvedInHalf(s[1..]);
    }
  }

  /** The loop that removes adjacent blanks. */
  method Squeeze(text: string) returns (d: string)
    ensures d == Squeezed(text)
  {
    d := text;
    var newstring := "";
    while newstring != d
      invariant Squeezed(d) == Squeezed(text)
      invariant newstring != d ==> newstring == "" || |d| < |newstring|
      invariant newstring == d ==> Squeezed(d) == d
      decreases |d|, if newstring == d then 0 else 1
    {
      newstring := d;
      HalvingSqueezes(d);
      d := Halved(d);
      if |d| == |newstring| { HalvedInHalf(newstring); }
    }
  }

  // ---- a line ----

  /** The text of a line as it is split. */
  function Conditioned(d: string): (r: string) {
    Squeezed(Blanked(Uncommented(Lower(Trim(d)))))
  }

  predicate Skipped(text: string) {
    text == "" || text[0] == '*'
  }

  /** None for lines that say nothing. */
  function LineOf(d: string): (r: Option<Line>) {
    var text := Conditioned(d);
    if Skipped(Uncommented(Lower(Trim(d)))) || ' ' !in text then None
    else
      var i := IndexOf(text, ' ');
      Some(Line(Trim(text[..i]), Split(text[i + 1..], ' ')))
  }

  method ReadLine(d: string) returns (r: Option<Line>)
    ensures r == LineOf(d)
  {
    var text := Uncommented(Lower(Trim(d)));
    if "" == text || text[0] == '*' {
      return None;
    }
    text := Squeeze(Blanked(text));
    if ' ' !in text {
      return None;
    }
    var i := IndexOf(text, ' ');
    return Some(Line(Trim(text[..i]), Split(text[i + 1..], ' ')));
  }

  function LinesOf(data: seq<string>): (r: seq<Line>) {
    if data == [] then []
    else
      var last := LineOf(data[|data| - 1]);
      LinesOf(data[..|data| - 1]) + if last.Some? then [last.value] else []
  }

  // ---- reading back ----

  /** A field that survives conditioning: not empty, lower case, no blanks and no comment signs. */
  predicate Clean(field: string) {
    && field != "" && IsLower(field) && NoSpace(field)
    && forall i :: 0 <= i < |field| ==> field[i] != ',' && field[i] != '#' && field[i] != '/'
  }

  ghost predicate CleanFields(fields: seq<string>) {
    forall i :: 0 <= i < |fields| ==> Clean(fields[i])
  }

  /** Text of clean fields and single blanks. */
  predicate CleanText(s: string) {
    && IsLower(s)
    && (forall i :: 0 <= i < |s| ==> CleanChar(s[i]))
    && (forall i :: 0 <= i < |s| - 1 ==> !(s[i] == ' ' && s[i + 1] == ' '))
  }

  /** Characters that conditioning leaves alone. */
  predicate CleanChar(c: char) {
    c != ',' && c != '#' && c != '/' && (IsSpace(c) ==> c == ' ')
  }

  lemma ConcatIsClean(first: string, rest: string)
    requires Clean(first) && rest != "" && CleanText(rest) && !IsSpace(rest[0])
    ensures CleanText(first + [' '] + rest)
  {
    var s := first + [' '] + rest;
    LowerConcat(first + [' '], rest);
    LowerConcat(first, [' ']);
    forall i | 0 <= i < |s| ensures CleanChar(s[i]) {
      if i < |first| { assert s[i] == first[i]; } else if i > |first| { assert s[i] == rest[i - |first| - 1]; }
    }
    forall i | 0 <= i < |s| - 1 ensures !(s[i] == ' ' && s[i + 1] == ' ') {
      if i < |first| { assert s[i] == first[i]; } else { assert s[i + 1] == rest[i - |first|]; }
      if i > |first| { assert s[i] == rest[i - |first| - 1]; }
    }
  }

  lemma {:induction false} JoinIsClean(fields: seq<string>)
    requires fields != [] && CleanFields(fields)
    ensures var s := Join(fields, ' '); s != "" && CleanText(s) && !IsSpace(s[0]) && !IsSpace(s[|s| - 1]) && s[0] == fields[0][0]
    decreases |fields|
  {
    var first := fields[0];
    assert Clean(first);
    if |fields| > 1 {
      JoinIsClean(fields[1..]);
      ConcatIsClean(first, Join(fields[1..], ' '));
    }
  }

  lemma {:induction false} CleanIsConditioned(s: string)
    requires CleanText(s)
    ensures SlashesAt(s) == |s| && Blanked(s) == s && Squeezed(s) == s
    decreases |s|
  {
    if s != "" {
      assert Lower(s)[1..] == Lower(s[1..]);
      assert CleanText(s[1..]);
      CleanIsConditioned(s[1..]);
      assert s == [s[0]] + s[1..];
    }
  }

  lemma {:induction false} TrimKeepsEnds(s: string)
    requires s != "" && !IsSpace(s[0]) && !IsSpace(s[|s| - 1])
    ensures Trim(s) == s
  {
  }

  lemma CleanTextStays(s: string)
    requires s != "" && CleanText(s) && !IsSpace(s[0]) && !IsSpace(s[|s| - 1])
    ensures Uncommented(Lower(Trim(s))) == s && Conditioned(s) == s
  {
    TrimKeepsEnds(s);
    CleanIsConditioned(s);
    assert '#' !in s && s[..|s|] == s;
  }

  lemma FirstBlank(first: string, rest: string)
    requires ' ' !in first
    ensures var s := first + [' '] + rest;
            ' ' in s && s[..IndexOf(s, ' ')] == first && s[IndexOf(s, ' ') + 1..] == rest
  {
    var s := first + [' '] + rest;
    assert s[|first|] == ' ';
    var i := IndexOf(s, ' ');
    FirstField(s[..i], s[i + 1..], first, rest, ' ');
  }

  /** An address or target and its names, written with single blanks, are read back as they are. */
  lemma CleanLinesReadBack(address: string, names: seq<string>)
    requires Clean(address) && address[0] != '*' && names != [] && CleanFields(names)
    ensures LineOf(Join([address] + names, ' ')) == Some(Line(address, names))
  {
    var fields := [address] + names;
    assert fields[1..] == names && fields[0] == address;
    JoinIsClean(fields);
    CleanTextStays(Join(fields, ' '));
    FirstBlank(address, Join(names, ' '));
    TrimNothing(address);
    SplitJoin(names, ' ');
  }

  // ---- empty names ----

  lemma {:induction false} SqueezedHasNoTwoBlanks(s: string, i: nat)
    requires i + 1 < |Squeezed(s)|
    ensures !(Squeezed(s)[i] == ' ' && Squeezed(s)[i + 1] == ' ')
    decreases |s|
  {
    if TwoBlanks(s) {
      SqueezedHasNoTwoBlanks(s[1..], i);
    } else if i > 0 {
      SqueezedHasNoTwoBlanks(s[1..], i - 1);
    } else {
      SqueezedHead(s[1..]);
    }
  }

  lemma {:induction false} SqueezedHead(s: string)
    requires s != ""
    ensures Squeezed(s) != "" && Squeezed(s)[0] == s[0]
    decreases |s|
  {
    if TwoBlanks(s) { SqueezedHead(s[1..]); }
  }

  predicate SingleBlanks(s: string) {
    forall i :: 0 <= i < |s| - 1 ==> !(s[i] == ' ' && s[i + 1] == ' ')
  }

  lemma TailHasSingleBlanks(s: string, i: nat)
    requires SingleBlanks(s) && i < |s| && s[i] == ' '
    ensures SingleBlanks(s[i + 1..]) && (i + 1 < |s| ==> s[i + 1] != ' ')
  {
    var rest := s[i + 1..];
    forall k | 0 <= k < |rest| - 1 ensures !(rest[k] == ' ' && rest[k + 1] == ' ') {
      assert rest[k] == s[i + 1 + k] && rest[k + 1] == s[i + 2 + k];
    }
  }

  lemma {:induction false} EmptyPieceIff(s: string)
    requires SingleBlanks(s) && (s != "" ==> s[0] != ' ')
    ensures "" in Split(s, ' ') <==> s == "" || s[|s| - 1] == ' '
    decreases |s|
  {
    if ' ' in s {
      var i := IndexOf(s, ' ');
      TailHasSingleBlanks(s, i);
      EmptyPieceIff(s[i + 1..]);
    }
  }

  lemma ConditionedHasSingleBlanks(d: string)
    ensures SingleBlanks(Conditioned(d))
  {
    var blanked := Blanked(Uncommented(Lower(Trim(d))));
    forall k | 0 <= k < |Squeezed(blanked)| - 1 ensures !(Squeezed(blanked)[k] == ' ' && Squeezed(blanked)[k + 1] == ' ') {
      SqueezedHasNoTwoBlanks(blanked, k);
    }
  }

  /** A line gives an empty name, which later stands for the root domain, exactly when a blank, tab or comma
      stands before its comment or at its end. */
  lemma EmptyNameIff(d: string)
    requires LineOf(d).Some?
    ensures "" in LineOf(d).value.names <==> Conditioned(d)[|Conditioned(d)| - 1] == ' '
  {
    var text := Conditioned(d);
    ConditionedHasSingleBlanks(d);
    var i := IndexOf(text, ' ');
    TailHasSingleBlanks(text, i);
    EmptyPieceIff(text[i + 1..]);
  }

  lemma {:induction false} TrimRightKeeps(x: string, c: char, rest: string)
    requires !IsSpace(c)
    ensures TrimRight(x + [c] + rest) == x + [c] + TrimRight(rest)
    decreases |rest|
  {
    var s := x + [c] + rest;
    if rest != "" {
      assert s[|s| - 1] == rest[|rest| - 1] && s[..|s| - 1] == x + [c] + rest[..|rest| - 1];
      if IsSpace(rest[|rest| - 1]) { TrimRightKeeps(x, c, rest[..|rest| - 1]); }
    }
  }

  /** Clean text, a blank and a comment: the blank stays and the comment goes. */
  lemma CommentIsCut(s: string, comment: string)
    requires s != "" && CleanText(s) && !IsSpace(s[0])
    ensures Uncommented(Lower(Trim(s + " " + ['#'] + comment))) == (s + " ")[..SlashesAt(s + " ")]
  {
    var text := s + " " + ['#'] + comment;
    assert text[0] == s[0];
    TrimRightKeeps(s + " ", '#', comment);
    var rest := Lower(TrimRight(comment));
    LowerConcat(s + " " + ['#'], TrimRight(comment));
    LowerConcat(s + " ", ['#']);
    LowerConcat(s, " ");
    assert Lower(Trim(text)) == s + " " + ['#'] + rest;
    assert '#' !in s + " ";
    FirstSign(s + " ", rest);
  }

  lemma FirstSign(a: string, rest: string)
    requires '#' !in a
    ensures '#' in a + ['#'] + rest && (a + ['#'] + rest)[..IndexOf(a + ['#'] + rest, '#')] == a
  {
    var t := a + ['#'] + rest;
    assert t[|a|] == '#';
    var i := IndexOf(t, '#');
    FirstField(t[..i], t[i + 1..], a, rest, '#');
  }

  lemma BlankAtEndIsClean(s: string)
    requires s != "" && CleanText(s) && !IsSpace(s[|s| - 1])
    ensures CleanText(s + " ")
  {
    LowerConcat(s, " ");
  }

  lemma CommentedText(s: string, comment: string)
    requires s != "" && CleanText(s) && !IsSpace(s[0]) && !IsSpace(s[|s| - 1])
    ensures var d := s + " " + ['#'] + comment; Uncommented(Lower(Trim(d))) == s + " " && Conditioned(d) == s + " "
  {
    BlankAtEndIsClean(s);
    CleanIsConditioned(s + " ");
    CommentIsCut(s, comment);
    assert (s + " ")[..|s + " "|] == s + " ";
  }

  lemma BlankAfterNames(names: seq<string>)
    requires names != [] && CleanFields(names)
    ensures Split(Join(names, ' ') + " ", ' ') == names + [""]
  {
    JoinConcat(names, [""], ' ');
    assert Join(names + [""], ' ') == Join(names, ' ') + " ";
    assert FreeOf(names + [""], ' ') by {
      forall i | 0 <= i < |names + [""]| ensures ' ' !in (names + [""])[i] {
        if i < |names| { assert Clean(names[i]); }
      }
    }
    SplitJoin(names + [""], ' ');
  }

  /** A comment after a blank: the names are followed by an empty one. */
  lemma CommentLeavesAnEmptyName(address: string, names: seq<string>, comment: string)
    requires Clean(address) && address[0] != '*' && names != [] && CleanFields(names)
    ensures LineOf(Join([address] + names, ' ') + " " + ['#'] + comment) == Some(Line(address, names + [""]))
  {
    var fields := [address] + names;
    var s := Join(fields, ' ');
    assert fields[1..] == names && fields[0] == address;
    JoinIsClean(fields);
    CommentedText(s, comment);
    assert s + " " == address + [' '] + (Join(names, ' ') + " ");
    FirstBlank(address, Join(names, ' ') + " ");
    TrimNothing(address);
    BlankAfterNames(names);
  }

  // ---- what does not matter ----

  /** Blanks, tabs and commas, at least one. */
  predicate Separator(s: string) {
    s != "" && forall i :: 0 <= i < |s| ==> s[i] == ' ' || s[i] == '\t' || s[i] == ','
  }

  predicate Blanks(s: string) {
    forall i :: 0 <= i < |s| ==> s[i] == ' '
  }

  ghost predicate Separators(seps: seq<string>) {
    forall i :: 0 <= i < |seps| ==> Separator(seps[i])
  }

  /** Fields with separators between neighbours. */
  function Spaced(fields: seq<string>, seps: seq<string>): (r: string)
    requires |fields| == |seps| + 1
  {
    if seps == [] then fields[0] else fields[0] + seps[0] + Spaced(fields[1..], seps[1..])
  }

  lemma {:induction false} BlankedConcat(a: string, b: string)
    ensures Blanked(a + b) == Blanked(a) + Blanked(b)
    decreases |a|
  {
    if a == "" {
      assert a + b == b;
    } else {
      assert (a + b)[1..] == a[1..] + b;
      BlankedConcat(a[1..], b);
    }
  }

  lemma {:induction false} BlankedSeparator(s: string)
    requires Separator(s)
    ensures Blanked(s) != "" && Blanks(Blanked(s))
    decreases |s|
  {
    if |s| > 1 {
      assert Separator(s[1..]);
      BlankedSeparator(s[1..]);
    } else {
      assert Blanked(s[1..]) == "";
    }
  }

  lemma {:induction false} BlanksSqueeze(blanks: string, rest: string)
    requires blanks != "" && Blanks(blanks) && (rest != "" ==> rest[0] != ' ')
    ensures Squeezed(blanks + rest) == " " + Squeezed(rest)
    decreases |blanks|
  {
    var s := blanks + rest;
    assert s[1..] == blanks[1..] + rest && s[0] == ' ';
    if |blanks| > 1 {
      assert s[1] == blanks[1];
      BlanksSqueeze(blanks[1..], rest);
    } else {
      assert s[1..] == rest;
      assert !TwoBlanks(s);
    }
  }

  lemma {:induction false} FieldStays(field: string, rest: string)
    requires NoSpace(field)
    ensures Squeezed(field + rest) == field + Squeezed(rest)
    decreases |field|
  {
    if field == "" {
      assert field + rest == rest;
    } else {
      var s := field + rest;
      assert s[0] == field[0] && s[1..] == field[1..] + rest;
      FieldStays(field[1..], rest);
      assert Squeezed(s) == [field[0]] + (field[1..] + Squeezed(rest));
    }
  }

  lemma CleanFieldIsBlanked(field: string)
    requires Clean(field)
    ensures Blanked(field) == field
  {
    assert CleanText(field);
    CleanIsConditioned(field);
  }

  lemma SeparatorIsBlanked(field: string, sep: string, rest: string)
    requires Clean(field)
    ensures Blanked(field + sep + rest) == field + Blanked(sep) + Blanked(rest)
  {
    CleanFieldIsBlanked(field);
    BlankedConcat(field + sep, rest);
    BlankedConcat(field, sep);
  }

  lemma RunIsSqueezed(field: string, blanks: string, text: string)
    requires NoSpace(field) && blanks != "" && Blanks(blanks) && (text != "" ==> text[0] != ' ')
    ensures Squeezed(field + blanks + text) == field + " " + Squeezed(text)
  {
    assert field + blanks + text == field + (blanks + text);
    FieldStays(field, blanks + text);
    BlanksSqueeze(blanks, text);
    assert field + (" " + Squeezed(text)) == field + " " + Squeezed(text);
  }

  lemma FieldAndSeparator(field: string, sep: string, rest: string)
    requires Clean(field) && Separator(sep) && rest != "" && !IsSpace(rest[0]) && rest[0] != ','
    ensures Squeezed(Blanked(field + sep + rest)) == field + " " + Squeezed(Blanked(rest))
  {
    SeparatorIsBlanked(field, sep, rest);
    BlankedSeparator(sep);
    var text := Blanked(rest);
    assert text != "" && text[0] == rest[0];
    RunIsSqueezed(field, Blanked(sep), text);
  }

  lemma {:induction false} SpacedSqueezes(fields: seq<string>, seps: seq<string>)
    requires |fields| == |seps| + 1 && CleanFields(fields) && Separators(seps)
    ensures Squeezed(Blanked(Spaced(fields, seps))) == Join(fields, ' ')
    decreases |seps|
  {
    var first := fields[0];
    assert Clean(first);
    if seps == [] {
      CleanFieldIsBlanked(first);
      FieldStays(first, "");
      assert first + "" == first;
    } else {
      assert CleanFields(fields[1..]) && Separators(seps[1..]) && Separator(seps[0]) && Clean(fields[1]);
      SpacedSqueezes(fields[1..], seps[1..]);
      SpacedHead(fields[1..], seps[1..]);
      FieldAndSeparator(first, seps[0], Spaced(fields[1..], seps[1..]));
    }
  }

  lemma SpacedHead(fields: seq<string>, seps: seq<string>)
    requires |fields| == |seps| + 1 && fields[0] != ""
    ensures Spaced(fields, seps) != "" && Spaced(fields, seps)[0] == fields[0][0]
  {
  }

  /** Text that comments and case folding leave alone. */
  predicate Uncut(s: string) {
    IsLower(s) && '#' !in s && '/' !in s
  }

  lemma {:induction false} NoSlashes(s: string)
    requires '/' !in s
    ensures SlashesAt(s) == |s|
    decreases |s|
  {
    if s != "" { NoSlashes(s[1..]); }
  }

  lemma UncutConcat(a: string, b: string)
    requires Uncut(a) && Uncut(b)
    ensures Uncut(a + b)
  {
    LowerConcat(a, b);
  }

  lemma {:induction false} SpacedIsUncut(fields: seq<string>, seps: seq<string>)
    requires |fields| == |seps| + 1 && CleanFields(fields) && Separators(seps)
    ensures var s := Spaced(fields, seps);
            Uncut(s) && s != "" && s[0] == fields[0][0] && !IsSpace(s[0]) && !IsSpace(s[|s| - 1])
    decreases |seps|
  {
    assert Clean(fields[0]) && Uncut(fields[0]);
    if seps != [] {
      SpacedIsUncut(fields[1..], seps[1..]);
      assert Separator(seps[0]);
      assert IsLower(seps[0]) by { assert forall i :: 0 <= i < |seps[0]| ==> LowerChar(seps[0][i]) == seps[0][i]; }
      UncutConcat(fields[0], seps[0]);
      UncutConcat(fields[0] + seps[0], Spaced(fields[1..], seps[1..]));
    }
  }

  lemma {:induction false} PaddingIsTrimmed(lead: string, s: string, tail: string)
    requires AllSpace(lead) && AllSpace(tail) && s != "" && !IsSpace(s[0]) && !IsSpace(s[|s| - 1])
    ensures Trim(lead + s + tail) == s
    decreases |lead|
  {
    if lead == "" {
      assert lead + s + tail == s + tail;
      TailIsTrimmed(s, tail);
    } else {
      assert (lead + s + tail)[1..] == lead[1..] + s + tail;
      PaddingIsTrimmed(lead[1..], s, tail);
    }
  }

  lemma {:induction false} TailIsTrimmed(s: string, tail: string)
    requires AllSpace(tail) && s != "" && !IsSpace(s[|s| - 1])
    ensures TrimRight(s + tail) == s
    decreases |tail|
  {
    if tail == "" {
      assert s + tail == s;
    } else {
      assert (s + tail)[..|s + tail| - 1] == s + tail[..|tail| - 1];
      TailIsTrimmed(s, tail[..|tail| - 1]);
    }
  }

  lemma SpacedIsConditioned(lead: string, fields: seq<string>, seps: seq<string>, tail: string)
    requires |fields| == |seps| + 1 && CleanFields(fields) && Separators(seps) && AllSpace(lead) && AllSpace(tail)
    ensures var d, s := lead + Spaced(fields, seps) + tail, Spaced(fields, seps);
            Uncommented(Lower(Trim(d))) == s && Conditioned(d) == Join(fields, ' ')
  {
    var s := Spaced(fields, seps);
    SpacedIsUncut(fields, seps);
    PaddingIsTrimmed(lead, s, tail);
    NoSlashes(s);
    assert s[..|s|] == s;
    SpacedSqueezes(fields, seps);
  }

  /** An address or target and its names are read back however they are separated and padded. */
  lemma SeparatorsDoNotMatter(lead: string, address: string, names: seq<string>, seps: seq<string>, tail: string)
    requires Clean(address) && address[0] != '*' && names != [] && CleanFields(names)
    requires |seps| == |names| && Separators(seps) && AllSpace(lead) && AllSpace(tail)
    ensures LineOf(lead + Spaced([address] + names, seps) + tail) == Some(Line(address, names))
  {
    var fields := [address] + names;
    assert fields[1..] == names && fields[0] == address;
    assert CleanFields(fields);
    SpacedIsConditioned(lead, fields, seps, tail);
    SpacedIsUncut(fields, seps);
    FirstBlank(address, Join(names, ' '));
    TrimNothing(address);
    SplitJoin(names, ' ');
  }

  lemma CaseDoesNotMatter(d: string)
    ensures LineOf(d) == LineOf(Lower(d))
  {
    TrimLower(d);
    LowerTwice(Trim(d));
  }

  /** Lines that start with a star, or with a comment sign, or hold nothing, say nothing. */
  lemma SkippedLines(d: string)
    requires Trim(d) == "" || Trim(d)[0] == '*' || Trim(d)[0] == '#' || StartsWithSlashes(Trim(d))
    ensures LineOf(d).None?
  {
    var s := Lower(Trim(d));
    if s != "" && s[0] == '*' && '#' in s { assert IndexOf(s, '#') > 0; }
    var s1 := if '#' in s then s[..IndexOf(s, '#')] else s;
    if s != "" && s[0] == '#' { assert s1 == ""; }
  }

  // ---- comment signs ----

  lemma {:induction false} TrimLeftKeeps(s: string, rest: string)
    requires rest != "" && !IsSpace(rest[0])
    ensures TrimLeft(s + rest) == TrimLeft(s) + rest
    decreases |s|
  {
    if s == "" {
      assert s + rest == rest;
    } else if IsSpace(s[0]) {
      assert (s + rest)[1..] == s[1..] + rest;
      TrimLeftKeeps(s[1..], rest);
    }
  }

  lemma TrimBeforeHash(s: string, comment: string)
    ensures Trim(s + ['#'] + comment) == TrimLeft(s) + ['#'] + TrimRight(comment)
  {
    assert s + ['#'] + comment == s + (['#'] + comment);
    TrimLeftKeeps(s, ['#'] + comment);
    assert TrimLeft(s) + (['#'] + comment) == TrimLeft(s) + ['#'] + comment;
    TrimRightKeeps(TrimLeft(s), '#', comment);
  }

  lemma SlashBySlash(left: string, rest: string)
    ensures left + ("//" + rest) == (left + "/") + ['/'] + rest == left + "//" + rest
  {
  }

  lemma TrimBeforeSlashes(s: string, comment: string)
    ensures Trim(s + "//" + comment) == TrimLeft(s) + "//" + TrimRight(comment)
  {
    SlashBySlash(s, comment);
    TrimLeftKeeps(s, "//" + comment);
    SlashBySlash(TrimLeft(s), comment);
    TrimRightKeeps(TrimLeft(s) + "/", '/', comment);
    SlashBySlash(TrimLeft(s), TrimRight(comment));
  }

  lemma {:induction false} SlashesAfter(a: string, rest: string)
    requires '/' !in a
    ensures SlashesAt(a + "//" + rest) == |a|
    decreases |a|
  {
    var s := a + "//" + rest;
    if a == "" {
      assert s[0] == '/' && s[1] == '/';
    } else {
      assert s[0] == a[0] && s[1..] == a[1..] + "//" + rest;
      SlashesAfter(a[1..], rest);
    }
  }

  lemma SlashesCut(a: string, rest: string)
    requires '#' !in a && '/' !in a
    ensures Uncommented(a + "//" + rest) == a
  {
    var s := a + "//" + rest;
    if '#' in s {
      var i := IndexOf(s, '#');
      assert forall k :: 0 <= k < |a| + 2 ==> s[k] != '#';
      assert s[..i] == a + "//" + rest[..i - |a| - 2];
      SlashesAfter(a, rest[..i - |a| - 2]);
    } else {
      SlashesAfter(a, rest);
    }
  }

  lemma {:induction false} TrimLeftIsPart(s: string, c: char)
    requires c !in s && LowerChar(c) == c && !('a' <= c <= 'z')
    ensures c !in Lower(TrimLeft(s))
    decreases |s|
  {
    if s != "" && IsSpace(s[0]) { TrimLeftIsPart(s[1..], c); }
  }

  lemma HashCut(a: string, rest: string)
    requires '#' !in a && '/' !in a
    ensures Uncommented(a + ['#'] + rest) == a
  {
    FirstSign(a, rest);
    NoSlashes(a);
    assert a[..|a|] == a;
  }

  lemma HashText(s: string, comment: string)
    ensures Lower(Trim(s + ['#'] + comment)) == Lower(TrimLeft(s)) + ['#'] + Lower(TrimRight(comment))
  {
    TrimBeforeHash(s, comment);
    LowerConcat(TrimLeft(s) + ['#'], TrimRight(comment));
    LowerConcat(TrimLeft(s), ['#']);
  }

  lemma SlashText(s: string, comment: string)
    ensures Lower(Trim(s + "//" + comment)) == Lower(TrimLeft(s)) + "//" + Lower(TrimRight(comment))
  {
    TrimBeforeSlashes(s, comment);
    LowerConcat(TrimLeft(s) + "//", TrimRight(comment));
    LowerConcat(TrimLeft(s), "//");
  }

  lemma CommentsAreCut(s: string, comment: string)
    requires '#' !in s && '/' !in s
    ensures Uncommented(Lower(Trim(s + ['#'] + comment))) == Lower(TrimLeft(s)) == Uncommented(Lower(Trim(s + "//" + comment)))
  {
    var left, right := Lower(TrimLeft(s)), Lower(TrimRight(comment));
    TrimLeftIsPart(s, '#');
    TrimLeftIsPart(s, '/');
    HashText(s, comment);
    SlashText(s, comment);
    HashCut(left, right);
    SlashesCut(left, right);
  }

  /** Either comment sign takes the rest of the line with it. */
  lemma EitherSignCuts(s: string, comment: string)
    requires '#' !in s && '/' !in s
    ensures LineOf(s + ['#'] + comment) == LineOf(s + "//" + comment) == LineOf(s + ['#'] + "")
  {
    CommentsAreCut(s, comment);
    CommentsAreCut(s, "");
  }
}
