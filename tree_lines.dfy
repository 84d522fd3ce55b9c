/** The per-line stages of `parseTree` (src/features/models/charts/DecisionTree.tsx):
    splitting the export into lines, the depth of a line, stripping the marker
    prefix, and classifying what is left as a class leaf or a condition. */
module TreeLines {
  import opened JsText

  /** What one surviving line denotes: a condition, or a leaf carrying a class id. */
  datatype NodeLabel = ConditionLabel(text: string) | ClassLabel(classId: nat)

  // ---------------------------------------------------------------------------
  // Splitting the text into lines (DecisionTree.tsx:10-13)

  /** `treeText.trim().split("\n").filter((line) => line.trim() !== "")`. */
  function Lines(text: string): (r: seq<string>)
    ensures forall k :: 0 <= k < |r| ==> Trim(r[k]) != [] && '\n' !in r[k]
  {
    NonBlank(Split(Trim(text), '\n'))
  }

  /** The lines whose trimmed form is not empty, in their original order. */
  function NonBlank(ls: seq<string>): (r: seq<string>)
    ensures forall k :: 0 <= k < |r| ==> Trim(r[k]) != [] && r[k] in ls
  {
    if ls == [] then []
    else (if Trim(ls[0]) == [] then [] else [ls[0]]) + NonBlank(ls[1..])
  }

  /** The filter works piece by piece, so it keeps the lines' order and
      repeats. */
  lemma {:induction false} NonBlankAppend(a: seq<string>, b: seq<string>)
    ensures NonBlank(a + b) == NonBlank(a) + NonBlank(b)
  {
    if a == [] {
      assert a + b == b;
    } else {
      var head := if Trim(a[0]) == [] then [] else [a[0]];
      assert (a + b)[0] == a[0];
      assert (a + b)[1..] == a[1..] + b;
      NonBlankAppend(a[1..], b);
      AppendLists(NonBlank(a + b), NonBlank(a), head, NonBlank(a[1..]), NonBlank(b));
    }
  }

  /** One step of a list built front to back, with a tail appended. */
  lemma AppendLists(whole': seq<string>, whole: seq<string>, head: seq<string>, rest: seq<string>, tail: seq<string>)
    requires whole' == head + (rest + tail) && whole == head + rest
    ensures whole' == whole + tail
  {
  }

  /** Every line whose trimmed form is not empty is kept, in its place: after
      what is kept of the lines before it and before what is kept of the
      lines after it. */
  lemma NonBlankKeeps(ls: seq<string>, k: nat)
    requires k < |ls| && Trim(ls[k]) != []
    ensures NonBlank(ls) == NonBlank(ls[..k]) + [ls[k]] + NonBlank(ls[k + 1..])
  {
    var before, one, after := ls[..k], [ls[k]], ls[k + 1..];
    assert one[1..] == [];
    assert NonBlank(one) == one;
    SplitAround(ls, k);
    NonBlankAppend(one, after);
    NonBlankAppend(before, one + after);
    Regroup(NonBlank(ls), NonBlank(before), one, NonBlank(after));
  }

  /** A sequence is what comes before position k, the element at k, and what follows. */
  lemma SplitAround<T>(s: seq<T>, k: nat)
    requires k < |s|
    ensures s == s[..k] + ([s[k]] + s[k + 1..])
  {
  }

  lemma Regroup(whole: seq<string>, a: seq<string>, b: seq<string>, c: seq<string>)
    requires whole == a + (b + c)
    ensures whole == a + b + c
  {
  }

  lemma TrimStartsWithNonSpace(text: string)
    requires Trim(text) != []
    ensures !IsSpace(Trim(text)[0])
  {
    var d := TrimStart(text);
    assert Trim(text)[0] == d[0];
  }

  lemma {:induction false} BlankGivesNoLines(text: string)
    requires IsBlank(text)
    ensures Lines(text) == []
  {
    TrimEmptyIffBlank(text);
    assert Split(Trim(text), '\n') == [[]];
    NonBlankOfEmptyLine();
  }

  lemma NonBlankOfEmptyLine()
    ensures NonBlank([[]]) == []
  {
    var one: seq<string> := [[]];
    assert Trim(one[0]) == [];
    assert one[1..] == [];
  }

  lemma NonBlankGivesLines(text: string)
    requires !IsBlank(text)
    ensures Lines(text) != []
  {
    TrimEmptyIffBlank(text);
    var t := Trim(text);
    TrimStartsWithNonSpace(text);
    SplitCovers(t, '\n', 0);
    var pieces := Split(t, '\n');
    var k :| 0 <= k < |pieces| && t[0] in pieces[k];
    TrimEmptyIffBlank(pieces[k]);
    NonBlankKeeps(pieces, k);
  }

  /** No line survives exactly when the whole text is whitespace; this is the
      condition under which `parseTree` answers "No data". */
  lemma LinesEmptyIffBlank(text: string)
    ensures Lines(text) == [] <==> IsBlank(text)
  {
    if IsBlank(text) {
      BlankGivesNoLines(text);
    } else {
      NonBlankGivesLines(text);
    }
  }

  // ---------------------------------------------------------------------------
  // Depth (DecisionTree.tsx:25-27)

  /** The depth of a line: the number of `|` characters anywhere in it, minus one. */
  function Depth(line: string): (d: int)
    ensures d >= -1
    ensures d == -1 <==> '|' !in line
  {
    CountChar(line, '|') - 1
  }

  // ---------------------------------------------------------------------------
  // Stripping markers and filler (DecisionTree.tsx:29-40)

  /** `.replace(/^\|+/, "")`: the line without its leading run of pipes. */
  function DropPipes(s: string): (r: string)
    ensures |r| <= |s| && r == s[|s| - |r|..]
    ensures r == [] || r[0] != '|'
  {
    if s != [] && s[0] == '|' then DropPipes(s[1..]) else s
  }

  /** Every character that `DropPipes` removes is a `|`. */
  lemma {:induction false} DropPipesDropped(s: string, i: nat)
    requires i < |s| - |DropPipes(s)|
    ensures s[i] == '|'
  {
    if i > 0 {
      DropPipesDropped(s[1..], i - 1);
    }
  }

  /** The class `[-\s]` of the source's second replacement. */
  predicate IsDashOrSpace(c: char) { c == '-' || IsSpace(c) }

  /** A character that the stripping stage removes from the front of a line. */
  predicate IsMarkerOrFill(c: char) { c == '|' || IsDashOrSpace(c) }

  /** `.replace(/^[-\s]+/, "")`: the text without its leading run of dashes and whitespace. */
  function DropFill(s: string): (r: string)
    ensures |r| <= |s| && r == s[|s| - |r|..]
    ensures r == [] || !IsDashOrSpace(r[0])
  {
    if s != [] && IsDashOrSpace(s[0]) then DropFill(s[1..]) else s
  }

  /** Every character that `DropFill` removes is a `-` or whitespace. */
  lemma {:induction false} DropFillDropped(s: string, i: nat)
    requires i < |s| - |DropFill(s)|
    ensures IsDashOrSpace(s[i])
  {
    if i > 0 {
      DropFillDropped(s[1..], i - 1);
    }
  }

  /** The text without its leading run of pipes, dashes and whitespace. */
  function DropMarkers(s: string): (r: string)
    ensures |r| <= |s| && r == s[|s| - |r|..]
    ensures r == [] || !IsMarkerOrFill(r[0])
  {
    if s != [] && IsMarkerOrFill(s[0]) then DropMarkers(s[1..]) else s
  }

  /** Every character that `DropMarkers` removes is a marker or filler. */
  lemma {:induction false} DropMarkersDropped(s: string, i: nat)
    requires i < |s| - |DropMarkers(s)|
    ensures IsMarkerOrFill(s[i])
  {
    if i > 0 {
      DropMarkersDropped(s[1..], i - 1);
    }
  }

  /** What is left of a line once its whole leading run of `|`, `-` and
      whitespace is gone and its trailing whitespace is trimmed. */
  function Strip(line: string): (r: string)
    ensures r == [] || (!IsMarkerOrFill(r[0]) && !IsSpace(r[|r| - 1]))
  {
    TrimEnd(DropMarkers(line))
  }

  /** The stripped content starts with a character that is neither a marker
      nor filler and does not end in whitespace; it is empty exactly when the
      line consists of markers and filler only. */
  lemma StripShape(line: string)
    ensures var c := Strip(line);
      c == [] || (!IsMarkerOrFill(c[0]) && !IsSpace(c[|c| - 1]))
    ensures Strip(line) == [] <==> forall i :: 0 <= i < |line| ==> IsMarkerOrFill(line[i])
  {
    var d := DropMarkers(line);
    var c := TrimEnd(d);
    if d != [] {
      assert c[0] == d[0];
      assert d[0] == line[|line| - |d|];
    } else {
      forall i | 0 <= i < |line|
        ensures IsMarkerOrFill(line[i])
      {
        DropMarkersDropped(line, i);
      }
    }
  }

  /** Stripping twice is stripping once. */
  lemma StripIdempotent(line: string)
    ensures Strip(Strip(line)) == Strip(line)
  {
    StripShape(line);
    var c := Strip(line);
    assert DropMarkers(c) == c;
  }

  /** `DropMarkers` stops exactly where the leading run of markers and
      filler ends. */
  lemma {:induction false} DropMarkersAt(s: string, j: nat)
    requires j <= |s|
    requires forall i :: 0 <= i < j ==> IsMarkerOrFill(s[i])
    requires j == |s| || !IsMarkerOrFill(s[j])
    ensures DropMarkers(s) == s[j..]
  {
    if j > 0 {
      DropMarkersAt(s[1..], j - 1);
      assert s[1..][j - 1..] == s[j..];
    }
  }

  /** A line made only of markers and filler still is once its last
      character goes. */
  lemma AllMarkersDropLast(s: string)
    requires |s| > 0 && DropMarkers(s) == []
    ensures DropMarkers(s[..|s| - 1]) == []
  {
    var p := s[..|s| - 1];
    forall i | 0 <= i < |p|
      ensures IsMarkerOrFill(p[i])
    {
      DropMarkersDropped(s, i);
    }
    DropMarkersAt(p, |p|);
  }

  /** When something is left after the markers, removing a final marker or
      filler character removes the last character of what is left. */
  lemma SomeContentDropLast(s: string, k: nat)
    requires |s| > 0 && IsMarkerOrFill(s[|s| - 1])
    requires k < |s| && DropMarkers(s) == s[k..]
    ensures DropMarkers(s[..|s| - 1]) == s[k..|s| - 1]
  {
    var p := s[..|s| - 1];
    forall i | 0 <= i < k
      ensures IsMarkerOrFill(p[i])
    {
      DropMarkersDropped(s, i);
    }
    assert !IsMarkerOrFill(s[k]);
    DropMarkersAt(p, k);
  }

  lemma StripDropLastSpace(s: string)
    requires |s| > 0 && IsSpace(s[|s| - 1])
    ensures Strip(s) == Strip(s[..|s| - 1])
  {
    var d := DropMarkers(s);
    var p := s[..|s| - 1];
    if d == [] {
      AllMarkersDropLast(s);
      assert DropMarkers(p) == [];
    } else {
      var k := |s| - |d|;
      SomeContentDropLast(s, k);
      SuffixDropLast(s, k);
      TrimEndDropSpace(d);
    }
  }

  /** Dropping the last character of a suffix of `s` gives the same slice as
      dropping it from `s` first; the last character is `s`'s. */
  lemma SuffixDropLast(s: string, k: nat)
    requires k < |s|
    ensures s[k..][..|s| - k - 1] == s[k..|s| - 1]
    ensures s[k..][|s| - k - 1] == s[|s| - 1]
  {
  }

  /** `trimEnd` ignores a final whitespace character. */
  lemma TrimEndDropSpace(d: string)
    requires d != [] && IsSpace(d[|d| - 1])
    ensures TrimEnd(d) == TrimEnd(d[..|d| - 1])
  {
  }

  lemma {:induction false} StripTrimEnd(s: string)
    ensures Strip(TrimEnd(s)) == Strip(s)
    decreases |s|
  {
    if s != [] && IsSpace(s[|s| - 1]) {
      StripTrimEnd(s[..|s| - 1]);
      StripDropLastSpace(s);
    }
  }

  lemma {:induction false} StripTrimStart(s: string)
    ensures Strip(TrimStart(s)) == Strip(s)
    decreases |s|
  {
    if s != [] && IsSpace(s[0]) {
      StripTrimStart(s[1..]);
      assert DropMarkers(s) == DropMarkers(s[1..]);
    }
  }

  lemma {:induction false} StripDropFill(s: string)
    ensures Strip(DropFill(s)) == Strip(s)
    decreases |s|
  {
    if s != [] && IsDashOrSpace(s[0]) {
      StripDropFill(s[1..]);
      assert DropMarkers(s) == DropMarkers(s[1..]);
    }
  }

  lemma {:induction false} StripDropPipes(s: string)
    ensures Strip(DropPipes(s)) == Strip(s)
  {
    if s != [] && s[0] == '|' {
      assert DropPipes(s) == DropPipes(s[1..]);
      assert IsMarkerOrFill(s[0]);
      StripDropPipes(s[1..]);
      assert DropMarkers(s) == DropMarkers(s[1..]);
    }
  }

  lemma StripTrim(s: string)
    ensures Strip(Trim(s)) == Strip(s)
  {
    StripTrimEnd(TrimStart(s));
    StripTrimStart(s);
  }

  /** After the `[-\s]` replacement and `trim`, the content starts with neither
      a dash nor whitespace, and trimming its end changes nothing. */
  lemma TrimAfterFill(y: string)
    requires y == [] || !IsDashOrSpace(y[0])
    ensures var t := Trim(y); t == [] || (!IsDashOrSpace(t[0]) && !IsSpace(t[|t| - 1]))
  {
    assert TrimStart(y) == y;
    var t := TrimEnd(y);
    if t != [] {
      assert t[0] == y[0];
    }
  }

  /** `.replace(/^[-\s]+/, "").trim()`, the step that follows each removal of
      pipes: never longer than its input, and what is left starts with neither a
      dash nor whitespace and ends with no whitespace. */
  function FillPass(s: string): (r: string)
    ensures |r| <= |s|
    ensures r == [] || (!IsDashOrSpace(r[0]) && !IsSpace(r[|r| - 1]))
  {
    var noFill := DropFill(s);
    TrimAfterFill(noFill);
    Trim(noFill)
  }

  /** `content` is a stage of stripping `line`: it strips to the same thing,
      starts with neither a dash nor whitespace, and has no trailing whitespace. */
  predicate Prestripped(content: string, line: string) {
    && Strip(content) == Strip(line)
    && (content == [] || (!IsDashOrSpace(content[0]) && !IsSpace(content[|content| - 1])))
  }

  /** The fill step keeps the stripped form, and its result starts with neither
      a dash nor whitespace and has no trailing whitespace. */
  lemma FillPassKeeps(s: string)
    ensures Prestripped(FillPass(s), s)
  {
    var noFill := DropFill(s);
    StripTrim(noFill);
    StripDropFill(s);
    assert Strip(Trim(noFill)) == Strip(s);
  }

  /** The replacements and `trim` that `parseTree` applies before its loop. */
  lemma FirstPassKeeps(line: string)
    ensures Prestripped(FillPass(DropPipes(line)), line)
  {
    StripDropPipes(line);
    FillPassKeeps(DropPipes(line));
  }

  /** One iteration of the stripping loop on content that starts with `|`:
      `content.substring(1)` followed by the fill step. */
  lemma PipePassKeeps(content: string, line: string)
    requires Prestripped(content, line) && content != [] && content[0] == '|'
    ensures Prestripped(FillPass(content[1..]), line)
    ensures |FillPass(content[1..])| < |content|
  {
    assert DropMarkers(content) == DropMarkers(content[1..]);
    FillPassKeeps(content[1..]);
  }

  /** Content that does not start with a marker or filler and has no trailing
      whitespace is already stripped. */
  lemma StrippedAlready(content: string, line: string)
    requires Prestripped(content, line)
    requires content == [] || content[0] != '|'
    ensures content == Strip(line)
  {
    assert DropMarkers(content) == content;
    assert TrimEnd(content) == content;
  }

  /** The stripping loop of `parseTree`: while the content still starts with
      `|`, drop that pipe, then the dashes and whitespace after it, and trim. */
  method StripPipes(start: string, ghost line: string) returns (content: string)
    requires Prestripped(start, line)
    ensures content == Strip(line)
  {
    content := start;
    while content != [] && content[0] == '|'
      invariant Prestripped(content, line)
      decreases |content|
    {
      PipePassKeeps(content, line);
      content := FillPass(content[1..]);
    }
    StrippedAlready(content, line);
  }

  /** The content of a tree line as `parseTree` computes it: leading pipes,
      then dashes and whitespace, removed and the rest trimmed, then the
      loop. Its result is the line with its whole marker prefix removed. */
  method StripContent(line: string) returns (content: string)
    ensures content == Strip(line)
  {
    FirstPassKeeps(line);
    content := StripPipes(FillPass(DropPipes(line)), line);
  }

  // ---------------------------------------------------------------------------
  // Classification (DecisionTree.tsx:46-58)

  /** `c` equals the lower-case ASCII letter `lower` up to ASCII case, as the
      `i` flag compares letters in a regular expression without the `u` flag. */
  predicate SameLetter(c: char, lower: char) {
    c == lower || c as int == lower as int - 32
  }

  predicate EqualsIgnoringCase(s: string, word: string) {
    |s| == |word| && forall i :: 0 <= i < |s| ==> SameLetter(s[i], word[i])
  }

  /** Where `\s*` stops when it starts at index `i`: the first index from `i`
      on that holds no whitespace, or the end. */
  function SkipSpaces(s: string, i: nat): (j: nat)
    requires i <= |s|
    ensures i <= j <= |s|
    ensures j == |s| || !IsSpace(s[j])
    decreases |s| - i
  {
    if i < |s| && IsSpace(s[i]) then SkipSpaces(s, i + 1) else i
  }

  /** Everything `\s*` passes over is whitespace. */
  lemma {:induction false} SkipSpacesSkipped(s: string, i: nat, k: nat)
    requires i <= k < |s| && k < SkipSpaces(s, i)
    ensures IsSpace(s[k])
    decreases |s| - i
  {
    if k > i {
      SkipSpacesSkipped(s, i + 1, k);
    }
  }

  /** `\s*` stops exactly at the end of a run of whitespace. */
  lemma {:induction false} SkipSpacesAt(s: string, i: nat, j: nat)
    requires i <= j <= |s| && (j == |s| || !IsSpace(s[j]))
    requires forall k :: i <= k < j ==> IsSpace(s[k])
    ensures SkipSpaces(s, i) == j
    decreases j - i
  {
    if i < j {
      SkipSpacesAt(s, i + 1, j);
    }
  }

  /** `/^(clase|class)\s*:\s*\d+/i`: the keyword in any case, optional
      whitespace, a colon, optional whitespace, then at least one digit. */
  predicate ClassPattern(content: string)
    ensures ClassPattern(content) ==> |content| >= 7
  {
    && |content| >= 5
    && (EqualsIgnoringCase(content[..5], "clase") || EqualsIgnoringCase(content[..5], "class"))
    && var colon := SkipSpaces(content, 5);
    && colon < |content| && content[colon] == ':'
    && var digit := SkipSpaces(content, colon + 1);
    && digit < |content| && IsDigit(content[digit])
  }

  /** A content that passes the pattern has a digit: the one right after the
      colon and its optional whitespace. */
  lemma ClassPatternHasDigit(content: string)
    requires ClassPattern(content)
    ensures exists i :: 0 <= i < |content| && IsDigit(content[i])
  {
    var digit := SkipSpaces(content, SkipSpaces(content, 5) + 1);
    assert IsDigit(content[digit]);
  }

  /** The parts of a match of `/^(clase|class)\s*:\s*\d+/i`: the keyword in
      `content[..5]`, whitespace up to the colon at `colon`, whitespace up to
      the digit at `digit`, and anything after it. */
  predicate ClassShape(content: string, colon: nat, digit: nat) {
    && 5 <= colon < digit < |content|
    && StartsWithClassWord(content)
    && (forall k :: 5 <= k < colon ==> IsSpace(content[k]))
    && content[colon] == ':'
    && (forall k :: colon < k < digit ==> IsSpace(content[k]))
    && IsDigit(content[digit])
  }

  /** The pattern holds exactly when the content has that shape. */
  lemma ClassPatternIff(content: string)
    ensures ClassPattern(content) <==> exists colon: nat, digit: nat :: ClassShape(content, colon, digit)
  {
    if ClassPattern(content) {
      var colon := SkipSpaces(content, 5);
      var digit := SkipSpaces(content, colon + 1);
      forall k | 5 <= k < colon
        ensures IsSpace(content[k])
      {
        SkipSpacesSkipped(content, 5, k);
      }
      forall k | colon < k < digit
        ensures IsSpace(content[k])
      {
        SkipSpacesSkipped(content, colon + 1, k);
      }
      assert ClassShape(content, colon, digit);
    }
    if exists colon: nat, digit: nat :: ClassShape(content, colon, digit) {
      var colon: nat, digit: nat :| ClassShape(content, colon, digit);
      ShapeIsPattern(content, colon, digit);
    }
  }

  lemma ShapeIsPattern(content: string, colon: nat, digit: nat)
    requires ClassShape(content, colon, digit)
    ensures ClassPattern(content)
  {
    SkipSpacesAt(content, 5, colon);
    SkipSpacesAt(content, colon + 1, digit);
  }

  /** Every keyword, whitespace, colon, whitespace, digit, rest, such as
      `Clase :3` or `CLASS:\t7 x`, passes the pattern. */
  lemma ClassPatternAccepts(word: string, blank1: string, blank2: string, d: char, rest: string)
    requires EqualsIgnoringCase(word, "class") || EqualsIgnoringCase(word, "clase")
    requires IsBlank(blank1) && IsBlank(blank2) && IsDigit(d)
    ensures ClassPattern(word + blank1 + ":" + blank2 + [d] + rest)
  {
    var content := word + blank1 + ":" + blank2 + [d] + rest;
    var colon := 5 + |blank1|;
    var digit := colon + 1 + |blank2|;
    assert content[..5] == word;
    assert content[colon] == ':';
    assert content[digit] == d;
    forall k | 5 <= k < colon
      ensures IsSpace(content[k])
    {
      assert content[k] == blank1[k - 5];
    }
    forall k | colon < k < digit
      ensures IsSpace(content[k])
    {
      assert content[k] == blank2[k - colon - 1];
    }
    ShapeIsPattern(content, colon, digit);
  }

  /** A content that starts with the keyword `class` or `clase`, in any ASCII case. */
  predicate StartsWithClassWord(content: string) {
    |content| >= 5 && (EqualsIgnoringCase(content[..5], "class") || EqualsIgnoringCase(content[..5], "clase"))
  }

  lemma ClassColonStartsWithWord(content: string)
    requires StartsWith(content, "class:") || StartsWith(content, "Class:")
    ensures StartsWithClassWord(content)
  {
    assert content[..5] == content[..6][..5];
  }

  /** The three-way test that makes a line a class leaf. The first two tests
      are special cases of the third's keyword, so every class line starts
      with `class` or `clase` in some case. */
  predicate IsClassLine(content: string)
    ensures IsClassLine(content) ==> StartsWithClassWord(content)
  {
    if StartsWith(content, "class:") || StartsWith(content, "Class:") then
      ClassColonStartsWithWord(content);
      true
    else ClassPattern(content)
  }

  /** What is left after the non-digits before the first digit: where
      `content.match(/(\d+)/)` starts looking for its run. */
  function SkipNonDigits(s: string): (r: string)
    ensures |r| <= |s| && r == s[|s| - |r|..]
    ensures r == [] || IsDigit(r[0])
  {
    if s == [] || IsDigit(s[0]) then s
    else
      var r := SkipNonDigits(s[1..]);
      assert s[1..][|s| - 1 - |r|..] == s[|s| - |r|..];
      r
  }

  /** Every character skipped before the first digit is a non-digit. */
  lemma {:induction false} SkipNonDigitsSkipped(s: string, i: nat)
    requires i < |s| - |SkipNonDigits(s)|
    ensures !IsDigit(s[i])
  {
    if i > 0 {
      SkipNonDigitsSkipped(s[1..], i - 1);
    }
  }

  /** The leading run of digits of `s`. */
  function LeadingDigits(s: string): (r: string)
    ensures |r| <= |s| && r == s[..|r|]
    ensures forall i :: 0 <= i < |r| ==> IsDigit(r[i])
    ensures |r| == |s| || !IsDigit(s[|r|])
  {
    if s != [] && IsDigit(s[0]) then [s[0]] + LeadingDigits(s[1..]) else []
  }

  /** `10` to the power `n`. */
  function Pow10(n: nat): (r: nat)
    ensures r >= 1
  {
    if n == 0 then 1 else 10 * Pow10(n - 1)
  }

  /** The decimal value of a string of digits (`parseInt(digits, 10)`): a run
      of `n` digits is below `10^n`, and its last digit is the value's last
      decimal digit. */
  function DigitsValue(ds: string): (r: nat)
    requires forall i :: 0 <= i < |ds| ==> IsDigit(ds[i])
    ensures r < Pow10(|ds|)
    ensures ds != [] ==> r % 10 == ds[|ds| - 1] as int - '0' as int
  {
    if ds == [] then 0
    else
      var last := ds[|ds| - 1];
      assert IsDigit(last);
      10 * DigitsValue(ds[..|ds| - 1]) + (last as int - '0' as int)
  }

  /** The class id of a leaf line: the value of the first run of digits in
      the content (`content.match(/(\d+)/)`), or 0 when there is none. */
  function ClassIdOf(content: string): (r: nat)
    ensures (forall i :: 0 <= i < |content| ==> !IsDigit(content[i])) ==> r == 0
  {
    DigitsValue(LeadingDigits(SkipNonDigits(content)))
  }

  /** The digit run `ClassIdOf` reads is preceded only by non-digits. */
  lemma ClassIdSkipsNonDigits(content: string)
    ensures forall i :: 0 <= i < |content| - |SkipNonDigits(content)| ==> !IsDigit(content[i])
  {
    forall i | 0 <= i < |content| - |SkipNonDigits(content)|
      ensures !IsDigit(content[i])
    {
      SkipNonDigitsSkipped(content, i);
    }
  }

  /** A prefix `run` of a suffix `rest` of `content` sits in `content` where
      `rest` starts, followed by what follows it in `rest`. */
  lemma RunInContent(content: string, rest: string, run: string)
    requires |rest| <= |content| && rest == content[|content| - |rest|..]
    requires |run| <= |rest| && run == rest[..|run|]
    ensures forall i :: 0 <= i < |run| ==> content[|content| - |rest| + i] == run[i]
    ensures |run| < |rest| ==> content[|content| - |rest| + |run|] == rest[|run|]
  {
    var start := |content| - |rest|;
    forall i | 0 <= i < |run|
      ensures content[start + i] == run[i]
    {
      assert rest[i] == content[start + i];
    }
  }

  /** The id `ClassIdOf` gives is the value of the digit run that starts at
      the first digit of the content. */
  lemma ClassIdIsFirstDigitRun(content: string)
    ensures var rest := SkipNonDigits(content);
      var run := LeadingDigits(rest);
      && ClassIdOf(content) == DigitsValue(run)
      && (rest != [] ==> |run| > 0)
      && forall i :: 0 <= i < |run| ==> content[|content| - |rest| + i] == run[i]
  {
    var rest := SkipNonDigits(content);
    var run := LeadingDigits(rest);
    assert ClassIdOf(content) == DigitsValue(run);
    RunInContent(content, rest, run);
    if rest != [] {
      assert IsDigit(rest[0]);
    }
  }

  /** That run is maximal: it ends at the end of the content or before a
      non-digit. */
  lemma ClassIdRunIsMaximal(content: string)
    ensures var rest := SkipNonDigits(content);
      var end := |content| - |rest| + |LeadingDigits(rest)|;
      end == |content| || !IsDigit(content[end])
  {
    var rest := SkipNonDigits(content);
    RunInContent(content, rest, LeadingDigits(rest));
  }

  /** A class line without any digit, such as `class: unknown`, is the leaf
      with id 0. */
  lemma ClassLineWithoutDigits(content: string)
    requires IsClassLine(content)
    requires forall i :: 0 <= i < |content| ==> !IsDigit(content[i])
    ensures Classify(content) == ClassLabel(0)
  {
  }

  /** A class leaf when the content passes the class test, with the id of its
      first digit run; otherwise a condition holding the content. */
  function Classify(content: string): (r: NodeLabel)
    ensures r.ConditionLabel? ==> r.text == content
    ensures r.ClassLabel? ==> StartsWithClassWord(content)
  {
    if IsClassLine(content) then ClassLabel(ClassIdOf(content))
    else ConditionLabel(content)
  }

  // ---------------------------------------------------------------------------
  // The export's own rendering of class ids

  /** The decimal digits of `n`, most significant first, as the exporter prints them. */
  function DecimalString(n: nat): (r: string)
    ensures |r| > 0 && forall i :: 0 <= i < |r| ==> IsDigit(r[i])
  {
    if n < 10 then [('0' as int + n) as char]
    else DecimalString(n / 10) + [('0' as int + n % 10) as char]
  }

  /** Reading back the printed digits gives the number. */
  lemma {:induction false} DigitsValueOfDecimal(n: nat)
    ensures DigitsValue(DecimalString(n)) == n
  {
    var r := DecimalString(n);
    if n >= 10 {
      DigitsValueOfDecimal(n / 10);
      assert r[..|r| - 1] == DecimalString(n / 10);
    } else {
      assert r[..0] == [];
    }
  }

  lemma {:induction false} SkipNonDigitsAcross(a: string, b: string)
    requires forall i :: 0 <= i < |a| ==> !IsDigit(a[i])
    ensures SkipNonDigits(a + b) == SkipNonDigits(b)
  {
    if a != [] {
      assert (a + b)[1..] == a[1..] + b;
      SkipNonDigitsAcross(a[1..], b);
    } else {
      assert a + b == b;
    }
  }

  /** A leaf printed as `class: <n>` is classified as the leaf with id `n`. */
  lemma ClassLineRoundTrip(n: nat)
    ensures Classify("class: " + DecimalString(n)) == ClassLabel(n)
  {
    var ds := DecimalString(n);
    var content := "class: " + ds;
    assert content[..6] == "class:";
    SkipNonDigitsAcross("class: ", ds);
    assert SkipNonDigits(ds) == ds;
    assert LeadingDigits(ds) == ds;
    DigitsValueOfDecimal(n);
  }
}
