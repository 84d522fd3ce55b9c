/** The JavaScript string operations the parser and the dashboard rely on:
    `trim`, the `^[...]+` prefix replacements, `split`, `match(/x/g).length`,
    `startsWith`, `includes` and `toLowerCase`, stated over `seq<char>`. */
module JsText {

  /** The characters that `String.prototype.trim` removes and that `\s` matches
      in a JavaScript regular expression (WhiteSpace and LineTerminator). */
  predicate IsSpace(c: char) {
    c == '\t' || c == '\n' || c == '\U{000B}' || c == '\U{000C}' || c == '\r' || c == ' '
    || c == '\U{00A0}' || c == '\U{1680}' || ('\U{2000}' <= c <= '\U{200A}')
    || c == '\U{2028}' || c == '\U{2029}' || c == '\U{202F}' || c == '\U{205F}'
    || c == '\U{3000}' || c == '\U{FEFF}'
  }

  /** `\d` in a JavaScript regular expression: ASCII digits only. */
  predicate IsDigit(c: char) {
    '0' <= c <= '9'
  }

  /** Removes trailing whitespace (the right half of `trim`). */
  function TrimEnd(s: string): (r: string)
    ensures |r| <= |s| && r == s[..|r|]
    ensures r == [] || !IsSpace(r[|r| - 1])
    ensures s != [] && !IsSpace(s[0]) ==> r != []
  {
    if s != [] && IsSpace(s[|s| - 1]) then TrimEnd(s[..|s| - 1]) else s
  }

  /** Every character that `TrimEnd` removes is whitespace. */
  lemma {:induction false} TrimEndDropped(s: string, i: nat)
    requires |TrimEnd(s)| <= i < |s|
    ensures IsSpace(s[i])
  {
    if i < |s| - 1 {
      TrimEndDropped(s[..|s| - 1], i);
    }
  }

  /** Removes leading whitespace (the left half of `trim`, and `^\s*`). */
  function TrimStart(s: string): (r: string)
    ensures |r| <= |s| && r == s[|s| - |r|..]
    ensures r == [] || !IsSpace(r[0])
  {
    if s != [] && IsSpace(s[0]) then TrimStart(s[1..]) else s
  }

  /** Every character that `TrimStart` removes is whitespace. */
  lemma {:induction false} TrimStartDropped(s: string, i: nat)
    requires i < |s| - |TrimStart(s)|
    ensures IsSpace(s[i])
  {
    if i > 0 {
      TrimStartDropped(s[1..], i - 1);
    }
  }

  /** `String.prototype.trim`. */
  function Trim(s: string): (r: string)
    ensures |r| <= |s|
    ensures r == [] || (!IsSpace(r[0]) && !IsSpace(r[|r| - 1]))
  {
    TrimEnd(TrimStart(s))
  }

  /** A string all of whose characters are whitespace. */
  predicate IsBlank(s: string) {
    forall i :: 0 <= i < |s| ==> IsSpace(s[i])
  }

  lemma TrimEmptyIffBlank(s: string)
    ensures Trim(s) == [] <==> IsBlank(s)
  {
    var d := TrimStart(s);
    if d != [] {
      assert !IsSpace(d[0]) && d[0] == s[|s| - |d|];
    } else {
      forall i | 0 <= i < |s|
        ensures IsSpace(s[i])
      {
        TrimStartDropped(s, i);
      }
    }
  }

  /** The strings `parts` joined with `sep` between consecutive ones (`Array.prototype.join`). */
  function Join(parts: seq<string>, sep: char): string
    requires |parts| >= 1
  {
    if |parts| == 1 then parts[0] else parts[0] + [sep] + Join(parts[1..], sep)
  }

  /** `s.split(sep)` for a one-character separator: the maximal separator-free
      pieces of `s`, in order; joining them back gives `s`. */
  function Split(s: string, sep: char): (r: seq<string>)
    ensures |r| >= 1
    ensures forall k :: 0 <= k < |r| ==> sep !in r[k]
    ensures Join(r, sep) == s
  {
    if s == [] then [[]]
    else
      var rest := Split(s[1..], sep);
      if s[0] == sep then
        assert Join([[]] + rest, sep) == [sep] + Join(rest, sep) by {
          assert ([[]] + rest)[1..] == rest;
        }
        [[]] + rest
      else
        var r := [[s[0]] + rest[0]] + rest[1..];
        assert Join(r, sep) == [s[0]] + Join(rest, sep) by {
          if |rest| > 1 {
            assert r[1..] == rest[1..];
          }
        }
        r
  }

  /** Splitting undoes joining whenever no piece contains the separator, so
      `Split` is the one separator-free decomposition of its input. */
  lemma {:induction false} SplitJoin(parts: seq<string>, sep: char)
    requires |parts| >= 1
    requires forall k :: 0 <= k < |parts| ==> sep !in parts[k]
    ensures Split(Join(parts, sep), sep) == parts
    decreases |parts|, |parts[0]|
  {
    if |parts| == 1 {
      SplitSeparatorFree(parts[0], sep);
    } else if parts[0] == [] {
      var tail := parts[1..];
      SplitJoin(tail, sep);
      var s := Join(parts, sep);
      assert s == [sep] + Join(tail, sep);
      assert s[1..] == Join(tail, sep);
      assert [[]] + tail == parts;
    } else {
      var c := parts[0][0];
      var shorter := [parts[0][1..]] + parts[1..];
      assert shorter[1..] == parts[1..];
      assert Join(parts, sep) == [c] + Join(shorter, sep);
      SplitJoin(shorter, sep);
      var s := Join(parts, sep);
      assert s[1..] == Join(shorter, sep);
      assert s[0] == c && c != sep;
      var rest := Split(s[1..], sep);
      assert rest == shorter;
      assert [c] + parts[0][1..] == parts[0];
      assert Split(s, sep) == [[c] + rest[0]] + rest[1..];
      assert [[c] + rest[0]] + rest[1..] == parts;
    }
  }

  lemma {:induction false} SplitSeparatorFree(s: string, sep: char)
    requires sep !in s
    ensures Split(s, sep) == [s]
  {
    if s != [] {
      SplitSeparatorFree(s[1..], sep);
      assert [s[0]] + s[1..] == s;
    }
  }

  /** A character other than the separator lies in one of the pieces. */
  lemma {:induction false} SplitCovers(s: string, sep: char, i: nat)
    requires i < |s| && s[i] != sep
    ensures exists k :: 0 <= k < |Split(s, sep)| && s[i] in Split(s, sep)[k]
  {
    var rest := Split(s[1..], sep);
    if i == 0 {
      assert s[0] in Split(s, sep)[0];
    } else {
      SplitCovers(s[1..], sep, i - 1);
      var k :| 0 <= k < |rest| && s[1..][i - 1] in rest[k];
      if s[0] == sep {
        assert Split(s, sep)[k + 1] == rest[k];
      } else if k == 0 {
        assert s[i] in Split(s, sep)[0];
      } else {
        assert Split(s, sep)[k] == rest[k];
      }
    }
  }

  /** `(s.match(/c/g) || []).length`: how many times `c` occurs anywhere in `s`. */
  function CountChar(s: string, c: char): (n: nat)
    ensures n == multiset(s)[c]
    ensures n == 0 <==> c !in s
  {
    if s == [] then 0
    else
      assert s == [s[0]] + s[1..];
      (if s[0] == c then 1 else 0) + CountChar(s[1..], c)
  }

  /** `s.startsWith(prefix)`: the prefix fits and agrees with `s` character
      by character. */
  predicate StartsWith(s: string, prefix: string)
    ensures StartsWith(s, prefix) <==>
      |prefix| <= |s| && forall i :: 0 <= i < |prefix| ==> s[i] == prefix[i]
  {
    |prefix| <= |s| && s[..|prefix|] == prefix
  }

  /** `s.includes(needle)`. */
  function Contains(s: string, needle: string): (r: bool)
    ensures r ==> |needle| <= |s|
    ensures StartsWith(s, needle) ==> r
  {
    if |s| < |needle| then false
    else StartsWith(s, needle) || Contains(s[1..], needle)
  }

  /** The needle starts at some position of `s`. */
  predicate OccursIn(needle: string, s: string) {
    exists i :: 0 <= i <= |s| - |needle| && StartsWith(s[i..], needle)
  }

  /** `Contains` holds exactly when the needle starts at some position of `s`. */
  lemma {:induction false} ContainsIff(s: string, needle: string)
    ensures Contains(s, needle) <==> OccursIn(needle, s)
  {
    assert s[0..] == s;
    if |s| >= |needle| && s != [] {
      ContainsIff(s[1..], needle);
      if Contains(s[1..], needle) {
        var i :| 0 <= i <= |s[1..]| - |needle| && StartsWith(s[1..][i..], needle);
        assert s[1..][i..] == s[i + 1..];
      } else if !StartsWith(s, needle) {
        forall i | 0 <= i <= |s| - |needle|
          ensures !StartsWith(s[i..], needle)
        {
          if i > 0 {
            assert s[1..][i - 1..] == s[i..];
          }
        }
      }
    }
  }

  /** Occurrence is kept when text is added around the string. */
  lemma ContainsExtended(pre: string, s: string, post: string, needle: string)
    requires Contains(s, needle)
    ensures Contains(pre + s + post, needle)
  {
    ContainsIff(s, needle);
    var i :| 0 <= i <= |s| - |needle| && StartsWith(s[i..], needle);
    var t := pre + s + post;
    assert t[|pre| + i..][..|needle|] == s[i..][..|needle|];
    assert StartsWith(t[|pre| + i..], needle);
    ContainsIff(t, needle);
  }

  /** `toLowerCase` on one character, for the characters whose lower case is an
      ASCII letter: A-Z and the Kelvin sign U+212A, which lower-cases to `k`.
      Every other character is left as it is. */
  function LowerChar(c: char): (r: char)
    ensures !('A' <= r <= 'Z')
    ensures r != c ==> 'a' <= r <= 'z'
    ensures !('A' <= c <= 'Z') && c != '\U{212A}' ==> r == c
  {
    if 'A' <= c <= 'Z' then (c as int + 32) as char
    else if c == '\U{212A}' then 'k'
    else c
  }

  function ToLower(s: string): (r: string)
    ensures |r| == |s|
    ensures forall i :: 0 <= i < |s| ==> r[i] == LowerChar(s[i])
  {
    if s == [] then [] else [LowerChar(s[0])] + ToLower(s[1..])
  }
}
