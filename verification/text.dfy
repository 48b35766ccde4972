/** String operations the backend relies on, with JavaScript's semantics:
    `trim`, `toLowerCase`, `includes`, `replace`, `split`/`join`, the `\s+`
    substitution, `padStart` and the decimal rendering of integers. */
module Text {
  import opened Wrappers

  // ---------------------------------------------------------------- whitespace

  /** ECMAScript WhiteSpace and LineTerminator code points: what `trim`
      removes and what the regular-expression class `\s` matches. */
  predicate IsWhitespace(c: char) {
    var n := c as int;
    || n == 0x09 || n == 0x0A || n == 0x0B || n == 0x0C || n == 0x0D || n == 0x20
    || n == 0xA0 || n == 0x1680 || (0x2000 <= n <= 0x200A) || n == 0x2028
    || n == 0x2029 || n == 0x202F || n == 0x205F || n == 0x3000 || n == 0xFEFF
  }

  predicate NoWhitespace(s: string) {
    forall i :: 0 <= i < |s| ==> !IsWhitespace(s[i])
  }

  /** Length of the whitespace run that starts the string. */
  function LeadingWhitespace(s: string): (n: nat)
    ensures n <= |s|
    ensures forall i :: 0 <= i < n ==> IsWhitespace(s[i])
    ensures n == |s| || !IsWhitespace(s[n])
  {
    if |s| == 0 || !IsWhitespace(s[0]) then 0 else 1 + LeadingWhitespace(s[1..])
  }

  /** Length of the whitespace run that ends the string. */
  function TrailingWhitespace(s: string): (n: nat)
    ensures n <= |s|
    ensures forall i :: |s| - n <= i < |s| ==> IsWhitespace(s[i])
    ensures n == |s| || !IsWhitespace(s[|s| - n - 1])
  {
    if |s| == 0 || !IsWhitespace(s[|s| - 1]) then 0 else 1 + TrailingWhitespace(s[..|s| - 1])
  }

  /** `String.prototype.trim`. */
  function Trim(s: string): (r: string)
    ensures |r| <= |s|
    ensures r == "" <==> forall i :: 0 <= i < |s| ==> IsWhitespace(s[i])
    ensures r != "" ==> !IsWhitespace(r[0]) && !IsWhitespace(r[|r| - 1])
  {
    var a := LeadingWhitespace(s);
    var t := s[a..];
    var b := TrailingWhitespace(t);
    TrimShape(s, a, b);
    t[..|t| - b]
  }

  lemma TrimShape(s: string, a: nat, b: nat)
    requires a == LeadingWhitespace(s) && b == TrailingWhitespace(s[a..])
    ensures a == |s| <==> forall i :: 0 <= i < |s| ==> IsWhitespace(s[i])
    ensures a < |s| ==> b < |s| - a
  {
    if a < |s| {
      var t := s[a..];
      assert t[0] == s[a];
      assert !IsWhitespace(t[0]);
    }
  }

  lemma LeadingWhitespaceIs(s: string, n: nat)
    requires n <= |s|
    requires forall i :: 0 <= i < n ==> IsWhitespace(s[i])
    requires n == |s| || !IsWhitespace(s[n])
    ensures LeadingWhitespace(s) == n
  {
  }

  lemma TrailingWhitespaceIs(s: string, n: nat)
    requires n <= |s|
    requires forall i :: |s| - n <= i < |s| ==> IsWhitespace(s[i])
    requires n == |s| || !IsWhitespace(s[|s| - n - 1])
    ensures TrailingWhitespace(s) == n
  {
  }

  /** Trimming is characterised by its span: any cut of `s` into a
      whitespace prefix, a core that neither starts nor ends with
      whitespace, and a whitespace suffix yields exactly `Trim(s)`. */
  lemma TrimIsCore(s: string, a: nat, b: nat)
    requires a <= b <= |s|
    requires forall i :: 0 <= i < a ==> IsWhitespace(s[i])
    requires forall i :: b <= i < |s| ==> IsWhitespace(s[i])
    requires a < b ==> !IsWhitespace(s[a]) && !IsWhitespace(s[b - 1])
    ensures Trim(s) == s[a..b]
  {
    if a < b {
      LeadingWhitespaceIs(s, a);
      var t := s[a..];
      assert forall i :: 0 <= i < |t| ==> t[i] == s[a + i];
      TrailingWhitespaceIs(t, |s| - b);
      assert t[..|t| - (|s| - b)] == s[a..b];
    } else {
      assert Trim(s) == "";
    }
  }

  lemma TrimIdempotent(s: string)
    ensures Trim(Trim(s)) == Trim(s)
  {
    var r := Trim(s);
    TrimIsCore(r, 0, |r|);
  }

  /** A string without whitespace is its own trim. */
  lemma TrimNoWhitespace(s: string)
    requires NoWhitespace(s)
    ensures Trim(s) == s
  {
    TrimIsCore(s, 0, |s|);
  }

  // ---------------------------------------------------------------- case

  /** `toLowerCase` on one code point, for the ASCII letters. */
  function LowerChar(c: char): char {
    if 'A' <= c <= 'Z' then (c as int + 32) as char else c
  }

  /** `String.prototype.toLowerCase`, restricted to ASCII case mapping. */
  function ToLower(s: string): (r: string)
    ensures |r| == |s|
    ensures forall i :: 0 <= i < |s| ==> r[i] == LowerChar(s[i])
  {
    seq(|s|, i requires 0 <= i < |s| => LowerChar(s[i]))
  }

  predicate HasNoUpper(s: string) {
    forall i :: 0 <= i < |s| ==> !('A' <= s[i] <= 'Z')
  }

  lemma ToLowerIdempotent(s: string)
    ensures HasNoUpper(ToLower(s))
    ensures ToLower(ToLower(s)) == ToLower(s)
  {
  }

  lemma ToLowerFixesLower(s: string)
    requires HasNoUpper(s)
    ensures ToLower(s) == s
  {
  }

  // ---------------------------------------------------------------- search

  /** `needle` occurs in `hay` starting at position `i`. */
  predicate OccursAt(hay: string, needle: string, i: int) {
    0 <= i && i + |needle| <= |hay| && hay[i..i + |needle|] == needle
  }

  /** First occurrence of `needle` at or after `from`. */
  function IndexOfFrom(hay: string, needle: string, from: nat): (r: Option<nat>)
    requires from <= |hay|
    ensures r.Some? ==> from <= r.value && OccursAt(hay, needle, r.value)
    ensures r.Some? ==> forall j :: from <= j < r.value ==> !OccursAt(hay, needle, j)
    ensures r.None? ==> forall j :: from <= j ==> !OccursAt(hay, needle, j)
    decreases |hay| - from
  {
    if OccursAt(hay, needle, from) then Some(from)
    else if from == |hay| then None
    else IndexOfFrom(hay, needle, from + 1)
  }

  /** `String.prototype.indexOf`, absent as `None`. */
  function IndexOf(hay: string, needle: string): (r: Option<nat>)
    ensures r.Some? ==> OccursAt(hay, needle, r.value)
    ensures r.Some? ==> forall j :: 0 <= j < r.value ==> !OccursAt(hay, needle, j)
    ensures r.None? ==> forall j :: !OccursAt(hay, needle, j)
  {
    IndexOfFrom(hay, needle, 0)
  }

  /** `String.prototype.includes`. */
  function Contains(hay: string, needle: string): (b: bool)
    ensures b <==> exists j :: OccursAt(hay, needle, j)
  {
    IndexOf(hay, needle).Some?
  }

  /** `String.prototype.replace` with a string pattern: only the first
      occurrence is replaced. */
  function ReplaceFirst(s: string, pattern: string, replacement: string): (r: string)
    ensures (forall j :: !OccursAt(s, pattern, j)) ==> r == s
  {
    match IndexOf(s, pattern)
    case None => s
    case Some(i) => s[..i] + replacement + s[i + |pattern|..]
  }

  /** Removing a pattern that the string starts with leaves the rest. */
  lemma ReplaceLeadingPattern(pattern: string, rest: string)
    ensures ReplaceFirst(pattern + rest, pattern, "") == rest
  {
    assert OccursAt(pattern + rest, pattern, 0);
  }

  /** An occurrence that ends inside a prefix is an occurrence in it. */
  lemma OccursInPrefix(pre: string, post: string, needle: string, j: int)
    requires 0 <= j && j + |needle| <= |pre|
    ensures OccursAt(pre + post, needle, j) == OccursAt(pre, needle, j)
  {
    assert (pre + post)[j..j + |needle|] == pre[j..j + |needle|];
  }

  /** Only the FIRST occurrence goes, wherever it is: a pattern inside a
      string that does not contain it earlier is cut out in place. */
  lemma ReplaceInnerPattern(front: string, pattern: string, rest: string)
    requires forall j :: 0 <= j < |front| ==> !OccursAt(front + pattern, pattern, j)
    ensures ReplaceFirst(front + pattern + rest, pattern, "") == front + rest
  {
    var s := front + pattern + rest;
    assert s == (front + pattern) + rest;
    assert OccursAt(s, pattern, |front|) by {
      assert s[|front|..|front| + |pattern|] == pattern;
    }
    forall j | 0 <= j < |front|
      ensures !OccursAt(s, pattern, j)
    {
      OccursInPrefix(front + pattern, rest, pattern, j);
    }
    var i := IndexOf(s, pattern).value;
    assert i == |front|;
    assert s[..i] == front;
    assert s[i + |pattern|..] == rest;
  }

  // ---------------------------------------------------------------- split / join

  /** `String.prototype.split` on a one-character separator. */
  function Split(s: string, sep: char): (parts: seq<string>)
    ensures |parts| >= 1
    ensures forall i :: 0 <= i < |parts| ==> sep !in parts[i]
    decreases |s|
  {
    if |s| == 0 then [""]
    else
      var rest := Split(s[1..], sep);
      if s[0] == sep then [""] + rest
      else [[s[0]] + rest[0]] + rest[1..]
  }

  /** `Array.prototype.join` of strings with a one-character separator. */
  function Join(parts: seq<string>, sep: char): string
    decreases |parts|
  {
    if |parts| == 0 then ""
    else if |parts| == 1 then parts[0]
    else parts[0] + [sep] + Join(parts[1..], sep)
  }

  lemma {:induction false} JoinSplit(s: string, sep: char)
    ensures Join(Split(s, sep), sep) == s
    decreases |s|
  {
    if |s| > 0 {
      var rest := Split(s[1..], sep);
      JoinSplit(s[1..], sep);
      if s[0] == sep {
        assert Split(s, sep) == [""] + rest;
        assert Join([""] + rest, sep) == "" + [sep] + Join(rest, sep);
      } else if |rest| == 1 {
        assert Split(s, sep) == [[s[0]] + rest[0]];
      } else {
        var parts := Split(s, sep);
        assert parts == [[s[0]] + rest[0]] + rest[1..];
        assert parts[1..] == rest[1..];
        assert Join(rest, sep) == rest[0] + [sep] + Join(rest[1..], sep);
      }
    }
  }

  lemma {:induction false} SplitWithoutSeparator(s: string, sep: char)
    requires sep !in s
    ensures Split(s, sep) == [s]
    decreases |s|
  {
    if |s| > 0 {
      assert sep !in s[1..];
      SplitWithoutSeparator(s[1..], sep);
      assert [s[0]] + s[1..] == s;
    }
  }

  /** Splitting `a ‖ sep ‖ b` where `a` has no separator yields `a` first,
      then the pieces of `b`. */
  lemma {:induction false} SplitAtFirstSeparator(a: string, sep: char, b: string)
    requires sep !in a
    ensures Split(a + [sep] + b, sep) == [a] + Split(b, sep)
    decreases |a|
  {
    var s := a + [sep] + b;
    if |a| == 0 {
      assert s[1..] == b;
    } else {
      assert s[1..] == a[1..] + [sep] + b;
      SplitAtFirstSeparator(a[1..], sep, b);
      assert [a[0]] + a[1..] == a;
    }
  }

  // ---------------------------------------------------------------- `\s+` -> "_"

  /** `s.replace(/\s+/g, "_")`: every maximal whitespace run becomes one
      underscore. */
  function UnderscoreWhitespace(s: string): (r: string)
    ensures NoWhitespace(r)
    ensures |r| <= |s|
    decreases |s|
  {
    if |s| == 0 then ""
    else if IsWhitespace(s[0]) then "_" + UnderscoreWhitespace(s[LeadingWhitespace(s)..])
    else [s[0]] + UnderscoreWhitespace(s[1..])
  }

  lemma {:induction false} UnderscoreWhitespaceFree(s: string)
    requires NoWhitespace(s)
    ensures UnderscoreWhitespace(s) == s
    decreases |s|
  {
    if |s| > 0 {
      UnderscoreWhitespaceFree(s[1..]);
    }
  }

  /** A whitespace run between two words collapses to a single "_". */
  lemma UnderscoreRun(run: string, rest: string)
    requires |run| > 0
    requires forall i :: 0 <= i < |run| ==> IsWhitespace(run[i])
    requires rest == "" || !IsWhitespace(rest[0])
    ensures UnderscoreWhitespace(run + rest) == "_" + UnderscoreWhitespace(rest)
  {
    var s := run + rest;
    var n := LeadingWhitespace(s);
    assert forall i :: 0 <= i < |run| ==> s[i] == run[i];
    assert |rest| > 0 ==> s[|run|] == rest[0];
    assert n == |run|;
    assert s[n..] == rest;
  }

  // ---------------------------------------------------------------- digits

  predicate IsDigit(c: char) {
    '0' <= c <= '9'
  }

  predicate AllDigits(s: string) {
    forall i :: 0 <= i < |s| ==> IsDigit(s[i])
  }

  function DigitChar(d: nat): (c: char)
    requires d < 10
    ensures IsDigit(c)
  {
    (d + '0' as int) as char
  }

  function DigitValue(c: char): (d: nat)
    requires IsDigit(c)
    ensures d < 10 && DigitChar(d) == c
  {
    c as int - '0' as int
  }

  /** `String(n)` for a non-negative integer. */
  function NatToString(n: nat): (s: string)
    ensures |s| > 0 && AllDigits(s)
    ensures |s| > 1 ==> s[0] != '0'
  {
    if n < 10 then [DigitChar(n)] else NatToString(n / 10) + [DigitChar(n % 10)]
  }

  /** The value of a non-empty decimal digit string. */
  function ParseDigits(s: string): (n: nat)
    requires AllDigits(s)
    decreases |s|
  {
    if |s| == 0 then 0 else ParseDigits(s[..|s| - 1]) * 10 + DigitValue(s[|s| - 1])
  }

  lemma {:induction false} ParseNatToString(n: nat)
    ensures ParseDigits(NatToString(n)) == n
  {
    if n >= 10 {
      var s := NatToString(n);
      ParseNatToString(n / 10);
      assert s[..|s| - 1] == NatToString(n / 10);
    }
  }

  /** Leading zeros do not change a decimal value. */
  lemma {:induction false} ParseLeadingZero(s: string)
    requires AllDigits(s)
    ensures ParseDigits("0" + s) == ParseDigits(s)
    decreases |s|
  {
    if |s| > 0 {
      var t := "0" + s;
      assert t[..|t| - 1] == "0" + s[..|s| - 1];
      ParseLeadingZero(s[..|s| - 1]);
    }
  }

  /** `String(i)` for any integer. */
  function IntToString(i: int): (s: string)
    ensures i >= 0 ==> s == NatToString(i)
    ensures i < 0 ==> s == "-" + NatToString(-i)
  {
    if i < 0 then "-" + NatToString(-i) else NatToString(i)
  }

  /** `s.padStart(2, "0")`. */
  function PadStart2(s: string): (r: string)
    ensures |s| >= 2 ==> r == s
    ensures |s| < 2 ==> |r| == 2 && r[2 - |s|..] == s
    ensures forall i :: 0 <= i < 2 - |s| ==> r[i] == '0'
  {
    if |s| >= 2 then s else seq(2 - |s|, _ => '0') + s
  }
}
