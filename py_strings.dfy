/** Python string operations the filesystem server relies on: the ordering of
    `str <=`, `str.endswith`/`startswith`, the glob patterns it lists with,
    `Path(name).stem`, `str(int)` for generated ids, and the newline
    translation of a text-mode read. */
module PyStrings {

  /** `pre` is a prefix of `s` (`s.startswith(pre)`). */
  predicate StartsWith(s: string, pre: string) {
    |pre| <= |s| && s[..|pre|] == pre
  }

  /** `s.endswith(suf)`. */
  predicate EndsWith(s: string, suf: string) {
    |suf| <= |s| && s[|s| - |suf|..] == suf
  }

  /** The glob pattern `<pre>*<suf>`: a name that starts with `pre`, ends with
      `suf`, and has room for both (the star may match nothing). */
  predicate MatchesStarPattern(name: string, pre: string, suf: string) {
    |pre| + |suf| <= |name| && StartsWith(name, pre) && EndsWith(name, suf)
  }

  /** Python compares strings code point by code point; a proper prefix is
      smaller. This is `a <= b` on `str`. */
  predicate LexLe(a: string, b: string)
    ensures StartsWith(b, a) ==> LexLe(a, b)
    ensures |b| < |a| && StartsWith(a, b) ==> !LexLe(a, b)
    decreases |a|
  {
    if a == [] then true
    else if b == [] then false
    else if a[0] != b[0] then a[0] < b[0]
    else LexLe(a[1..], b[1..])
  }

  lemma {:induction false} LexLeReflexive(a: string)
    ensures LexLe(a, a)
    decreases |a|
  {
    if a != [] {
      LexLeReflexive(a[1..]);
    }
  }

  lemma {:induction false} LexLeTransitive(a: string, b: string, c: string)
    requires LexLe(a, b) && LexLe(b, c)
    ensures LexLe(a, c)
    decreases |a|
  {
    if a != [] && b != [] && c != [] && a[0] == b[0] && b[0] == c[0] {
      LexLeTransitive(a[1..], b[1..], c[1..]);
    }
  }

  lemma {:induction false} LexLeTotal(a: string, b: string)
    ensures LexLe(a, b) || LexLe(b, a)
    decreases |a|
  {
    if a != [] && b != [] && a[0] == b[0] {
      LexLeTotal(a[1..], b[1..]);
    }
  }

  lemma {:induction false} LexLeAntisymmetric(a: string, b: string)
    requires LexLe(a, b) && LexLe(b, a)
    ensures a == b
    decreases |a|
  {
    if a != [] && b != [] {
      LexLeAntisymmetric(a[1..], b[1..]);
      assert a == [a[0]] + a[1..] && b == [b[0]] + b[1..];
    }
  }

  /** `s.rfind('.')`: the index of the last dot, or -1 when there is none. */
  function LastDot(s: string): (r: int)
    ensures -1 <= r < |s|
    ensures r >= 0 ==> s[r] == '.'
    ensures forall j :: r < j < |s| ==> s[j] != '.'
    decreases |s|
  {
    if s == [] then -1
    else if s[|s| - 1] == '.' then |s| - 1
    else LastDot(s[..|s| - 1])
  }

  /** `Path(name).stem`: the name without its suffix, where the suffix starts
      at the last dot provided that dot is neither the first nor the last
      character (so ".json" and "notes." have no suffix). */
  function Stem(name: string): (r: string)
    ensures StartsWith(name, r)
    ensures r != name ==> 0 < |r| < |name| - 1 && name[|r|] == '.' && forall j | |r| < j < |name| :: name[j] != '.'
  {
    var i := LastDot(name);
    if 0 < i < |name| - 1 then name[..i] else name
  }

  /** The stem of `<base>.json` is `base`, except for the empty base, whose
      file ".json" is a hidden file without suffix. */
  lemma StemOfJsonName(base: string)
    ensures Stem(base + ".json") == (if base == [] then ".json" else base)
  {
    var name := base + ".json";
    assert name[|base|] == '.';
    assert forall j :: |base| < j < |name| ==> name[j] != '.';
    var i := LastDot(name);
    assert i == |base|;
    assert name[..|base|] == base;
  }

  /** Appending a fixed suffix (".json") loses nothing. */
  lemma AppendSuffixInjective(a: string, b: string, suf: string)
    requires a + suf == b + suf
    ensures a == b
  {
    assert |a| == |b|;
    assert a == (a + suf)[..|a|];
    assert b == (b + suf)[..|b|];
  }

  /** Prepending a fixed prefix ("event_") loses nothing. */
  lemma PrependPrefixInjective(pre: string, a: string, b: string)
    requires pre + a == pre + b
    ensures a == b
  {
    assert a == (pre + a)[|pre|..];
    assert b == (pre + b)[|pre|..];
  }

  /** What `open(p, "r").read()` returns for a file holding `s`. Text mode
      reads with universal newlines: "\r\n" and a lone "\r" both become
      "\n". (Writing with `open(p, "w")` on a POSIX system stores the text
      unchanged.) */
  function ReadText(s: string): (r: string)
    ensures '\r' !in r
    ensures |r| <= |s|
    decreases |s|
  {
    if s == [] then []
    else if s[0] == '\r' then
      if |s| >= 2 && s[1] == '\n' then "\n" + ReadText(s[2..]) else "\n" + ReadText(s[1..])
    else [s[0]] + ReadText(s[1..])
  }

  /** Text without a carriage return reads back as written. */
  lemma {:induction false} ReadTextKeepsPlainText(s: string)
    requires '\r' !in s
    ensures ReadText(s) == s
    decreases |s|
  {
    if s != [] {
      assert s[0] != '\r';
      assert '\r' !in s[1..] by {
        forall i | 0 <= i < |s[1..]|
          ensures s[1..][i] != '\r'
        {
          assert s[1..][i] == s[i + 1];
        }
      }
      ReadTextKeepsPlainText(s[1..]);
      assert s == [s[0]] + s[1..];
    }
  }

  /** Reading what was read changes nothing more. */
  lemma ReadTextIdempotent(s: string)
    ensures ReadText(ReadText(s)) == ReadText(s)
  {
    ReadTextKeepsPlainText(ReadText(s));
  }

  /** Windows line ends do not survive a save and a read. */
  lemma ReadTextTranslatesLineEnds()
    ensures ReadText("a\r\nb") == "a\nb"
    ensures ReadText("a\rb") == "a\nb"
  {
    assert "a\r\nb"[1..] == "\r\nb";
    assert "\r\nb"[2..] == "b";
    assert "a\rb"[1..] == "\rb";
    assert "\rb"[1..] == "b";
  }

  function DigitChar(d: nat): (c: char)
    requires d < 10
    ensures '0' <= c <= '9'
    ensures DigitValue(c) == d
  {
    "0123456789"[d]
  }

  function DigitValue(c: char): int {
    c as int - '0' as int
  }

  /** `str(n)` for a non-negative integer: its decimal digits, no leading
      zero except for 0 itself. */
  function NatToDecimal(n: nat): (r: string)
    ensures 0 < |r|
    ensures forall i :: 0 <= i < |r| ==> '0' <= r[i] <= '9'
    ensures n >= 10 ==> r[0] != '0'
    decreases n
  {
    if n < 10 then [DigitChar(n)] else NatToDecimal(n / 10) + [DigitChar(n % 10)]
  }

  /** `str(n)` for any integer. */
  function IntToDecimal(n: int): (r: string)
    ensures 0 < |r|
  {
    if n < 0 then "-" + NatToDecimal(-n) else NatToDecimal(n)
  }

  /** Reads a run of decimal digits back into its value: the inverse of
      NatToDecimal. */
  function DecimalValue(s: string): int
    decreases |s|
  {
    if s == [] then 0 else 10 * DecimalValue(s[..|s| - 1]) + DigitValue(s[|s| - 1])
  }

  lemma {:induction false} DecimalRoundTrip(n: nat)
    ensures DecimalValue(NatToDecimal(n)) == n
    decreases n
  {
    if n >= 10 {
      DecimalRoundTrip(n / 10);
      var s := NatToDecimal(n);
      assert s[..|s| - 1] == NatToDecimal(n / 10);
    }
  }

  /** The sign of `str(n)` tells negative numbers from the others. */
  lemma IntToDecimalSign(n: int)
    ensures (IntToDecimal(n)[0] == '-') == (n < 0)
  {
    if n >= 0 {
      assert '0' <= NatToDecimal(n)[0] <= '9';
    }
  }

  lemma NatToDecimalInjective(a: nat, b: nat)
    requires NatToDecimal(a) == NatToDecimal(b)
    ensures a == b
  {
    DecimalRoundTrip(a);
    DecimalRoundTrip(b);
  }

  /** Distinct integers print differently, so ids generated in different
      seconds never share a file. */
  lemma IntToDecimalInjective(m: int, n: int)
    requires IntToDecimal(m) == IntToDecimal(n)
    ensures m == n
  {
    IntToDecimalSign(m);
    IntToDecimalSign(n);
    if m < 0 {
      assert n < 0;
      assert IntToDecimal(m) == "-" + NatToDecimal(-m);
      assert IntToDecimal(n) == "-" + NatToDecimal(-n);
      PrependPrefixInjective("-", NatToDecimal(-m), NatToDecimal(-n));
      NatToDecimalInjective(-m, -n);
    } else {
      assert n >= 0;
      NatToDecimalInjective(m, n);
    }
  }
}
