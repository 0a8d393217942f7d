/** The two `String` extensions of lib/extensions/string.rb, plus `String#to_i`, which
    the controller uses to read `per_page`, and the decimal rendering `Integer#to_s`
    that the round-trip lemmas go through. */
module StringExt {
  import opened Wrappers

  // ---------------------------------------------------------------------------
  // to_bool: `self =~ /^(true|t|yes|y|1)$/i`

  /** Simple case folding of one character: ASCII letters, and U+017F (long s),
      which Unicode folds to `s`. */
  function Fold(c: char): char {
    if 'A' <= c <= 'Z' then (c as int + 32) as char
    else if c == '\U{017F}' then 's'
    else c
  }

  predicate FoldEq(s: string, w: string) {
    |s| == |w| && forall k :: 0 <= k < |s| ==> Fold(s[k]) == w[k]
  }

  const TruthyWords: seq<string> := ["true", "t", "yes", "y", "1"]

  /** `^` holds at `i`: the start of the string or just after a line feed. */
  predicate LineStart(s: string, i: int) {
    0 <= i <= |s| && (i == 0 || s[i - 1] == '\n')
  }

  /** `$` holds at `j`: the end of the string or just before a line feed. */
  predicate LineEnd(s: string, j: int) {
    0 <= j <= |s| && (j == |s| || s[j] == '\n')
  }

  /** The regex matches at `i` with alternative `w`. */
  predicate MatchAt(s: string, i: int, w: string) {
    LineStart(s, i) && i + |w| <= |s| && FoldEq(s[i..i + |w|], w) && LineEnd(s, i + |w|)
  }

  /** `String#to_bool`: Ruby's `^` and `$` are line anchors, so any one line of the
      string may be the word. */
  predicate ToBool(s: string) {
    exists i, k | 0 <= i <= |s| && 0 <= k < |TruthyWords| :: MatchAt(s, i, TruthyWords[k])
  }

  /** On a one-line string, `to_bool` is true exactly when the whole string is one of
      the five words up to case, and false for every other string. */
  lemma SingleLineToBool(s: string)
    requires forall k :: 0 <= k < |s| ==> s[k] != '\n'
    ensures ToBool(s) <==> exists k :: 0 <= k < |TruthyWords| && FoldEq(s, TruthyWords[k])
  {
    if ToBool(s) {
      var i, k :| 0 <= i <= |s| && 0 <= k < |TruthyWords| && MatchAt(s, i, TruthyWords[k]);
      assert i == 0;
      assert i + |TruthyWords[k]| == |s|;
      assert s[0..|s|] == s;
    } else {
      forall k | 0 <= k < |TruthyWords| ensures !FoldEq(s, TruthyWords[k]) {
        if FoldEq(s, TruthyWords[k]) {
          assert s[0..|s|] == s;
          assert MatchAt(s, 0, TruthyWords[k]);
        }
      }
    }
  }

  /** A matching line anywhere makes the whole string true: lines before or after it
      do not matter. */
  lemma AnyLineToBool(x: string, y: string)
    requires ToBool(x) || ToBool(y)
    ensures ToBool(x + "\n" + y)
  {
    var s := x + "\n" + y;
    if ToBool(y) {
      var i, k :| 0 <= i <= |y| && 0 <= k < |TruthyWords| && MatchAt(y, i, TruthyWords[k]);
      var w := TruthyWords[k];
      var o := |x| + 1;
      assert s[o + i..o + i + |w|] == y[i..i + |w|];
      assert o + i + |w| < |s| ==> s[o + i + |w|] == y[i + |w|];
      assert s[o + i - 1] == if i == 0 then '\n' else y[i - 1];
      assert MatchAt(s, o + i, w);
    } else {
      var i, k :| 0 <= i <= |x| && 0 <= k < |TruthyWords| && MatchAt(x, i, TruthyWords[k]);
      var w := TruthyWords[k];
      assert s[i..i + |w|] == x[i..i + |w|];
      assert s[i + |w|] == if i + |w| == |x| then '\n' else x[i + |w|];
      assert i > 0 ==> s[i - 1] == x[i - 1];
      assert MatchAt(s, i, w);
    }
  }

  // ---------------------------------------------------------------------------
  // Digits, shared by Integer() and String#to_i

  function DigitValue(c: char): Option<nat> {
    if '0' <= c <= '9' then Some(c as int - '0' as int)
    else if 'a' <= c <= 'z' then Some(c as int - 'a' as int + 10)
    else if 'A' <= c <= 'Z' then Some(c as int - 'A' as int + 10)
    else None
  }

  predicate IsDigit(c: char, base: nat) {
    DigitValue(c).Some? && DigitValue(c).value < base
  }

  /** A digit run as Ruby's integer parser takes it: at least one digit, digits of
      `base` separated by single underscores, no underscore first or last. */
  predicate DigitRun(r: string, base: nat) {
    && |r| > 0
    && IsDigit(r[0], base)
    && IsDigit(r[|r| - 1], base)
    && (forall k :: 0 <= k < |r| ==> IsDigit(r[k], base) || r[k] == '_')
    && (forall k, j :: 0 <= k < |r| && 0 <= j < k && k == j + 1 && r[j] == '_' ==> r[k] != '_')
  }

  /** The value of the digits of `r`, underscores skipped. */
  function RunValue(r: string, base: nat): nat {
    if |r| == 0 then 0
    else
      var last := r[|r| - 1];
      var high: nat := RunValue(r[..|r| - 1], base);
      if IsDigit(last, base) then high * base + DigitValue(last).value
      else high
  }

  /** The white space `Integer()` and `to_i` skip around a number: space, \t, \n, \v, \f, \r. */
  predicate IsAsciiSpace(c: char) {
    c == ' ' || ('\t' <= c <= '\r')
  }

  function DropLeadingSpace(s: string): (r: string)
    ensures |r| <= |s| && r == s[|s| - |r|..]
    ensures |r| > 0 ==> !IsAsciiSpace(r[0])
  {
    if |s| > 0 && IsAsciiSpace(s[0]) then DropLeadingSpace(s[1..]) else s
  }

  function DropTrailingSpace(s: string): (r: string)
    ensures |r| <= |s| && r == s[..|r|]
    ensures |r| > 0 ==> !IsAsciiSpace(r[|r| - 1])
  {
    if |s| > 0 && IsAsciiSpace(s[|s| - 1]) then DropTrailingSpace(s[..|s| - 1]) else s
  }

  // ---------------------------------------------------------------------------
  // is_integer?: `true if Integer(self) rescue false`

  /** Optional sign: whether the number is negative and what follows the sign. */
  function SplitSign(t: string): (bool, string) {
    if |t| > 0 && (t[0] == '+' || t[0] == '-') then (t[0] == '-', t[1..]) else (false, t)
  }

  function Run(r: string, base: nat): Option<nat> {
    if DigitRun(r, base) then Some(RunValue(r, base)) else None
  }

  /** The unsigned part of `Integer(str)`: a 0x/0b/0o/0d prefix picks the base, a
      leading 0 alone means octal, anything else is decimal. */
  function ParseMagnitude(b: string): Option<nat> {
    if |b| >= 2 && b[0] == '0' && (b[1] == 'x' || b[1] == 'X') then Run(b[2..], 16)
    else if |b| >= 2 && b[0] == '0' && (b[1] == 'b' || b[1] == 'B') then Run(b[2..], 2)
    else if |b| >= 2 && b[0] == '0' && (b[1] == 'o' || b[1] == 'O') then Run(b[2..], 8)
    else if |b| >= 2 && b[0] == '0' && (b[1] == 'd' || b[1] == 'D') then Run(b[2..], 10)
    else if |b| >= 1 && b[0] == '0' then Run(b, 8)
    else Run(b, 10)
  }

  /** `Integer(str)`: `None` stands for the ArgumentError it raises. */
  function ParseInteger(s: string): Option<int> {
    var t := DropTrailingSpace(DropLeadingSpace(s));
    var (negative, body) := SplitSign(t);
    match ParseMagnitude(body)
    case None => None
    case Some(m) => var v: int := m; Some(if negative then -v else v)
  }

  /** `String#is_integer?`: never raises, true exactly when `Integer(self)` parses. */
  predicate IsInteger(s: string) {
    ParseInteger(s).Some?
  }

  // ---------------------------------------------------------------------------
  // String#to_i (base 10): leading white space, a sign, an optional 0d prefix and the
  // longest digit run; no digits reads as 0.

  function DecimalPrefix(b: string): string {
    if |b| == 0 || !IsDigit(b[0], 10) then []
    else if |b| >= 3 && b[1] == '_' && IsDigit(b[2], 10) then b[..2] + DecimalPrefix(b[2..])
    else [b[0]] + DecimalPrefix(b[1..])
  }

  /** What `to_i` reads is a prefix of its input. */
  lemma {:induction false} DecimalPrefixIsPrefix(b: string)
    ensures |DecimalPrefix(b)| <= |b| && DecimalPrefix(b) == b[..|DecimalPrefix(b)|]
  {
    if |b| == 0 || !IsDigit(b[0], 10) {
    } else if |b| >= 3 && b[1] == '_' && IsDigit(b[2], 10) {
      DecimalPrefixIsPrefix(b[2..]);
      PrefixJoin(b, 2, DecimalPrefix(b[2..]));
    } else {
      DecimalPrefixIsPrefix(b[1..]);
      PrefixJoin(b, 1, DecimalPrefix(b[1..]));
    }
  }

  /** What `to_i` reads is, unless empty, a digit run. */
  lemma {:induction false} DecimalPrefixRun(b: string)
    ensures |DecimalPrefix(b)| > 0 ==> DigitRun(DecimalPrefix(b), 10)
  {
    if |b| == 0 || !IsDigit(b[0], 10) {
    } else if |b| >= 3 && b[1] == '_' && IsDigit(b[2], 10) {
      var rest := DecimalPrefix(b[2..]);
      DecimalPrefixRun(b[2..]);
      assert rest[0] == b[2];
      RunAfterUnderscore(b[0], rest);
    } else {
      var rest := DecimalPrefix(b[1..]);
      DecimalPrefixRun(b[1..]);
      DecimalPrefixIsPrefix(b[1..]);
      RunAfterDigit(b[0], rest);
    }
  }

  /** A prefix of the string's tail, put back behind its head, is a prefix again. */
  lemma PrefixJoin(b: string, n: nat, rest: string)
    requires n <= |b| && |rest| <= |b| - n && rest == b[n..][..|rest|]
    ensures b[..n] + rest == b[..n + |rest|]
  {
  }

  /** A digit followed by a digit run (or nothing) is a digit run. */
  lemma RunAfterDigit(c: char, rest: string)
    requires IsDigit(c, 10) && (|rest| > 0 ==> DigitRun(rest, 10))
    ensures DigitRun([c] + rest, 10)
  {
    var r := [c] + rest;
    forall j, k | 0 <= j < k < |r| && k == j + 1 && r[j] == '_'
      ensures r[k] != '_'
    {
      assert r[j] == rest[j - 1] && r[k] == rest[k - 1];
    }
  }

  /** A digit and an underscore before a digit run make a digit run. */
  lemma RunAfterUnderscore(c: char, rest: string)
    requires IsDigit(c, 10) && |rest| > 0 && DigitRun(rest, 10)
    ensures DigitRun([c, '_'] + rest, 10)
  {
    var r := [c, '_'] + rest;
    forall k | 0 <= k < |r|
      ensures IsDigit(r[k], 10) || r[k] == '_'
    {
      if k >= 2 {
        assert r[k] == rest[k - 2];
      }
    }
    forall j, k | 0 <= j < k < |r| && k == j + 1 && r[j] == '_'
      ensures r[k] != '_'
    {
      if j >= 2 {
        assert r[j] == rest[j - 2] && r[k] == rest[k - 2];
      }
    }
  }

  function ToI(s: string): int {
    var (negative, body) := SplitSign(DropLeadingSpace(s));
    var digits := if |body| >= 2 && body[0] == '0' && (body[1] == 'd' || body[1] == 'D') then body[2..] else body;
    var m: int := RunValue(DecimalPrefix(digits), 10);
    if negative then -m else m
  }

  // ---------------------------------------------------------------------------
  // Integer#to_s and the round trips

  function DigitChar(d: nat): char
    requires d < 10
  {
    ('0' as int + d) as char
  }

  function Digits(n: nat): (r: string)
    ensures |r| > 0
    ensures forall k :: 0 <= k < |r| ==> '0' <= r[k] <= '9'
  {
    if n < 10 then [DigitChar(n)] else Digits(n / 10) + [DigitChar(n % 10)]
  }

  /** `Integer#to_s`. */
  function DecimalString(n: int): string {
    if n < 0 then "-" + Digits(-n) else Digits(n)
  }

  lemma {:induction false} DigitsValue(n: nat)
    ensures DigitRun(Digits(n), 10)
    ensures RunValue(Digits(n), 10) == n
    ensures Digits(n)[0] == '0' <==> n == 0
  {
    if n >= 10 {
      DigitsValue(n / 10);
      var d := Digits(n);
      assert d[..|d| - 1] == Digits(n / 10);
    }
  }

  lemma {:induction false} DigitsPrefix(d: string)
    requires forall k :: 0 <= k < |d| ==> '0' <= d[k] <= '9'
    ensures DecimalPrefix(d) == d
  {
    if |d| > 0 {
      DigitsPrefix(d[1..]);
    }
  }

  lemma NoEdgeSpace(s: string)
    requires |s| > 0 && !IsAsciiSpace(s[0]) && !IsAsciiSpace(s[|s| - 1])
    ensures DropLeadingSpace(s) == s && DropTrailingSpace(s) == s
  {
  }

  lemma {:induction false} DecimalStringSplits(n: int)
    ensures DropLeadingSpace(DecimalString(n)) == DecimalString(n)
    ensures DropTrailingSpace(DecimalString(n)) == DecimalString(n)
    ensures SplitSign(DecimalString(n)) == (n < 0, Digits(if n < 0 then -n else n))
  {
    if n < 0 {
      NegSplits(-n);
    } else {
      PosSplits(n);
    }
  }
  lemma {:induction false} PosSplits(m: nat)
    ensures DropLeadingSpace(Digits(m)) == Digits(m)
    ensures DropTrailingSpace(Digits(m)) == Digits(m)
    ensures SplitSign(Digits(m)) == (false, Digits(m))
  {
    var d := Digits(m);
    assert !IsAsciiSpace(d[0]) && d[0] != '+' && d[0] != '-';
    assert !IsAsciiSpace(d[|d| - 1]);
  }
  lemma {:induction false} NegSplits(m: nat)
    requires m > 0
    ensures DropLeadingSpace("-" + Digits(m)) == "-" + Digits(m)
    ensures DropTrailingSpace("-" + Digits(m)) == "-" + Digits(m)
    ensures SplitSign("-" + Digits(m)) == (true, Digits(m))
  {
    var d := Digits(m);
    var s := "-" + d;
    assert '0' <= d[|d| - 1] <= '9';
    assert s[|s| - 1] == d[|d| - 1];
    NoEdgeSpace(s);
    assert s[1..] == d;
  }

  /** `Integer(n.to_s) == n`: every decimal rendering is an integer string, and reads
      back as the same number. */
  lemma DecimalStringParses(n: int)
    ensures ParseInteger(DecimalString(n)) == Some(n)
    ensures IsInteger(DecimalString(n))
  {
    var m: nat := if n < 0 then -n else n;
    var d := Digits(m);
    DigitsValue(m);
    DecimalStringSplits(n);
    if m == 0 {
      assert d == "0";
      assert RunValue(d, 8) == 0;
      assert ParseMagnitude(d) == Some(0);
    } else {
      assert d[0] != '0';
      assert ParseMagnitude(d) == Run(d, 10);
    }
  }

  /** A string of digits and minus signs folds to no truthy word but "1". */
  lemma NumeralWord(d: string, k: int)
    requires forall j :: 0 <= j < |d| ==> d[j] == '-' || '0' <= d[j] <= '9'
    requires 0 <= k < |TruthyWords| && FoldEq(d, TruthyWords[k])
    ensures k == 4 && d == "1"
  {
    assert Fold(d[0]) == d[0];
  }

  lemma OneParses()
    ensures ParseInteger("1") == Some(1)
  {
    assert DropLeadingSpace("1") == "1";
    assert DropTrailingSpace("1") == "1";
    assert SplitSign("1") == (false, "1");
    assert DigitRun("1", 10);
    assert RunValue("1"[..0], 10) == 0;
    assert RunValue("1", 10) == 1;
  }

  /** `n.to_s.to_bool` holds for the integer 1 and for no other integer. */
  lemma IntegerToBool(n: int)
    ensures ToBool(DecimalString(n)) <==> n == 1
  {
    var d := DecimalString(n);
    assert forall j :: 0 <= j < |d| ==> d[j] == '-' || '0' <= d[j] <= '9';
    SingleLineToBool(d);
    if n == 1 {
      assert FoldEq(d, TruthyWords[4]);
    } else if ToBool(d) {
      var k :| 0 <= k < |TruthyWords| && FoldEq(d, TruthyWords[k]);
      NumeralWord(d, k);
      DecimalStringParses(n);
      OneParses();
    }
  }

  /** `n.to_s.to_i == n`. */
  lemma DecimalStringToI(n: int)
    ensures ToI(DecimalString(n)) == n
  {
    var m: nat := if n < 0 then -n else n;
    var d := Digits(m);
    DigitsValue(m);
    DigitsPrefix(d);
    DecimalStringSplits(n);
    if m == 0 {
      assert d == "0";
    }
    assert !(|d| >= 2 && d[0] == '0');
  }

  /** `Integer("")` raises, so the empty string (and blank ones) are not integers. */
  lemma BlankIsNotInteger(s: string)
    requires forall k :: 0 <= k < |s| ==> IsAsciiSpace(s[k])
    ensures !IsInteger(s)
  {
    if |s| > 0 {
      assert IsAsciiSpace(s[0]);
    }
    assert DropLeadingSpace(s) == [];
  }
}
