/** The string operations of the JavaScript runtime that the components rely on:
    the whitespace class shared by `\s` and `String.prototype.trim`, `trim` itself,
    `startsWith`, and the decimal `toString` of a bigint. */
module Text {

  /** WhiteSpace and LineTerminator code points of ECMAScript: the characters that
      `\s` matches in a regular expression and that `trim()` removes. */
  predicate IsSpace(c: char) {
    c == ' ' || c == '\t' || c == '\n' || c == '\U{B}' || c == '\U{C}' || c == '\r'
    || c == '\U{A0}' || c == '\U{1680}' || ('\U{2000}' <= c <= '\U{200A}')
    || c == '\U{2028}' || c == '\U{2029}' || c == '\U{202F}' || c == '\U{205F}'
    || c == '\U{3000}' || c == '\U{FEFF}'
  }

  predicate AllSpace(s: string) {
    forall i :: 0 <= i < |s| ==> IsSpace(s[i])
  }

  predicate StartsWith(s: string, p: string) {
    |p| <= |s| && s[..|p|] == p
  }

  function TrimStart(s: string): (r: string)
    ensures r == [] || !IsSpace(r[0])
  {
    if s != [] && IsSpace(s[0]) then TrimStart(s[1..]) else s
  }

  function TrimEnd(s: string): (r: string)
    ensures r == [] || !IsSpace(r[|r| - 1])
  {
    if s != [] && IsSpace(s[|s| - 1]) then TrimEnd(s[..|s| - 1]) else s
  }

  /** `s.trim()`. */
  function Trim(s: string): string {
    TrimEnd(TrimStart(s))
  }

  /** `!s.trim()`: the empty string is the only falsy string. */
  predicate IsBlank(s: string) {
    Trim(s) == []
  }

  lemma {:induction false} TrimStartShape(s: string)
    ensures exists k :: 0 <= k <= |s| && TrimStart(s) == s[k..] && AllSpace(s[..k])
  {
    if s != [] && IsSpace(s[0]) {
      TrimStartShape(s[1..]);
      var k :| 0 <= k <= |s[1..]| && TrimStart(s[1..]) == s[1..][k..] && AllSpace(s[1..][..k]);
      assert s[1..][k..] == s[k + 1..];
      assert s[..k + 1] == [s[0]] + s[1..][..k];
    } else {
      assert s[..0] == [];
    }
  }

  lemma {:induction false} TrimEndShape(s: string)
    ensures exists k :: 0 <= k <= |s| && TrimEnd(s) == s[..k] && AllSpace(s[k..])
  {
    if s != [] && IsSpace(s[|s| - 1]) {
      var t := s[..|s| - 1];
      TrimEndShape(t);
      var k :| 0 <= k <= |t| && TrimEnd(t) == t[..k] && AllSpace(t[k..]);
      assert t[..k] == s[..k];
      assert s[k..] == t[k..] + [s[|s| - 1]];
    } else {
      assert s[|s|..] == [];
    }
  }

  /** `trim()` keeps a contiguous middle of the string, drops only whitespace,
      and leaves no whitespace at either end. */
  lemma TrimShape(s: string)
    ensures exists i, j :: 0 <= i <= j <= |s| && Trim(s) == s[i..j] && AllSpace(s[..i]) && AllSpace(s[j..])
    ensures Trim(s) == [] || (!IsSpace(Trim(s)[0]) && !IsSpace(Trim(s)[|Trim(s)| - 1]))
  {
    TrimSlice(s);
    TrimEnds(s);
  }

  lemma TrimSlice(s: string)
    ensures exists i, j :: 0 <= i <= j <= |s| && Trim(s) == s[i..j] && AllSpace(s[..i]) && AllSpace(s[j..])
  {
    TrimStartShape(s);
    var i :| 0 <= i <= |s| && TrimStart(s) == s[i..] && AllSpace(s[..i]);
    var t := s[i..];
    TrimEndShape(t);
    var k :| 0 <= k <= |t| && TrimEnd(t) == t[..k] && AllSpace(t[k..]);
    assert t[..k] == s[i..i + k];
    assert t[k..] == s[i + k..];
    assert Trim(s) == s[i..i + k];
  }

  lemma TrimEnds(s: string)
    ensures Trim(s) == [] || (!IsSpace(Trim(s)[0]) && !IsSpace(Trim(s)[|Trim(s)| - 1]))
  {
    var t := TrimStart(s);
    TrimEndShape(t);
    var k :| 0 <= k <= |t| && TrimEnd(t) == t[..k] && AllSpace(t[k..]);
    if Trim(s) != [] {
      assert Trim(s)[0] == t[0];
    }
  }

  lemma SliceAllSpace(s: string, i: nat, j: nat)
    requires i <= j <= |s| && AllSpace(s)
    ensures AllSpace(s[i..j])
  {
    forall n | 0 <= n < j - i ensures IsSpace(s[i..j][n]) {
      assert s[i..j][n] == s[i + n];
    }
  }

  /** A string is blank for the components exactly when every character is whitespace. */
  lemma BlankIffAllSpace(s: string)
    ensures IsBlank(s) <==> AllSpace(s)
  {
    TrimShape(s);
    var i, j :| 0 <= i <= j <= |s| && Trim(s) == s[i..j] && AllSpace(s[..i]) && AllSpace(s[j..]);
    if AllSpace(s) {
      SliceAllSpace(s, i, j);
    }
    if IsBlank(s) {
      forall n | 0 <= n < |s| ensures IsSpace(s[n]) {
        if n < i { assert s[..i][n] == s[n]; } else { assert s[j..][n - j] == s[n]; }
      }
    }
  }

  lemma {:induction false} TrimStartOfUnspaced(s: string)
    requires s == [] || !IsSpace(s[0])
    ensures TrimStart(s) == s
  {
  }

  /** Trimming twice is trimming once: the text a component submits is already trimmed. */
  lemma TrimIdempotent(s: string)
    ensures Trim(Trim(s)) == Trim(s)
  {
    TrimShape(s);
    var t := Trim(s);
    TrimStartOfUnspaced(t);
    if t != [] {
      assert !IsSpace(t[|t| - 1]);
    }
  }

  function DigitChar(d: nat): (c: char)
    requires d < 10
    ensures '0' <= c <= '9'
  {
    "0123456789"[d]
  }

  function DigitValue(c: char): (d: nat)
    requires '0' <= c <= '9'
    ensures d < 10
  {
    (c - '0') as nat
  }

  /** Decimal digits of a natural number, most significant first, without leading zeros. */
  function NatToDigits(n: nat): (r: string)
    ensures |r| >= 1
    ensures forall i :: 0 <= i < |r| ==> '0' <= r[i] <= '9'
  {
    if n < 10 then [DigitChar(n)] else NatToDigits(n / 10) + [DigitChar(n % 10)]
  }

  /** The value of a string of decimal digits. */
  function DigitsValue(s: string): nat
    requires forall i :: 0 <= i < |s| ==> '0' <= s[i] <= '9'
  {
    if s == [] then 0 else 10 * DigitsValue(s[..|s| - 1]) + DigitValue(s[|s| - 1])
  }

  lemma {:induction false} DigitsRoundTrip(n: nat)
    ensures DigitsValue(NatToDigits(n)) == n
  {
    var r := NatToDigits(n);
    if n < 10 {
      assert DigitValue(DigitChar(n)) == n;
    } else {
      DigitsRoundTrip(n / 10);
      assert r[..|r| - 1] == NatToDigits(n / 10);
      assert DigitValue(DigitChar(n % 10)) == n % 10;
    }
  }

  /** `BigInt.prototype.toString()`: optional minus sign, then the decimal digits. */
  function IntToString(i: int): (r: string)
    ensures |r| >= 1
  {
    if i < 0 then "-" + NatToDigits(-i) else NatToDigits(i)
  }

  lemma NatToDigitsInjective(m: nat, n: nat)
    requires NatToDigits(m) == NatToDigits(n)
    ensures m == n
  {
    DigitsRoundTrip(m);
    DigitsRoundTrip(n);
  }

  lemma SignOfString(i: int)
    ensures IntToString(i)[0] == '-' <==> i < 0
  {
    if i >= 0 {
      assert '0' <= NatToDigits(i)[0] <= '9';
    }
  }

  /** Two ids have the same decimal text only if they are the same id. */
  lemma IntToStringInjective(i: int, j: int)
    requires IntToString(i) == IntToString(j)
    ensures i == j
  {
    SignOfString(i);
    SignOfString(j);
    if i < 0 {
      assert IntToString(i)[1..] == NatToDigits(-i);
      assert IntToString(j)[1..] == NatToDigits(-j);
      NatToDigitsInjective(-i, -j);
    } else {
      NatToDigitsInjective(i, j);
    }
  }
}
