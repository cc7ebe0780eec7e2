/** The string operations of the JavaScript runtime that the routes and the
    panel script rely on: `trim`, `toLowerCase`, `includes`, `String(n)` of an
    integral number and `parseInt(s, 10)`. */
module Text {
  import opened Seqs

  /** JavaScript's WhiteSpace and LineTerminator characters: exactly what
      `String.prototype.trim` and `parseInt` skip. */
  predicate IsSpace(c: char) {
    c == '\t' || c == '\n' || c == '\U{0B}' || c == '\U{0C}' || c == '\r' || c == ' '
    || c == '\U{A0}' || c == '\U{1680}' || ('\U{2000}' <= c <= '\U{200A}')
    || c == '\U{2028}' || c == '\U{2029}' || c == '\U{202F}' || c == '\U{205F}'
    || c == '\U{3000}' || c == '\U{FEFF}'
  }

  predicate IsUpper(c: char) { 'A' <= c <= 'Z' }

  function LowerChar(c: char): (d: char)
    ensures !IsUpper(d)
    ensures IsUpper(c) ==> d as int == c as int + 32
    ensures !IsUpper(c) ==> d == c
  {
    if IsUpper(c) then (c as int + 32) as char else c
  }

  /** `s.toLowerCase()` on the letters A to Z. */
  function Lower(s: string): (r: string)
    ensures |r| == |s|
    ensures forall i :: 0 <= i < |s| ==> r[i] == LowerChar(s[i])
  {
    seq(|s|, i requires 0 <= i < |s| => LowerChar(s[i]))
  }

  /** `s.trimStart()`: the suffix of `s` left once the leading white space is gone. */
  function TrimStart(s: string): (r: string)
    ensures |r| <= |s|
    ensures forall i :: 0 <= i < |s| - |r| ==> IsSpace(s[i])
    ensures r == [] || !IsSpace(r[0])
  {
    if s != [] && IsSpace(s[0]) then TrimStart(s[1..]) else s
  }

  /** What `trimStart` keeps is a suffix of the string. */
  lemma {:induction false} TrimStartIsSuffix(s: string)
    ensures TrimStart(s) == s[|s| - |TrimStart(s)|..]
  {
    if s != [] && IsSpace(s[0]) {
      TrimStartIsSuffix(s[1..]);
    }
  }

  /** `s.trimEnd()`: the prefix of `s` left once the trailing white space is gone. */
  function TrimEnd(s: string): (r: string)
    ensures |r| <= |s|
    ensures forall i :: |r| <= i < |s| ==> IsSpace(s[i])
    ensures r == [] || !IsSpace(r[|r| - 1])
  {
    if s != [] && IsSpace(s[|s| - 1]) then TrimEnd(s[..|s| - 1]) else s
  }

  /** What `trimEnd` keeps is a prefix of the string. */
  lemma {:induction false} TrimEndIsPrefix(s: string)
    ensures TrimEnd(s) == s[..|TrimEnd(s)|]
  {
    if s != [] && IsSpace(s[|s| - 1]) {
      TrimEndIsPrefix(s[..|s| - 1]);
    }
  }

  /** `s.trim()`: `s` without white space at either end. */
  function Trim(s: string): (r: string)
    ensures |r| <= |s|
    ensures r == [] || (!IsSpace(r[0]) && !IsSpace(r[|r| - 1]))
  {
    var t := TrimStart(s);
    TrimEndIsPrefix(t);
    TrimEnd(t)
  }

  /** `r` is the piece of `s` at `a`, and everything before and after it
      is white space. */
  predicate TrimmedAt(s: string, r: string, a: int) {
    && SliceAt(s, r, a)
    && (forall i :: 0 <= i < a ==> IsSpace(s[i]))
    && (forall i :: a + |r| <= i < |s| ==> IsSpace(s[i]))
  }

  /** What `trim` keeps is one contiguous piece of the string, and all it
      cuts on either side is white space. */
  lemma TrimIsSlice(s: string)
    ensures exists a :: TrimmedAt(s, Trim(s), a)
  {
    var t := TrimStart(s);
    var r := Trim(s);
    var a := |s| - |t|;
    TrimStartIsSuffix(s);
    TrimEndIsPrefix(t);
    assert SliceAt(s, r, a);
    assert forall i :: a + |r| <= i < |s| ==> IsSpace(s[i]) by {
      forall i | a + |r| <= i < |s|
        ensures IsSpace(s[i])
      {
        assert s[i] == t[i - a];
      }
    }
    assert TrimmedAt(s, r, a);
  }

  /** `s.toLowerCase().trim()`: the routes' normal form of an email address. */
  function Normalize(s: string): string {
    Trim(Lower(s))
  }

  /** `t` occurs in `s` starting at index `i`. */
  predicate SliceAt(s: string, t: string, i: int) {
    0 <= i <= |s| - |t| && s[i..i + |t|] == t
  }

  /** `s.includes(t)`. */
  predicate Contains(s: string, t: string) {
    exists i :: 0 <= i <= |s| - |t| && SliceAt(s, t, i)
  }

  lemma TrimStartOfTrimmed(s: string)
    requires s == [] || !IsSpace(s[0])
    ensures TrimStart(s) == s
  {
  }

  lemma TrimEndOfTrimmed(s: string)
    requires s == [] || !IsSpace(s[|s| - 1])
    ensures TrimEnd(s) == s
  {
  }

  /** Trimming twice is trimming once. */
  lemma TrimIdempotent(s: string)
    ensures Trim(Trim(s)) == Trim(s)
  {
    var r := Trim(s);
    TrimStartOfTrimmed(r);
    TrimEndOfTrimmed(r);
  }

  /** Lower-casing does not move white space: the routes' `toLowerCase().trim()`
      equals trimming first and lower-casing after. */
  lemma {:induction false} TrimLowerCommute(s: string)
    ensures Trim(Lower(s)) == Lower(Trim(s))
  {
    TrimStartLower(s);
    TrimEndLower(TrimStart(s));
  }

  lemma {:induction false} TrimStartLower(s: string)
    ensures TrimStart(Lower(s)) == Lower(TrimStart(s))
    decreases |s|
  {
    if s != [] {
      assert Lower(s)[0] == LowerChar(s[0]);
      assert IsSpace(s[0]) <==> IsSpace(LowerChar(s[0]));
      if IsSpace(s[0]) {
        assert Lower(s)[1..] == Lower(s[1..]);
        TrimStartLower(s[1..]);
      }
    }
  }

  lemma {:induction false} TrimEndLower(s: string)
    ensures TrimEnd(Lower(s)) == Lower(TrimEnd(s))
    decreases |s|
  {
    if s != [] {
      var n := |s| - 1;
      assert Lower(s)[n] == LowerChar(s[n]);
      assert IsSpace(s[n]) <==> IsSpace(LowerChar(s[n]));
      if IsSpace(s[n]) {
        assert Lower(s)[..n] == Lower(s[..n]);
        TrimEndLower(s[..n]);
      }
    }
  }

  lemma LowerIdempotent(s: string)
    ensures Lower(Lower(s)) == Lower(s)
  {
  }

  /** A normalised address is its own normal form, so comparing a normalised
      candidate with a normalised target is insensitive to case and to white
      space around either. */
  lemma NormalizeIdempotent(s: string)
    ensures Normalize(Normalize(s)) == Normalize(s)
  {
    var l := Lower(s);
    var t := Trim(l);
    TrimKeepsLowered(l);
    LowerOfLowered(t);
    TrimIdempotent(l);
  }

  lemma TrimKeepsLowered(l: string)
    requires forall i :: 0 <= i < |l| ==> !IsUpper(l[i])
    ensures forall i :: 0 <= i < |Trim(l)| ==> !IsUpper(Trim(l)[i])
  {
    var t := Trim(l);
    TrimIsSlice(l);
    var a :| TrimmedAt(l, t, a);
    assert l[a..a + |t|] == t;
    forall i | 0 <= i < |t| ensures !IsUpper(t[i]) {
      assert t[i] == l[a + i];
    }
  }

  lemma LowerOfLowered(s: string)
    requires forall i :: 0 <= i < |s| ==> !IsUpper(s[i])
    ensures Lower(s) == s
  {
  }

  /** Normalising ignores white space already trimmed away. */
  lemma NormalizeOfTrim(s: string)
    ensures Normalize(Trim(s)) == Normalize(s)
  {
    TrimLowerCommute(Trim(s));
    TrimIdempotent(s);
    TrimLowerCommute(s);
  }

  /** `includes` is transitive: a text containing a longer term contains every
      part of it. */
  lemma ContainsTransitive(s: string, t: string, u: string)
    requires Contains(s, t) && Contains(t, u)
    ensures Contains(s, u)
  {
    var i :| 0 <= i <= |s| - |t| && SliceAt(s, t, i);
    var j :| 0 <= j <= |t| - |u| && SliceAt(t, u, j);
    assert s[i..i + |t|] == t && t[j..j + |u|] == u;
    assert SliceAt(s, u, i + j) by {
      forall k | 0 <= k < |u| ensures s[i + j + k] == u[k] {
        assert t[j + k] == u[k];
        assert s[i + (j + k)] == t[j + k];
      }
    }
  }

  // ---------------------------------------------------------------------
  // Decimal numerals: `String(n)` for an integral number and `parseInt(s, 10)`.

  predicate IsDigit(c: char) { '0' <= c <= '9' }

  function DigitChar(d: nat): (c: char)
    requires d < 10
    ensures IsDigit(c) && c as int - '0' as int == d
  {
    ('0' as int + d) as char
  }

  function DigitVal(c: char): nat
    requires IsDigit(c)
  {
    c as int - '0' as int
  }

  /** `String(n)` for a natural number: its decimal numeral, without leading zeros. */
  function NatToString(n: nat): (r: string)
    ensures r != [] && forall i :: 0 <= i < |r| ==> IsDigit(r[i])
    ensures r[0] != '0' || r == "0"
  {
    if n < 10 then [DigitChar(n)] else NatToString(n / 10) + [DigitChar(n % 10)]
  }

  /** `String(n)` for an integral number. */
  function IntToString(n: int): string {
    if n < 0 then "-" + NatToString(-n) else NatToString(n)
  }

  /** The longest prefix of `s` made of decimal digits. */
  function DigitPrefix(s: string): (r: string)
    ensures |r| <= |s| && r == s[..|r|]
    ensures forall i :: 0 <= i < |r| ==> IsDigit(r[i])
    ensures |r| < |s| ==> !IsDigit(s[|r|])
  {
    if s != [] && IsDigit(s[0]) then [s[0]] + DigitPrefix(s[1..]) else []
  }

  /** The value of a decimal numeral. */
  function DigitsValue(ds: string): nat
    requires forall i :: 0 <= i < |ds| ==> IsDigit(ds[i])
  {
    if ds == [] then 0 else 10 * DigitsValue(ds[..|ds| - 1]) + DigitVal(ds[|ds| - 1])
  }

  /** `parseInt(s, 10)`, with `NaN` as `None`: leading white space is skipped,
      one sign is read, then the longest run of digits; no digits is `NaN`. */
  function ParseInt(s: string): (r: Option<int>)
    ensures r.None? <==> DigitPrefix(UnsignedPart(TrimStart(s))) == []
  {
    var t := TrimStart(s);
    var digits := DigitPrefix(UnsignedPart(t));
    var v: int := if digits == [] then 0 else DigitsValue(digits);
    if digits == [] then None
    else if t[0] == '-' then Some(-v)
    else Some(v)
  }

  /** `t` without the one leading sign character it may have. */
  function UnsignedPart(t: string): string {
    if t != [] && (t[0] == '-' || t[0] == '+') then t[1..] else t
  }

  lemma {:induction false} DigitPrefixOfDigits(ds: string)
    requires forall i :: 0 <= i < |ds| ==> IsDigit(ds[i])
    ensures DigitPrefix(ds) == ds
  {
    if ds != [] {
      DigitPrefixOfDigits(ds[1..]);
    }
  }

  lemma {:induction false} NatToStringValue(n: nat)
    ensures DigitsValue(NatToString(n)) == n
  {
    if n >= 10 {
      var r := NatToString(n);
      assert r[..|r| - 1] == NatToString(n / 10);
      NatToStringValue(n / 10);
    }
  }

  /** `parseInt` reads back what `String` writes: a status label key made from
      an integral label id parses to that id. */
  lemma ParseIntOfIntToString(n: int)
    ensures ParseInt(IntToString(n)) == Some(n)
  {
    var m: nat := if n < 0 then -n else n;
    var ds := NatToString(m);
    var s := IntToString(n);
    assert IsDigit(ds[0]);
    assert s[0] == '-' || s[0] == ds[0];
    TrimStartOfTrimmed(s);
    if n < 0 {
      assert s == "-" + ds;
      assert UnsignedPart(s) == ds;
    } else {
      assert s == ds;
      assert UnsignedPart(s) == ds;
    }
    DigitPrefixOfDigits(ds);
    NatToStringValue(m);
  }
}
