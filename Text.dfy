/** String helpers with the meaning JavaScript gives them: `String.prototype.trim`,
    `startsWith`, `includes`, `toLowerCase` (ASCII letters only), `Array.prototype.join`,
    decimal rendering of a natural number and the UTF-16 `length` of a string. */
module Text {

  /** JavaScript's WhiteSpace and LineTerminator code points: the set `\s` matches and
      the set `trim` removes. */
  predicate IsSpace(c: char) {
    var n := c as int;
    n == 0x09 || n == 0x0A || n == 0x0B || n == 0x0C || n == 0x0D || n == 0x20 ||
    n == 0xA0 || n == 0x1680 || (0x2000 <= n <= 0x200A) || n == 0x2028 || n == 0x2029 ||
    n == 0x202F || n == 0x205F || n == 0x3000 || n == 0xFEFF
  }

  /** The characters a regular-expression `.` does not match. */
  predicate IsLineTerminator(c: char) {
    c == '\n' || c == '\r' || c as int == 0x2028 || c as int == 0x2029
  }

  predicate IsDigit(c: char) { '0' <= c <= '9' }

  predicate AllSpace(s: string) { forall i :: 0 <= i < |s| ==> IsSpace(s[i]) }

  function TrimStart(s: string): (r: string)
    ensures |r| <= |s| && r == s[|s| - |r|..]
    ensures r == [] || !IsSpace(r[0])
  {
    if s == [] || !IsSpace(s[0]) then s else TrimStart(s[1..])
  }

  function TrimEnd(s: string): (r: string)
    ensures |r| <= |s| && r == s[..|r|]
    ensures r == [] || !IsSpace(r[|r| - 1])
  {
    if s == [] || !IsSpace(s[|s| - 1]) then s else TrimEnd(s[..|s| - 1])
  }

  /** `TrimStart` removes only white space. */
  lemma {:induction false} TrimStartRemovesSpace(s: string)
    ensures AllSpace(s[..|s| - |TrimStart(s)|])
  {
    if s != [] && IsSpace(s[0]) {
      TrimStartRemovesSpace(s[1..]);
      var k := |s| - |TrimStart(s)|;
      assert s[1..][..k - 1] == s[1..k];
    }
  }

  /** `TrimEnd` removes only white space. */
  lemma {:induction false} TrimEndRemovesSpace(s: string)
    ensures AllSpace(s[|TrimEnd(s)|..])
  {
    if s != [] && IsSpace(s[|s| - 1]) {
      TrimEndRemovesSpace(s[..|s| - 1]);
      var k := |TrimEnd(s)|;
      assert s[..|s| - 1][k..] == s[k..|s| - 1];
    }
  }

  /** `s.trim()`: the input with its leading and trailing white space removed. */
  function Trim(s: string): (r: string)
    ensures r == [] || (!IsSpace(r[0]) && !IsSpace(r[|r| - 1]))
  {
    TrimEnd(TrimStart(s))
  }

  /** What trimming removes is white space at both ends. */
  lemma TrimIsSlice(s: string)
    ensures exists a, b :: 0 <= a <= b <= |s| && Trim(s) == s[a..b] && AllSpace(s[..a]) && AllSpace(s[b..])
  {
    var t := TrimStart(s);
    var r := TrimEnd(t);
    var a := |s| - |t|;
    TrimStartRemovesSpace(s);
    TrimEndRemovesSpace(t);
    assert r == s[a..a + |r|];
    assert AllSpace(s[a + |r|..]) by { assert s[a + |r|..] == t[|r|..]; }
  }

  lemma TrimIdempotent(s: string)
    ensures Trim(Trim(s)) == Trim(s)
  {
    var r := Trim(s);
    if r != [] {
      assert TrimStart(r) == r;
      assert TrimEnd(r) == r;
    }
  }

  /** Trimming yields the empty string exactly when the input is all white space. */
  lemma TrimEmptyIffAllSpace(s: string)
    ensures Trim(s) == [] <==> AllSpace(s)
  {
    var t := TrimStart(s);
    TrimStartRemovesSpace(s);
    TrimEndRemovesSpace(t);
    if Trim(s) == [] {
      assert t[0..] == t;
      assert t == [];
    }
    assert s[..|s|] == s;
  }

  predicate StartsWith(s: string, p: string) {
    |p| <= |s| && s[..|p|] == p
  }

  /** Two prefixes that differ at a position inside both cannot both start a string. */
  lemma StartsWithClash(s: string, a: string, b: string, k: nat)
    requires k < |a| && k < |b| && a[k] != b[k]
    ensures StartsWith(s, a) ==> !StartsWith(s, b)
  {
    if StartsWith(s, a) {
      assert s[k] == a[k];
    }
  }

  /** `s.includes(p)`. */
  function Contains(s: string, p: string): (b: bool)
    decreases |s|
  {
    StartsWith(s, p) || (|s| > 0 && Contains(s[1..], p))
  }

  predicate OccursAt(s: string, p: string, i: int) {
    0 <= i && i + |p| <= |s| && s[i..i + |p|] == p
  }

  /** The middle of a three-part concatenation occurs in it. */
  lemma ContainsMiddle(a: string, b: string, c: string)
    ensures Contains(a + b + c, b)
  {
    assert (a + b + c)[|a|..|a| + |b|] == b;
    assert OccursAt(a + b + c, b, |a|);
    ContainsIff(a + b + c, b);
  }

  /** `Contains` is the usual "occurs at some position". */
  lemma {:induction false} ContainsIff(s: string, p: string)
    ensures Contains(s, p) <==> exists i :: OccursAt(s, p, i)
    decreases |s|
  {
    if StartsWith(s, p) {
      assert OccursAt(s, p, 0);
    } else if |s| > 0 {
      ContainsIff(s[1..], p);
      if Contains(s[1..], p) {
        var i :| OccursAt(s[1..], p, i);
        assert s[1..][i..i + |p|] == s[i + 1..i + 1 + |p|];
        assert OccursAt(s, p, i + 1);
      }
      if exists i :: OccursAt(s, p, i) {
        var i :| OccursAt(s, p, i);
        assert i != 0;
        assert s[1..][i - 1..i - 1 + |p|] == s[i..i + |p|];
        assert OccursAt(s[1..], p, i - 1);
      }
    }
  }

  /** An occurrence inside a substring is an occurrence in the whole string. */
  lemma SubstringContains(s: string, a: nat, b: nat, p: string)
    requires a <= b <= |s|
    ensures Contains(s[a..b], p) ==> Contains(s, p)
  {
    ContainsIff(s, p);
    ContainsIff(s[a..b], p);
    if Contains(s[a..b], p) {
      var i :| OccursAt(s[a..b], p, i);
      forall k | 0 <= k < |p| ensures s[a + i + k] == p[k] {
        assert s[a..b][i..i + |p|][k] == p[k];
      }
      assert s[a + i..a + i + |p|] == p;
      assert OccursAt(s, p, a + i);
    }
  }

  /** An occurrence in the second part is an occurrence in the concatenation. */
  lemma ContainsInSuffix(s: string, t: string, p: string)
    ensures Contains(t, p) ==> Contains(s + t, p)
  {
    assert (s + t)[|s|..|s + t|] == t;
    SubstringContains(s + t, |s|, |s + t|, p);
  }

  /** A string can contain a non-empty pattern only if it contains the pattern's first
      character. */
  lemma {:induction false} ContainsNeedsHead(s: string, p: string)
    requires |p| > 0
    ensures Contains(s, p) ==> p[0] in s
    decreases |s|
  {
    if |s| > 0 {
      ContainsNeedsHead(s[1..], p);
      if StartsWith(s, p) {
        assert s[0] == p[0];
      }
      if p[0] in s[1..] {
        var i :| 0 <= i < |s[1..]| && s[1..][i] == p[0];
        assert s[i + 1] == p[0];
      }
    }
  }

  /** Every string contains the empty string. */
  lemma ContainsEmpty(s: string)
    ensures Contains(s, "")
  {
    assert StartsWith(s, "");
  }

  function LowerChar(c: char): (d: char)
    ensures ('A' <= c <= 'Z') == (d != c)
    ensures !('A' <= d <= 'Z')  || d == c
  {
    if 'A' <= c <= 'Z' then (c as int + 32) as char else c
  }

  /** `s.toLowerCase()`, restricted to ASCII letters (other characters are kept). */
  function ToLower(s: string): (r: string)
    ensures |r| == |s|
    ensures forall i :: 0 <= i < |s| ==> r[i] == LowerChar(s[i])
  {
    seq(|s|, i requires 0 <= i < |s| => LowerChar(s[i]))
  }

  /** `parts.join('')`. */
  function Concat(parts: seq<string>): string {
    if parts == [] then "" else Concat(parts[..|parts| - 1]) + parts[|parts| - 1]
  }

  /** `parts.join(sep)`. */
  function Join(parts: seq<string>, sep: string): string {
    if parts == [] then ""
    else if |parts| == 1 then parts[0]
    else Join(parts[..|parts| - 1], sep) + sep + parts[|parts| - 1]
  }

  function DigitChar(d: nat): char
    requires d < 10
  {
    "0123456789"[d]
  }

  /** Decimal rendering of a natural number, as template strings print integers. */
  function NatToString(n: nat): (r: string)
    ensures |r| > 0 && forall i :: 0 <= i < |r| ==> IsDigit(r[i])
  {
    if n < 10 then [DigitChar(n)] else NatToString(n / 10) + [DigitChar(n % 10)]
  }

  function DigitValue(c: char): nat
    requires IsDigit(c)
  {
    c as int - '0' as int
  }

  function ParseNat(s: string): nat
    requires forall i :: 0 <= i < |s| ==> IsDigit(s[i])
  {
    if s == [] then 0 else 10 * ParseNat(s[..|s| - 1]) + DigitValue(s[|s| - 1])
  }

  /** The decimal rendering reads back as the same number. */
  lemma {:induction false} NatToStringRoundTrip(n: nat)
    ensures ParseNat(NatToString(n)) == n
  {
    if n >= 10 {
      NatToStringRoundTrip(n / 10);
      var s := NatToString(n);
      assert s[..|s| - 1] == NatToString(n / 10);
    }
  }

  /** Number of UTF-16 code units of a character (JavaScript strings count these). */
  function Utf16Units(c: char): nat {
    if c as int > 0xFFFF then 2 else 1
  }

  /** `s.length` in JavaScript: UTF-16 code units, not code points. */
  function Utf16Length(s: string): (n: nat)
    ensures |s| <= n <= 2 * |s|
  {
    if s == [] then 0 else Utf16Length(s[..|s| - 1]) + Utf16Units(s[|s| - 1])
  }
}
