/** The Python `str` built-ins that the collection pipeline relies on:
    `isspace`, `strip`, `lower`, the substring test `in`, `replace(old, "")`
    and the `int(...)` conversion of a decimal string. */
module PyStrings {
  import opened Wrappers

  /** `c.isspace()`: the Unicode characters Python treats as whitespace. */
  predicate IsSpace(c: char) {
    var n := c as int;
    (9 <= n <= 13) || (28 <= n <= 32) || n == 0x85 || n == 0xA0 || n == 0x1680
    || (0x2000 <= n <= 0x200A) || n == 0x2028 || n == 0x2029 || n == 0x202F
    || n == 0x205F || n == 0x3000
  }

  /** Neither the first nor the last character is whitespace. */
  predicate IsStripped(s: string) {
    s == [] || (!IsSpace(s[0]) && !IsSpace(s[|s| - 1]))
  }

  /** Number of whitespace characters at the front of `s`. */
  function LeadingSpaces(s: string): (n: nat)
    ensures n <= |s|
    ensures forall k :: 0 <= k < n ==> IsSpace(s[k])
    ensures n < |s| ==> !IsSpace(s[n])
  {
    if s == [] || !IsSpace(s[0]) then 0 else 1 + LeadingSpaces(s[1..])
  }

  /** Index where the whitespace run at the end of `s` begins. */
  function TrailingSpacesStart(s: string): (n: nat)
    ensures n <= |s|
    ensures forall k :: n <= k < |s| ==> IsSpace(s[k])
    ensures 0 < n ==> !IsSpace(s[n - 1])
  {
    if s == [] || !IsSpace(s[|s| - 1]) then |s| else TrailingSpacesStart(s[..|s| - 1])
  }

  /** `s.strip()`: the slice of `s` left once the whitespace runs at both ends are cut off. */
  function Strip(s: string): (r: string)
    ensures IsStripped(r)
    ensures exists i, j :: 0 <= i <= j <= |s| && r == s[i..j]
                           && (forall k :: 0 <= k < i ==> IsSpace(s[k]))
                           && (forall k :: j <= k < |s| ==> IsSpace(s[k]))
  {
    var i := LeadingSpaces(s);
    var t := s[i..];
    var j := TrailingSpacesStart(t);
    assert forall k :: i + j <= k < |s| ==> s[k] == t[k - i];
    assert t[..j] == s[i..i + j];
    t[..j]
  }

  /** Stripping leaves a string without whitespace at its ends unchanged. */
  lemma StripStripped(s: string)
    requires IsStripped(s)
    ensures Strip(s) == s
  {
  }

  /** `c.lower()` on ASCII letters. */
  function LowerChar(c: char): char {
    if 'A' <= c <= 'Z' then (c as int + 32) as char else c
  }

  /** `s.lower()`, ASCII letters only. */
  function Lower(s: string): (r: string)
    ensures |r| == |s|
  {
    seq(|s|, k requires 0 <= k < |s| => LowerChar(s[k]))
  }

  /** Lower-casing character by character: a prefix of `s` whose characters lower to `p`
      lowers to `p`. */
  lemma LowerPrefix(s: string, p: string)
    requires |p| <= |s|
    requires forall k :: 0 <= k < |p| ==> LowerChar(s[k]) == p[k]
    ensures p <= Lower(s)
  {
  }

  /** A string containing no occurrence of the first character of `sub`, except at
      positions where the rest of `sub` does not follow, does not contain `sub`. */
  lemma {:induction false} NotContains(s: string, sub: string)
    requires sub != []
    requires forall i :: 0 <= i < |s| && s[i] == sub[0] ==> !(sub <= s[i..])
    ensures !Contains(s, sub)
  {
    if s != [] {
      assert s[0..] == s;
      forall i | 0 <= i < |s[1..]| && s[1..][i] == sub[0] ensures !(sub <= s[1..][i..]) {
        assert s[1..][i..] == s[i + 1..];
      }
      NotContains(s[1..], sub);
    }
  }

  /** `sub in s`: `sub` occurs in `s` at some position. Written as a recursion so that
      literal titles are decided by evaluation; ContainsAt gives the positional reading. */
  predicate Contains(s: string, sub: string) {
    sub <= s || (s != [] && Contains(s[1..], sub))
  }

  lemma {:induction false} ContainsAt(s: string, sub: string)
    ensures Contains(s, sub) <==> exists i :: 0 <= i <= |s| && sub <= s[i..]
  {
    assert s[0..] == s;
    if s != [] {
      ContainsAt(s[1..], sub);
      if Contains(s[1..], sub) {
        var i :| 0 <= i <= |s[1..]| && sub <= s[1..][i..];
        assert s[1..][i..] == s[i + 1..];
      }
      forall i | 1 <= i <= |s| && sub <= s[i..] ensures Contains(s[1..], sub) {
        assert s[1..][i - 1..] == s[i..];
      }
    }
  }

  /** `s.replace(pat, "")` for a non-empty `pat`: one left-to-right pass deleting
      non-overlapping occurrences. */
  function RemoveAll(s: string, pat: string): (r: string)
    requires pat != []
    ensures |r| <= |s|
    ensures !Contains(s, pat) ==> r == s
    decreases |s|
  {
    if |s| < |pat| then s
    else if pat <= s then RemoveAll(s[|pat|..], pat)
    else [s[0]] + RemoveAll(s[1..], pat)
  }

  /** Deleting occurrences leaves a prefix that holds no occurrence untouched. */
  lemma {:induction false} RemoveAllPrefix(a: string, rest: string, pat: string)
    requires pat != []
    requires forall i :: 0 <= i < |a| ==> !(pat <= (a + rest)[i..])
    ensures RemoveAll(a + rest, pat) == a + RemoveAll(rest, pat)
  {
    if a != [] {
      var s := a + rest;
      if |s| < |pat| {
        assert RemoveAll(rest, pat) == rest;
      } else {
        assert s[0..] == s;
        assert !(pat <= s);
        assert RemoveAll(s, pat) == [s[0]] + RemoveAll(s[1..], pat);
        assert s[1..] == a[1..] + rest;
        forall i | 0 <= i < |a[1..]| ensures !(pat <= (a[1..] + rest)[i..]) {
          assert (a[1..] + rest)[i..] == s[i + 1..];
        }
        RemoveAllPrefix(a[1..], rest, pat);
        assert a == [a[0]] + a[1..];
      }
    }
  }

  predicate IsDigit(c: char) { '0' <= c <= '9' }

  predicate AllDigits(s: string) { forall k :: 0 <= k < |s| ==> IsDigit(s[k]) }

  /** Value of a string of decimal digits, most significant first. */
  function DigitsValue(s: string): nat
    requires AllDigits(s)
  {
    if s == [] then 0 else DigitsValue(s[..|s| - 1]) * 10 + (s[|s| - 1] as int - '0' as int)
  }

  /** `int(s)`: optional surrounding whitespace, an optional sign and at least one digit;
      `None` where Python raises `ValueError`. */
  function ParseInt(s: string): Option<int> {
    var t := Strip(s);
    if t != [] && (t[0] == '+' || t[0] == '-') then
      var d := t[1..];
      if d != [] && AllDigits(d) then
        var v: int := DigitsValue(d);
        Some(if t[0] == '-' then -v else v)
      else None
    else if t != [] && AllDigits(t) then Some(DigitsValue(t))
    else None
  }

  /** Decimal digits of `n`, without leading zeros. */
  function NatDigits(n: nat): (r: string)
    ensures r != [] && AllDigits(r)
  {
    if n < 10 then [('0' as int + n) as char]
    else NatDigits(n / 10) + [('0' as int + n % 10) as char]
  }

  /** `str(n)`. */
  function DecimalString(n: int): string {
    if n < 0 then "-" + NatDigits(-n) else NatDigits(n)
  }

  lemma {:induction false} NatDigitsValue(n: nat)
    ensures DigitsValue(NatDigits(n)) == n
  {
    if n >= 10 {
      var d := NatDigits(n);
      assert d[..|d| - 1] == NatDigits(n / 10);
      NatDigitsValue(n / 10);
    }
  }

  /** A decimal string starts with a sign or a digit and ends with a digit. */
  lemma DecimalStringStripped(n: int)
    ensures IsStripped(DecimalString(n))
  {
    var s := DecimalString(n);
    var d := if n < 0 then NatDigits(-n) else NatDigits(n);
    assert s[|s| - 1] == d[|d| - 1];
    assert IsDigit(s[|s| - 1]);
    assert s[0] == '-' || IsDigit(s[0]);
  }

  /** `int(str(n)) == n`: the counts the video API sends as decimal text parse back exactly. */
  lemma ParseDecimalString(n: int)
    ensures ParseInt(DecimalString(n)) == Some(n)
  {
    var s := DecimalString(n);
    DecimalStringStripped(n);
    StripStripped(s);
    if n < 0 {
      NatDigitsValue(-n);
      assert s[1..] == NatDigits(-n);
    } else {
      NatDigitsValue(n);
      assert IsDigit(s[0]);
    }
  }
}
