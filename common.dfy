/** Small value helpers shared by the modules that model the app:
    an Option type, decimal rendering of naturals, JavaScript's
    Math.round of a quotient, ASCII case mapping, substring search and
    the whitespace set of String.prototype.trim. */
module Common {

  datatype Option<+T> = None | Some(value: T)

  /** A geographic point in units of 1e-5 degree (the precision of the
      Encoded Polyline format); the app's floating-point degrees are
      these values divided by 1e5. */
  datatype LatLng = LatLng(lat: int, lng: int)

  /** A distance in metres between two points, as the Maps geometry
      library's computeDistanceBetween gives it. */
  type Distance = (LatLng, LatLng) -> real

  /** JavaScript's `text || fallback` on an optional string: a missing or
      empty text is falsy. */
  function OrElse(text: Option<string>, fallback: string): (r: string)
  {
    if text.Some? && text.value != "" then text.value else fallback
  }

  /** The character of a decimal digit. */
  function DigitChar(d: nat): (c: char)
    requires d < 10
    ensures '0' <= c <= '9'
    ensures c as int - '0' as int == d
  {
    (d + '0' as int) as char
  }

  /** The decimal text of `n`, as a JavaScript template literal prints an integer. */
  function NatToString(n: nat): (s: string)
    ensures |s| >= 1
    ensures forall i :: 0 <= i < |s| ==> '0' <= s[i] <= '9'
    decreases n
  {
    if n < 10 then [DigitChar(n)] else NatToString(n / 10) + [DigitChar(n % 10)]
  }

  /** The value of a string of decimal digits (the inverse of NatToString). */
  function DigitsValue(s: string): int
  {
    if s == [] then 0 else 10 * DigitsValue(s[..|s| - 1]) + (s[|s| - 1] as int - '0' as int)
  }

  lemma {:induction false} DigitsValueOfNatToString(n: nat)
    ensures DigitsValue(NatToString(n)) == n
    decreases n
  {
    if n >= 10 {
      var s := NatToString(n);
      assert s[..|s| - 1] == NatToString(n / 10);
      DigitsValueOfNatToString(n / 10);
    }
  }

  /** Distinct numbers are rendered as distinct texts. */
  lemma NatToStringInjective(m: nat, n: nat)
    requires NatToString(m) == NatToString(n)
    ensures m == n
  {
    DigitsValueOfNatToString(m);
    DigitsValueOfNatToString(n);
  }

  /** The decimal text of an integer, with a minus sign when negative:
      a sign exactly for a negative number, digits after it. */
  function IntToString(i: int): (s: string)
    ensures |s| >= 1
    ensures s[0] == '-' <==> i < 0
    ensures forall k :: (if i < 0 then 1 else 0) <= k < |s| ==> '0' <= s[k] <= '9'
  {
    if i >= 0 then NatToString(i) else "-" + NatToString(-i)
  }

  /** Distinct integers are rendered as distinct texts. */
  lemma IntToStringInjective(i: int, j: int)
    requires IntToString(i) == IntToString(j)
    ensures i == j
  {
    if i < 0 && j < 0 {
      assert IntToString(i)[1..] == NatToString(-i);
      assert IntToString(j)[1..] == NatToString(-j);
      NatToStringInjective(-i, -j);
    } else if i >= 0 && j >= 0 {
      NatToStringInjective(i, j);
    }
  }

  /** JavaScript's Math.round on a real: the nearest integer, halves
      rounded up. */
  function Round(x: real): (r: int)
    ensures r as real - 0.5 <= x < r as real + 0.5
  {
    (x + 0.5).Floor
  }

  /** Truncation toward zero: JavaScript's Math.trunc and Python's int()
      of a float. */
  function Trunc(x: real): (t: int)
    ensures x >= 0.0 ==> 0 <= t && t as real <= x < t as real + 1.0
    ensures x < 0.0 ==> t <= 0 && t as real - 1.0 < x <= t as real
  {
    if x >= 0.0 then x.Floor else -((-x).Floor)
  }

  function Min(a: int, b: int): (m: int)
    ensures m <= a && m <= b && (m == a || m == b)
  {
    if a <= b then a else b
  }

  /** JavaScript's Math.round(a / b) for a positive divisor: the nearest
      integer, with halves rounded up (toward +infinity). */
  function RoundDiv(a: int, b: int): (r: int)
    requires b > 0
    ensures 2 * b * r - b <= 2 * a < 2 * b * r + b
  {
    (2 * a + b) / (2 * b)
  }

  /** Rounding a quotient is monotone in the numerator. */
  lemma RoundDivMonotone(a: int, a': int, b: int)
    requires b > 0 && a <= a'
    ensures RoundDiv(a, b) <= RoundDiv(a', b)
  {
    var r, r' := RoundDiv(a, b), RoundDiv(a', b);
    assert 2 * b * (r - r') < 2 * b;
    ProductBelowFactor(2 * b, r - r');
  }

  lemma ProductBelowFactor(m: int, k: int)
    requires m > 0 && m * k < m
    ensures k < 1
  {
  }

  function UpperChar(c: char): (u: char)
    ensures 'a' <= c <= 'z' ==> u as int == c as int - 32
    ensures !('a' <= c <= 'z') ==> u == c
  {
    if 'a' <= c <= 'z' then (c as int - 32) as char else c
  }

  function LowerChar(c: char): (l: char)
    ensures 'A' <= c <= 'Z' ==> l as int == c as int + 32
    ensures !('A' <= c <= 'Z') ==> l == c
  {
    if 'A' <= c <= 'Z' then (c as int + 32) as char else c
  }

  predicate IsAsciiLetter(c: char)
  {
    'a' <= c <= 'z' || 'A' <= c <= 'Z'
  }

  /** String.prototype.toUpperCase, on the ASCII letters: no lower-case
      letter is left, letters stay letters, and everything else is kept. */
  function ToUpper(s: string): (u: string)
    ensures |u| == |s|
    ensures forall i :: 0 <= i < |u| ==> !('a' <= u[i] <= 'z')
    ensures forall i :: 0 <= i < |s| ==> (IsAsciiLetter(u[i]) <==> IsAsciiLetter(s[i]))
    ensures forall i :: 0 <= i < |s| && !IsAsciiLetter(s[i]) ==> u[i] == s[i]
  {
    seq(|s|, i requires 0 <= i < |s| => UpperChar(s[i]))
  }

  /** String.prototype.toLowerCase, on the ASCII letters: no upper-case
      letter is left, letters stay letters, and everything else is kept. */
  function ToLower(s: string): (l: string)
    ensures |l| == |s|
    ensures forall i :: 0 <= i < |l| ==> !('A' <= l[i] <= 'Z')
    ensures forall i :: 0 <= i < |s| ==> (IsAsciiLetter(l[i]) <==> IsAsciiLetter(s[i]))
    ensures forall i :: 0 <= i < |s| && !IsAsciiLetter(s[i]) ==> l[i] == s[i]
  {
    seq(|s|, i requires 0 <= i < |s| => LowerChar(s[i]))
  }

  /** Case mapping forgets the original case: lower-casing an upper-cased
      text gives the lower-cased text, and the other way round. */
  lemma CaseInsensitive(s: string)
    ensures ToLower(ToUpper(s)) == ToLower(s)
    ensures ToUpper(ToLower(s)) == ToUpper(s)
  {
    var u, l := ToUpper(s), ToLower(s);
    forall i | 0 <= i < |s|
      ensures LowerChar(u[i]) == LowerChar(s[i]) && UpperChar(l[i]) == UpperChar(s[i])
    {
    }
    assert ToLower(u) == ToLower(s);
    assert ToUpper(l) == ToUpper(s);
  }

  /** Mapping the case twice is mapping it once. */
  lemma CaseIdempotent(s: string)
    ensures ToUpper(ToUpper(s)) == ToUpper(s)
    ensures ToLower(ToLower(s)) == ToLower(s)
  {
    var u, l := ToUpper(s), ToLower(s);
    assert ToUpper(u) == u;
    assert ToLower(l) == l;
  }

  /** `sub` occurs in `s` starting at position i. */
  ghost predicate OccursAt(s: string, sub: string, i: int)
  {
    0 <= i && i + |sub| <= |s| && s[i..i + |sub|] == sub
  }

  /** String.prototype.includes. */
  function Contains(s: string, sub: string): bool
    decreases |s|
  {
    if |sub| <= |s| && s[..|sub|] == sub then true
    else if s == [] then false
    else Contains(s[1..], sub)
  }

  lemma {:induction false} ContainsIff(s: string, sub: string)
    ensures Contains(s, sub) <==> exists i :: OccursAt(s, sub, i)
    decreases |s|
  {
    if |sub| <= |s| && s[..|sub|] == sub {
      assert OccursAt(s, sub, 0);
    } else if s == [] {
      assert forall i :: !OccursAt(s, sub, i);
    } else {
      ContainsIff(s[1..], sub);
      if exists i :: OccursAt(s[1..], sub, i) {
        var i :| OccursAt(s[1..], sub, i);
        assert s[i + 1..i + 1 + |sub|] == s[1..][i..i + |sub|];
        assert OccursAt(s, sub, i + 1);
      }
      if exists i :: OccursAt(s, sub, i) {
        var i :| OccursAt(s, sub, i);
        assert i != 0;
        assert s[1..][i - 1..i - 1 + |sub|] == s[i..i + |sub|];
        assert OccursAt(s[1..], sub, i - 1);
      }
    }
  }

  /** The characters String.prototype.trim removes: ECMAScript's
      WhiteSpace and LineTerminator code points. */
  predicate IsJsWhitespace(c: char)
  {
    c == '\t' || c == '\n' || c == '\U{000B}' || c == '\U{000C}' || c == '\r' || c == ' '
    || c == '\U{00A0}' || c == '\U{1680}' || ('\U{2000}' <= c <= '\U{200A}')
    || c == '\U{2028}' || c == '\U{2029}' || c == '\U{202F}' || c == '\U{205F}'
    || c == '\U{3000}' || c == '\U{FEFF}'
  }

  function TrimStart(s: string): string
  {
    if s != [] && IsJsWhitespace(s[0]) then TrimStart(s[1..]) else s
  }

  function TrimEnd(s: string): string
  {
    if s != [] && IsJsWhitespace(s[|s| - 1]) then TrimEnd(s[..|s| - 1]) else s
  }

  /** String.prototype.trim. */
  function Trim(s: string): string
  {
    TrimEnd(TrimStart(s))
  }

  lemma {:induction false} TrimStartEmptyIff(s: string)
    ensures TrimStart(s) == [] <==> forall i :: 0 <= i < |s| ==> IsJsWhitespace(s[i])
    decreases |s|
  {
    if s != [] && IsJsWhitespace(s[0]) {
      TrimStartEmptyIff(s[1..]);
      assert forall i :: 1 <= i < |s| ==> s[i] == s[1..][i - 1];
    }
  }

  lemma TrimStartFirst(s: string)
    requires TrimStart(s) != []
    ensures !IsJsWhitespace(TrimStart(s)[0])
  {
  }

  lemma {:induction false} TrimEndKeepsFirst(s: string)
    requires s != [] && !IsJsWhitespace(s[0])
    ensures TrimEnd(s) != []
    decreases |s|
  {
    if IsJsWhitespace(s[|s| - 1]) {
      TrimEndKeepsFirst(s[..|s| - 1]);
    }
  }

  /** Trimming leaves nothing exactly when every character is whitespace. */
  lemma TrimEmptyIff(s: string)
    ensures Trim(s) == [] <==> forall i :: 0 <= i < |s| ==> IsJsWhitespace(s[i])
  {
    TrimStartEmptyIff(s);
    if TrimStart(s) != [] {
      TrimStartFirst(s);
      TrimEndKeepsFirst(TrimStart(s));
    }
  }

  /** The present values of a list of optional ones, in order: the
      `filter(Boolean)` that follows a map giving null for a rejected item. */
  function Present<T>(s: seq<Option<T>>): (r: seq<T>)
    ensures |r| <= |s|
  {
    if s == [] then []
    else (if s[0].Some? then [s[0].value] else []) + Present(s[1..])
  }

  /** Dropping the nulls keeps exactly the present values. */
  lemma {:induction false} PresentMembers<T>(s: seq<Option<T>>)
    ensures forall i :: 0 <= i < |Present(s)| ==> Some(Present(s)[i]) in s
    ensures forall i :: 0 <= i < |s| && s[i].Some? ==> s[i].value in Present(s)
  {
    if s != [] {
      var tail := s[1..];
      PresentMembers(tail);
      var head: seq<T> := if s[0].Some? then [s[0].value] else [];
      var rest := Present(tail);
      assert Present(s) == head + rest;
      forall i | 0 <= i < |head + rest|
        ensures Some((head + rest)[i]) in s
      {
        if i >= |head| {
          assert (head + rest)[i] == rest[i - |head|];
          var j :| 0 <= j < |tail| && tail[j] == Some(rest[i - |head|]);
          assert s[j + 1] == tail[j];
        }
      }
      forall i | 0 <= i < |s| && s[i].Some?
        ensures s[i].value in head + rest
      {
        if i > 0 {
          assert tail[i - 1] == s[i];
          assert s[i].value in rest;
        }
      }
    }
  }

  /** The elements of `s` that `p` accepts, in their order in `s`: pandas'
      boolean-mask selection and JavaScript's Array.prototype.filter. */
  function Filter<T(!new)>(s: seq<T>, p: T -> bool): (r: seq<T>)
    ensures |r| <= |s|
    ensures forall x :: x in r <==> x in s && p(x)
  {
    if s == [] then []
    else
      var init := Filter(s[..|s| - 1], p);
      var last := s[|s| - 1];
      assert s == s[..|s| - 1] + [last];
      if p(last) then init + [last] else init
  }

  /** Filtering a concatenation filters its two parts in turn. */
  lemma {:induction false} FilterAppend<T(!new)>(a: seq<T>, b: seq<T>, p: T -> bool)
    ensures Filter(a + b, p) == Filter(a, p) + Filter(b, p)
  {
    if b == [] {
      assert a + b == a;
    } else {
      var front := b[..|b| - 1];
      var last := b[|b| - 1];
      FilterAppend(a, front, p);
      assert (a + b)[..|a + b| - 1] == a + front;
      assert (a + b)[|a + b| - 1] == last;
      if p(last) {
        assert Filter(a, p) + Filter(front, p) + [last] == Filter(a, p) + (Filter(front, p) + [last]);
      }
    }
  }

  /** The first element is kept exactly when `p` accepts it, and it stays in
      front of everything kept after it: together with FilterAppend, the
      result is the accepted elements in their original order. */
  lemma FilterCons<T(!new)>(x: T, s: seq<T>, p: T -> bool)
    ensures Filter([x] + s, p) == (if p(x) then [x] else []) + Filter(s, p)
  {
    FilterAppend([x], s, p);
    assert [x][..0] == [];
  }

  /** Python's `not value` for an optional string: a missing key, null or
      the empty string. */
  predicate Falsy(value: Option<string>)
  {
    value.None? || value.value == ""
  }
}
