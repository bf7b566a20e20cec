/** The handful of PHP string primitives the logging core relies on, stated
    over strings as sequences of single-byte characters: prefix and substring
    search (strpos/stripos), ASCII case mapping (strtolower/strtoupper),
    str_repeat, substr with PHP's negative-length rule, str_pad, integer to
    decimal text, explode, and PHP's truthiness of strings. */
module Strings {

  /** PHP treats "" and "0" as false in a boolean context. */
  predicate Truthy(s: string) {
    s != "" && s != "0"
  }

  /** `p` occurs in `s` starting at position `i`. */
  predicate OccursAt(s: string, p: string, i: nat) {
    i + |p| <= |s| && s[i..i + |p|] == p
  }

  /** Reference meaning of "`p` is a substring of `s`". */
  ghost predicate Contains(s: string, p: string) {
    exists i: nat :: OccursAt(s, p, i)
  }

  /** strpos: the first position at or after `from` where `p` occurs. */
  function IndexOfFrom(s: string, p: string, from: nat): (r: Search)
    requires from <= |s|
    decreases |s| - from
    ensures r.Found? ==> from <= r.index && OccursAt(s, p, r.index)
    ensures r.Found? ==> forall j: nat :: from <= j < r.index ==> !OccursAt(s, p, j)
    ensures r.NotFound? ==> forall j: nat :: from <= j ==> !OccursAt(s, p, j)
  {
    if OccursAt(s, p, from) then Found(from)
    else if from == |s| then NotFound
    else IndexOfFrom(s, p, from + 1)
  }

  /** Result of a substring search: the index, or PHP's `false`. */
  datatype Search = NotFound | Found(index: nat)

  /** strpos(s, p): the first position of `p` in `s`. An empty needle is
      found at position 0 (PHP 8 semantics). */
  function IndexOf(s: string, p: string): (r: Search)
    ensures r.Found? <==> Contains(s, p)
    ensures r.Found? ==> OccursAt(s, p, r.index) && forall j: nat :: j < r.index ==> !OccursAt(s, p, j)
  {
    var r := IndexOfFrom(s, p, 0);
    if r.Found? then r
    else
      assert !Contains(s, p) by {
        forall j: nat ensures !OccursAt(s, p, j) { }
      }
      r
  }

  /** `strpos(s, p) !== false` */
  predicate HasSubstring(s: string, p: string) {
    IndexOf(s, p).Found?
  }

  lemma EmptyNeedleIsEverywhere(s: string)
    ensures HasSubstring(s, "")
  {
    assert OccursAt(s, "", 0);
  }

  /** `strpos(s, p) === 0`: `p` is a prefix of `s`. */
  predicate StartsWith(s: string, p: string) {
    p <= s
  }

  function LowerChar(c: char): char {
    if 'A' <= c <= 'Z' then (c as int + 32) as char else c
  }

  function UpperChar(c: char): char {
    if 'a' <= c <= 'z' then (c as int - 32) as char else c
  }

  /** strtolower, ASCII letters only. */
  function Lower(s: string): (r: string)
    ensures |r| == |s|
    ensures forall i :: 0 <= i < |s| ==> r[i] == LowerChar(s[i])
  {
    seq(|s|, i requires 0 <= i < |s| => LowerChar(s[i]))
  }

  /** strtoupper, ASCII letters only. */
  function Upper(s: string): (r: string)
    ensures |r| == |s|
    ensures forall i :: 0 <= i < |s| ==> r[i] == UpperChar(s[i])
  {
    seq(|s|, i requires 0 <= i < |s| => UpperChar(s[i]))
  }

  /** stripos lower-cases both sides again; doing so changes nothing. */
  lemma LowerIdempotent(s: string)
    ensures Lower(Lower(s)) == Lower(s)
  {
  }

  /** stripos(s, p) !== false */
  predicate HasSubstringIgnoringCase(s: string, p: string) {
    HasSubstring(Lower(s), Lower(p))
  }

  /** stripos(s, p) === 0 */
  predicate StartsWithIgnoringCase(s: string, p: string) {
    StartsWith(Lower(s), Lower(p))
  }

  /** str_repeat(c, n) */
  function Repeat(c: string, n: nat): (r: string)
    ensures |r| == |c| * n
    ensures |c| == 1 ==> forall i :: 0 <= i < |r| ==> r[i] == c[0]
  {
    if n == 0 then "" else c + Repeat(c, n - 1)
  }

  /** str_repeat's result read position by position: the mask string over
      and over. */
  lemma {:induction false} RepeatAt(c: string, n: nat, i: int)
    requires |c| > 0 && 0 <= i < |c| * n
    ensures Repeat(c, n)[i] == c[i % |c|]
  {
    var k := |c|;
    assert n > 0 && Repeat(c, n) == c + Repeat(c, n - 1);
    if i < k {
      assert i % k == i;
    } else {
      assert i - k < k * (n - 1) by {
        assert k * n == k + k * (n - 1);
      }
      RepeatAt(c, n - 1, i - k);
      ModShift(i, k);
    }
  }

  lemma ModShift(i: int, k: int)
    requires k > 0
    ensures (i - k) % k == i % k
  {
    var q, r := (i - k) / k, (i - k) % k;
    assert i - k == q * k + r && 0 <= r < k;
    assert i == (q + 1) * k + r;
    assert i / k == q + 1 && i % k == r by {
      DivModUnique(i, k, q + 1, r);
    }
  }

  lemma DivModUnique(x: int, k: int, q: int, r: int)
    requires k > 0 && x == q * k + r && 0 <= r < k
    ensures x / k == q && x % k == r
  {
    var q0, r0 := x / k, x % k;
    assert x == q0 * k + r0 && 0 <= r0 < k;
    if q0 > q {
      MulMonotone(q + 1, q0, k);
    } else if q0 < q {
      MulMonotone(q0 + 1, q, k);
    }
  }

  lemma MulMonotone(a: int, b: int, k: int)
    requires a <= b && k > 0
    ensures a * k <= b * k && (a + 1) * k == a * k + k
  {
    assert b * k - a * k == (b - a) * k;
  }

  /** substr(s, 0, len): a negative length drops that many characters from
      the end. */
  function Head(s: string, len: int): (r: string)
    ensures r <= s
    ensures len >= 0 ==> |r| == if len <= |s| then len else |s|
    ensures len < 0 ==> |r| == if |s| + len > 0 then |s| + len else 0
  {
    if len >= 0 then (if len <= |s| then s[..len] else s)
    else if |s| + len > 0 then s[..|s| + len]
    else ""
  }

  function DigitChar(d: nat): char
    requires d < 10
  {
    ('0' as int + d) as char
  }

  predicate IsDigit(c: char) {
    '0' <= c <= '9'
  }

  predicate AllDigits(s: string) {
    forall i :: 0 <= i < |s| ==> IsDigit(s[i])
  }

  /** Decimal text of a natural number, without leading zeros. */
  function NatToString(n: nat): (r: string)
    ensures |r| >= 1 && AllDigits(r)
  {
    if n < 10 then [DigitChar(n)] else NatToString(n / 10) + [DigitChar(n % 10)]
  }

  /** `(string) $i` for an integer. */
  function IntToString(i: int): (r: string)
    ensures |r| >= 1
  {
    if i < 0 then "-" + NatToString(-i) else NatToString(i)
  }

  /** Value of a string of decimal digits; the independent reading of a
      rendered number. */
  function DigitsValue(s: string): nat
    requires AllDigits(s)
  {
    if s == [] then 0
    else DigitsValue(s[..|s| - 1]) * 10 + (s[|s| - 1] as int - '0' as int)
  }

  function Pow10(k: nat): (r: nat)
    ensures r >= 1
  {
    if k == 0 then 1 else 10 * Pow10(k - 1)
  }

  /** Reading back the rendered decimal text yields the number. */
  lemma {:induction false} NatToStringRoundTrip(n: nat)
    ensures DigitsValue(NatToString(n)) == n
  {
    if n >= 10 {
      var s := NatToString(n);
      assert s[..|s| - 1] == NatToString(n / 10);
      NatToStringRoundTrip(n / 10);
    }
  }

  /** A number below 10^k renders in at most k digits. */
  lemma {:induction false} NatToStringWidth(n: nat, k: nat)
    requires k >= 1 && n < Pow10(k)
    ensures |NatToString(n)| <= k
  {
    if n >= 10 {
      assert k >= 2;
      NatToStringWidth(n / 10, k - 1);
    }
  }

  /** Leading zeros do not change the value of a digit string. */
  lemma {:induction false} LeadingZerosValue(k: nat, s: string)
    requires AllDigits(s)
    ensures AllDigits(Repeat("0", k) + s)
    ensures DigitsValue(Repeat("0", k) + s) == DigitsValue(s)
    decreases |s|
  {
    var z := Repeat("0", k);
    assert AllDigits(z + s);
    if s == [] {
      assert z + s == z;
      ZerosValue(k);
    } else {
      var t := z + s;
      assert t[..|t| - 1] == z + s[..|s| - 1];
      LeadingZerosValue(k, s[..|s| - 1]);
    }
  }

  lemma {:induction false} ZerosValue(k: nat)
    ensures AllDigits(Repeat("0", k))
    ensures DigitsValue(Repeat("0", k)) == 0
  {
    if k > 0 {
      var z := Repeat("0", k);
      assert z == Repeat("0", k - 1) + "0" by { RepeatSnoc("0", k); }
      assert z[..|z| - 1] == Repeat("0", k - 1);
      ZerosValue(k - 1);
    }
  }

  lemma {:induction false} RepeatSnoc(c: string, n: nat)
    requires n >= 1
    ensures Repeat(c, n) == Repeat(c, n - 1) + c
  {
    if n > 1 {
      RepeatSnoc(c, n - 1);
    }
  }

  /** str_pad(s, width, pad, STR_PAD_LEFT) with a one-character pad. */
  function PadLeft(s: string, width: nat, pad: char): (r: string)
    ensures |s| >= width ==> r == s
    ensures |s| < width ==> |r| == width && r[width - |s|..] == s
    ensures |s| < width ==> forall i :: 0 <= i < width - |s| ==> r[i] == pad
  {
    if |s| >= width then s else Repeat([pad], width - |s|) + s
  }

  /** explode(sep, s) for a one-character separator. */
  function Explode(sep: char, s: string): (r: seq<string>)
    ensures |r| >= 1
    ensures forall i :: 0 <= i < |r| ==> sep !in r[i]
  {
    if sep !in s then [s]
    else
      var k := FirstIndex(s, sep);
      [s[..k]] + Explode(sep, s[k + 1..])
  }

  function FirstIndex(s: string, c: char): (k: nat)
    requires c in s
    ensures k < |s| && s[k] == c && c !in s[..k]
  {
    if s[0] == c then 0 else 1 + FirstIndex(s[1..], c)
  }

  /** Splitting the empty string yields one empty piece, not none. */
  lemma ExplodeEmpty(sep: char)
    ensures Explode(sep, "") == [""]
  {
  }

  /** Joining the pieces of explode with the separator gives back the input. */
  lemma {:induction false} ExplodeJoin(sep: char, s: string)
    ensures Join(sep, Explode(sep, s)) == s
    decreases |s|
  {
    if sep in s {
      var k := FirstIndex(s, sep);
      var parts := Explode(sep, s[k + 1..]);
      assert Explode(sep, s) == [s[..k]] + parts;
      assert |[s[..k]] + parts| > 1 && ([s[..k]] + parts)[1..] == parts;
      assert Join(sep, Explode(sep, s)) == s[..k] + [sep] + Join(sep, parts);
      ExplodeJoin(sep, s[k + 1..]);
      assert s == s[..k] + [sep] + s[k + 1..];
    }
  }

  function Join(sep: char, parts: seq<string>): string
    requires |parts| >= 1
  {
    if |parts| == 1 then parts[0] else parts[0] + [sep] + Join(sep, parts[1..])
  }

  /** str_replace(' ', '', s) */
  function RemoveSpaces(s: string): (r: string)
    ensures ' ' !in r
    ensures |r| <= |s|
  {
    if s == [] then ""
    else (if s[0] == ' ' then "" else [s[0]]) + RemoveSpaces(s[1..])
  }

  /** substr_count(s, p): non-overlapping occurrences, left to right. */
  function CountOccurrences(s: string, p: string): nat
    requires |p| >= 1
    decreases |s|
  {
    if |s| < |p| then 0
    else if s[..|p|] == p then 1 + CountOccurrences(s[|p|..], p)
    else CountOccurrences(s[1..], p)
  }

  /** There are occurrences to count exactly when `p` is a substring. */
  lemma {:induction false} CountPositiveIffContains(s: string, p: string)
    requires |p| >= 1
    ensures CountOccurrences(s, p) > 0 <==> Contains(s, p)
    decreases |s|
  {
    if |s| < |p| {
      forall i: nat ensures !OccursAt(s, p, i) { }
    } else if s[..|p|] == p {
      assert OccursAt(s, p, 0);
    } else {
      CountPositiveIffContains(s[1..], p);
      if Contains(s, p) {
        var i: nat :| OccursAt(s, p, i);
        assert i != 0;
        assert s[1..][i - 1..i - 1 + |p|] == s[i..i + |p|];
        assert OccursAt(s[1..], p, i - 1);
      }
      if Contains(s[1..], p) {
        var i: nat :| OccursAt(s[1..], p, i);
        assert s[i + 1..i + 1 + |p|] == s[1..][i..i + |p|];
        assert OccursAt(s, p, i + 1);
      }
    }
  }
}
