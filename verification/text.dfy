/**
  String helpers standing in for the JavaScript built-ins the core uses:
  `startsWith`, `slice(-k)`, `substring(0, k)`, `indexOf`, `split(c)[0]` and
  `Number.prototype.toString()` on a non-negative integer.
 */
module Text {
  import opened Wrappers

  /** `s.startsWith(prefix)`. */
  predicate StartsWith(s: string, prefix: string) {
    |prefix| <= |s| && s[..|prefix|] == prefix
  }

  /** `s.slice(-k)` for k > 0: the last k characters, or all of `s` when it is shorter. */
  function Last(s: string, k: nat): (r: string)
    ensures |r| == if |s| <= k then |s| else k
    ensures r == s[|s| - |r|..]
  {
    if |s| <= k then s else s[|s| - k..]
  }

  /** `s.substring(0, k)`: the first k characters, or all of `s` when it is shorter. */
  function Take(s: string, k: nat): (r: string)
    ensures |r| == if |s| <= k then |s| else k
    ensures r == s[..|r|]
  {
    if |s| <= k then s else s[..k]
  }

  predicate IsDigit(c: char) {
    '0' <= c <= '9'
  }

  predicate AllDigits(s: string) {
    forall i | 0 <= i < |s| :: IsDigit(s[i])
  }

  function DigitValue(c: char): (d: nat)
    requires IsDigit(c)
    ensures d < 10
  {
    c as int - '0' as int
  }

  function DigitChar(d: nat): (c: char)
    requires d < 10
    ensures IsDigit(c) && DigitValue(c) == d
  {
    ('0' as int + d) as char
  }

  function Pow10(k: nat): (r: nat)
    ensures r >= 1
  {
    if k == 0 then 1 else 10 * Pow10(k - 1)
  }

  /** The decimal text of `n`, as `n.toString()` writes it: no sign, no leading zero. */
  function Decimal(n: nat): (r: string)
    ensures 1 <= |r| && AllDigits(r)
    ensures |r| > 1 ==> r[0] != '0'
    decreases n
  {
    if n < 10 then [DigitChar(n)] else Decimal(n / 10) + [DigitChar(n % 10)]
  }

  /** The number a string of decimal digits denotes (leading zeros allowed). */
  function DigitsValue(s: string): nat
    requires AllDigits(s)
  {
    if s == [] then 0 else DigitsValue(s[..|s| - 1]) * 10 + DigitValue(s[|s| - 1])
  }

  lemma DigitsValueSnoc(s: string, c: char)
    requires AllDigits(s) && IsDigit(c)
    ensures AllDigits(s + [c])
    ensures DigitsValue(s + [c]) == DigitsValue(s) * 10 + DigitValue(c)
  {
    assert (s + [c])[..|s|] == s;
  }

  /** A digit string of length k denotes a number below 10^k. */
  lemma {:induction false} DigitsValueBound(s: string)
    requires AllDigits(s)
    ensures DigitsValue(s) < Pow10(|s|)
  {
    if s != [] {
      DigitsValueBound(s[..|s| - 1]);
    }
  }

  /** A string of zeros denotes zero. */
  lemma {:induction false} ZerosValue(s: string)
    requires forall i | 0 <= i < |s| :: s[i] == '0'
    ensures AllDigits(s) && DigitsValue(s) == 0
  {
    if s != [] {
      ZerosValue(s[..|s| - 1]);
    }
  }

  /** Reading back the decimal text of `n` gives `n`. */
  lemma {:induction false} DecimalRoundTrip(n: nat)
    ensures DigitsValue(Decimal(n)) == n
    decreases n
  {
    if n >= 10 {
      DecimalRoundTrip(n / 10);
      DigitsValueSnoc(Decimal(n / 10), DigitChar(n % 10));
    }
  }

  lemma LastSnoc(s: string, c: char, k: nat)
    ensures Last(s + [c], k + 1) == Last(s, k) + [c]
  {
    if |s| > k {
      assert (s + [c])[|s| - k..] == s[|s| - k..] + [c];
    }
  }

  lemma {:induction false} MulAtLeast(m: nat, t: int)
    requires t >= 1
    ensures m * t >= m
  {
    if t > 1 {
      MulAtLeast(m, t - 1);
      assert m * t == m * (t - 1) + m;
    }
  }

  /** Euclidean remainder is determined by any quotient/remainder split of x. */
  lemma ModUnique(x: int, m: int, a: int, r: int)
    requires m > 0 && x == m * a + r && 0 <= r < m
    ensures x % m == r
  {
    var a', r' := x / m, x % m;
    assert x == m * a' + r';
    if a > a' {
      MulAtLeast(m, a - a');
    } else if a < a' {
      MulAtLeast(m, a' - a);
    }
  }

  lemma ModStep(q: nat, d: nat, p: nat)
    requires d < 10 && p >= 1
    ensures (q % p) * 10 + d == (10 * q + d) % (10 * p)
  {
    var a, b := q / p, q % p;
    assert q == p * a + b;
    assert 10 * q + d == (10 * p) * a + (10 * b + d);
    ModUnique(10 * q + d, 10 * p, a, 10 * b + d);
  }

  /** The last k characters of a digit string denote its value modulo 10^k. */
  lemma {:induction false} LastValue(s: string, k: nat)
    requires AllDigits(s)
    ensures AllDigits(Last(s, k))
    ensures DigitsValue(Last(s, k)) == DigitsValue(s) % Pow10(k)
    decreases |s|
  {
    if k == 0 || s == [] {
      assert Last(s, k) == [];
    } else {
      var init, c := s[..|s| - 1], s[|s| - 1];
      assert s == init + [c];
      LastValue(init, k - 1);
      LastValueStep(init, c, k);
    }
  }

  lemma LastValueStep(init: string, c: char, k: nat)
    requires AllDigits(init) && IsDigit(c) && k >= 1
    requires AllDigits(Last(init, k - 1))
    requires DigitsValue(Last(init, k - 1)) == DigitsValue(init) % Pow10(k - 1)
    ensures AllDigits(init + [c]) && AllDigits(Last(init + [c], k))
    ensures DigitsValue(Last(init + [c], k)) == DigitsValue(init + [c]) % Pow10(k)
  {
    LastSnocValue(init, c, k);
    DigitsValueSnoc(init, c);
    ShiftMod(DigitsValue(init), DigitValue(c), Pow10(k - 1), DigitsValue(Last(init, k - 1)),
      DigitsValue(init + [c]), Pow10(k));
  }

  lemma LastSnocValue(init: string, c: char, k: nat)
    requires IsDigit(c) && k >= 1 && AllDigits(Last(init, k - 1))
    ensures AllDigits(Last(init + [c], k))
    ensures DigitsValue(Last(init + [c], k)) == DigitsValue(Last(init, k - 1)) * 10 + DigitValue(c)
  {
    LastSnoc(init, c, k - 1);
    DigitsValueSnoc(Last(init, k - 1), c);
  }

  /** Appending a digit on the right and widening the modulus tenfold commute. */
  lemma ShiftMod(v: nat, d: nat, p: nat, x: nat, w: nat, q: nat)
    requires d < 10 && p >= 1 && x == v % p && w == v * 10 + d && q == 10 * p
    ensures x * 10 + d == w % q
  {
    ModStep(v, d, p);
  }

  /** The last k characters of `n.toString()` denote `n` modulo 10^k. */
  lemma LastDigitsValue(n: nat, k: nat)
    ensures AllDigits(Last(Decimal(n), k))
    ensures DigitsValue(Last(Decimal(n), k)) == n % Pow10(k)
  {
    LastValue(Decimal(n), k);
    DecimalRoundTrip(n);
  }

  /**
    An identifier made of a fixed prefix and the last `width` decimal digits
    of a millisecond clock reading, as in `` `BATCH${Date.now().toString().slice(-6)}` ``.
   */
  function TimeSuffixId(prefix: string, millis: nat, width: nat): (r: string)
  {
    prefix + Last(Decimal(millis), width)
  }

  /**
    A time-suffixed identifier starts with its prefix, has at most `width`
    digits after it (exactly `width` once the clock has that many digits),
    and those digits denote the clock reading modulo 10^width.
   */
  lemma TimeSuffixIdShape(prefix: string, millis: nat, width: nat)
    ensures var r := TimeSuffixId(prefix, millis, width);
      && StartsWith(r, prefix)
      && (width >= 1 ==> |prefix| + 1 <= |r| <= |prefix| + width)
      && (width >= 1 && millis >= Pow10(width - 1) ==> |r| == |prefix| + width)
      && AllDigits(r[|prefix|..])
      && DigitsValue(r[|prefix|..]) == millis % Pow10(width)
  {
    TimeSuffixDigits(prefix, millis, width);
    TimeSuffixLength(prefix, millis, width);
  }

  lemma TimeSuffixDigits(prefix: string, millis: nat, width: nat)
    ensures var r := TimeSuffixId(prefix, millis, width);
      && StartsWith(r, prefix)
      && AllDigits(r[|prefix|..])
      && DigitsValue(r[|prefix|..]) == millis % Pow10(width)
  {
    SplitAfterPrefix(prefix, Last(Decimal(millis), width));
    LastDigitsValue(millis, width);
  }

  lemma TimeSuffixLength(prefix: string, millis: nat, width: nat)
    ensures var r := TimeSuffixId(prefix, millis, width);
      && (width >= 1 ==> |prefix| + 1 <= |r| <= |prefix| + width)
      && (width >= 1 && millis >= Pow10(width - 1) ==> |r| == |prefix| + width)
  {
    if width >= 1 && millis >= Pow10(width - 1) {
      DecimalLength(millis, width - 1);
    }
  }

  lemma SplitAfterPrefix(prefix: string, suffix: string)
    ensures StartsWith(prefix + suffix, prefix)
    ensures (prefix + suffix)[|prefix|..] == suffix
    ensures |prefix + suffix| == |prefix| + |suffix|
  {
    assert (prefix + suffix)[..|prefix|] == prefix;
  }

  /** A number of at least 10^k has more than k decimal digits. */
  lemma {:induction false} DecimalLength(n: nat, k: nat)
    requires n >= Pow10(k)
    ensures |Decimal(n)| > k
    decreases k
  {
    if k > 0 {
      DecimalLength(n / 10, k - 1);
    }
  }

  /** `s.indexOf(c)`: the position of the first `c`, or None for `-1`. */
  function IndexOf(s: string, c: char): (r: Option<nat>)
    ensures r.None? <==> c !in s
    ensures r.Some? ==> r.value < |s| && s[r.value] == c && c !in s[..r.value]
  {
    if s == [] then None
    else if s[0] == c then Some(0)
    else match IndexOf(s[1..], c)
      case None => None
      case Some(i) => assert s[1..][..i] == s[1..i + 1]; Some(i + 1)
  }

  /** `s.split(c)[0]`: the text before the first `c`, or all of `s` when there is none. */
  function Before(s: string, c: char): (r: string)
    ensures c !in r
    ensures StartsWith(s, r)
    ensures |r| < |s| ==> s[|r|] == c
  {
    match IndexOf(s, c)
    case None => s
    case Some(i) => s[..i]
  }
}
