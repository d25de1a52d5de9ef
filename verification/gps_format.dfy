/**
  The `"lat,lng"` format of the registration form's GPS field.

  The field is checked against the regular expression
    ^[-+]?([1-8]?\d(\.\d+)?|90(\.0+)?),\s*[-+]?(180(\.0+)?|((1[0-7]\d)|([1-9]?\d))(\.\d+)?)$
  whose `\d` is an ASCII digit and whose `\s` is the ECMAScript white-space
  class. `GpsPattern` restates that language piece by piece; `ParseGps` is a
  hand-written scanner that decides it and also yields the two numbers.
 */
module GpsFormat {
  import opened Wrappers
  import opened Text

  // ---------------------------------------------------------------------------
  // The language of the regular expression

  /** `\s` in an ECMAScript regular expression: white space and line terminators. */
  predicate IsJsWhitespace(c: char) {
    c == '\t' || c == '\n' || c == '\U{000B}' || c == '\U{000C}' || c == '\r' || c == ' '
    || c == '\U{00A0}' || c == '\U{1680}' || ('\U{2000}' <= c <= '\U{200A}')
    || c == '\U{2028}' || c == '\U{2029}' || c == '\U{202F}' || c == '\U{205F}'
    || c == '\U{3000}' || c == '\U{FEFF}'
  }

  predicate AllWhitespace(s: string) {
    forall i | 0 <= i < |s| :: IsJsWhitespace(s[i])
  }

  predicate IsSign(c: char) {
    c == '+' || c == '-'
  }

  /** `\.\d+` */
  predicate IsFraction(f: string) {
    |f| >= 2 && f[0] == '.' && AllDigits(f[1..])
  }

  /** `(\.\d+)?` */
  predicate OptFraction(f: string) {
    f == [] || IsFraction(f)
  }

  /** `(\.0+)?` */
  predicate OptZeroFraction(f: string) {
    f == [] || (|f| >= 2 && f[0] == '.' && forall i | 1 <= i < |f| :: f[i] == '0')
  }

  /** `[1-8]?\d`: 0 to 89 without a leading zero. */
  predicate LatIntText(s: string) {
    (|s| == 1 && IsDigit(s[0])) || (|s| == 2 && '1' <= s[0] <= '8' && IsDigit(s[1]))
  }

  /** `(1[0-7]\d)|([1-9]?\d)`: 0 to 179 without a leading zero. */
  predicate LngIntText(s: string) {
    (|s| == 1 && IsDigit(s[0]))
    || (|s| == 2 && '1' <= s[0] <= '9' && IsDigit(s[1]))
    || (|s| == 3 && s[0] == '1' && '0' <= s[1] <= '7' && IsDigit(s[2]))
  }

  /** `[1-8]?\d(\.\d+)?|90(\.0+)?` */
  predicate LatMagnitudeText(t: string) {
    (exists k | 1 <= k <= 2 && k <= |t| :: LatIntText(t[..k]) && OptFraction(t[k..]))
    || (|t| >= 2 && t[..2] == "90" && OptZeroFraction(t[2..]))
  }

  /** `180(\.0+)?|((1[0-7]\d)|([1-9]?\d))(\.\d+)?` */
  predicate LngMagnitudeText(t: string) {
    (exists k | 1 <= k <= 3 && k <= |t| :: LngIntText(t[..k]) && OptFraction(t[k..]))
    || (|t| >= 3 && t[..3] == "180" && OptZeroFraction(t[3..]))
  }

  /** `[-+]?` followed by a latitude magnitude. */
  predicate LatitudeText(t: string) {
    LatMagnitudeText(t) || (|t| >= 1 && IsSign(t[0]) && LatMagnitudeText(t[1..]))
  }

  /** `[-+]?` followed by a longitude magnitude. */
  predicate LongitudeText(t: string) {
    LngMagnitudeText(t) || (|t| >= 1 && IsSign(t[0]) && LngMagnitudeText(t[1..]))
  }

  /** The whole anchored pattern: latitude, a comma, optional white space, longitude. */
  predicate GpsPattern(s: string) {
    exists i, j | 0 <= i < j <= |s| ::
      s[i] == ',' && LatitudeText(s[..i]) && AllWhitespace(s[i + 1..j]) && LongitudeText(s[j..])
  }

  // ---------------------------------------------------------------------------
  // The scanner

  datatype Coordinates = Coordinates(latitude: real, longitude: real)

  /** The length of the longest prefix made of characters satisfying `p`. */
  function RunLength(t: string, p: char -> bool): (n: nat)
    ensures n <= |t|
    ensures forall i | 0 <= i < n :: p(t[i])
    ensures n < |t| ==> !p(t[n])
  {
    if t == [] || !p(t[0]) then 0
    else
      var n := RunLength(t[1..], p);
      assert forall i | 1 <= i < n + 1 :: t[i] == t[1..][i - 1];
      n + 1
  }

  /** A run ends exactly where a character outside the class first appears. */
  lemma RunLengthUnique(t: string, p: char -> bool, k: nat)
    requires k <= |t| && (forall i | 0 <= i < k :: p(t[i])) && (k < |t| ==> !p(t[k]))
    ensures RunLength(t, p) == k
  {
  }

  /** The value of the digits after a decimal point: 0.d1d2... */
  function FractionValue(ds: string): (v: real)
    requires AllDigits(ds)
    ensures 0.0 <= v < 1.0
    ensures (forall i | 0 <= i < |ds| :: ds[i] == '0') ==> v == 0.0
  {
    if ds == [] then 0.0
    else
      assert AllDigits(ds[1..]) by { assert forall i | 0 <= i < |ds[1..]| :: ds[1..][i] == ds[i + 1]; }
      var rest := FractionValue(ds[1..]);
      assert (forall i | 0 <= i < |ds| :: ds[i] == '0') ==> rest == 0.0 by {
        if forall i | 0 <= i < |ds| :: ds[i] == '0' {
          assert forall i | 0 <= i < |ds[1..]| :: ds[1..][i] == ds[i + 1];
        }
      }
      (DigitValue(ds[0]) as real + rest) / 10.0
  }

  /** The value of an optional fraction `(\.\d+)?`. */
  function OptFractionValue(f: string): (v: real)
    requires OptFraction(f)
    ensures 0.0 <= v < 1.0
  {
    if f == [] then 0.0 else FractionValue(f[1..])
  }

  /** The number a digit run denotes, as a real. */
  function IntValue(ds: string): (v: real)
    requires AllDigits(ds)
    ensures v >= 0.0
  {
    DigitsValue(ds) as real
  }

  /**
    Scan a latitude magnitude: take the maximal digit run; it must be a
    valid integer part followed by an optional fraction, or `90` followed
    by an optional all-zero fraction.
   */
  function ScanLatMagnitude(t: string): (r: Option<real>)
    ensures r.Some? ==> 0.0 <= r.value <= 90.0
  {
    var n := RunLength(t, IsDigit);
    var ds, rest := t[..n], t[n..];
    assert AllDigits(ds);
    if LatIntText(ds) && OptFraction(rest) then
      LatIntBound(ds);
      Some(IntValue(ds) + OptFractionValue(rest))
    else if ds == "90" && OptZeroFraction(rest) then Some(90.0)
    else None
  }

  /** Scan a longitude magnitude the same way, with `180` as the exceptional integer part. */
  function ScanLngMagnitude(t: string): (r: Option<real>)
    ensures r.Some? ==> 0.0 <= r.value <= 180.0
  {
    var n := RunLength(t, IsDigit);
    var ds, rest := t[..n], t[n..];
    assert AllDigits(ds);
    if LngIntText(ds) && OptFraction(rest) then
      LngIntBound(ds);
      Some(IntValue(ds) + OptFractionValue(rest))
    else if ds == "180" && OptZeroFraction(rest) then Some(180.0)
    else None
  }

  /** An optional sign in front of a magnitude; `-` negates it. */
  function ScanSigned(t: string, magnitude: string -> Option<real>): Option<real> {
    if |t| >= 1 && IsSign(t[0]) then
      match magnitude(t[1..])
      case None => None
      case Some(v) => Some(if t[0] == '-' then -v else v)
    else magnitude(t)
  }

  function ScanLatitude(t: string): (r: Option<real>)
    ensures r.Some? ==> -90.0 <= r.value <= 90.0
  {
    ScanSigned(t, ScanLatMagnitude)
  }

  function ScanLongitude(t: string): (r: Option<real>)
    ensures r.Some? ==> -180.0 <= r.value <= 180.0
  {
    ScanSigned(t, ScanLngMagnitude)
  }

  /**
    The GPS field scanner: split at the first comma, scan the latitude
    before it, skip the white space after it, and scan the rest as the
    longitude.
   */
  function ParseGps(s: string): (r: Option<Coordinates>)
    ensures r.Some? ==> -90.0 <= r.value.latitude <= 90.0 && -180.0 <= r.value.longitude <= 180.0
  {
    match IndexOf(s, ',')
    case None => None
    case Some(i) => ParseParts(s[..i], s[i + 1..])
  }

  /** The latitude text before the comma and everything after it. */
  function ParseParts(lat: string, rest: string): (r: Option<Coordinates>)
    ensures r.Some? <==> ScanLatitude(lat).Some? && ScanLongitude(LongitudePart(rest)).Some?
    ensures r.Some? ==> r.value == Coordinates(ScanLatitude(lat).value, ScanLongitude(LongitudePart(rest)).value)
  {
    var a, b := ScanLatitude(lat), ScanLongitude(LongitudePart(rest));
    if a.Some? && b.Some? then Some(Coordinates(a.value, b.value)) else None
  }

  /** What follows the comma once the leading white space is skipped. */
  function LongitudePart(rest: string): string {
    rest[RunLength(rest, IsJsWhitespace)..]
  }

  // ---------------------------------------------------------------------------
  // The scanner decides the language

  lemma LatMagnitudeExact(t: string)
    ensures ScanLatMagnitude(t).Some? <==> LatMagnitudeText(t)
  {
    var n := RunLength(t, IsDigit);
    if LatMagnitudeText(t) {
      if k :| 1 <= k <= 2 && k <= |t| && LatIntText(t[..k]) && OptFraction(t[k..]) {
        RunLengthUnique(t, IsDigit, k);
      } else {
        RunLengthUnique(t, IsDigit, 2);
      }
    }
    if ScanLatMagnitude(t).Some? {
      if !(LatIntText(t[..n]) && OptFraction(t[n..])) {
        assert t[..2] == "90";
      }
    }
  }

  lemma LngMagnitudeExact(t: string)
    ensures ScanLngMagnitude(t).Some? <==> LngMagnitudeText(t)
  {
    var n := RunLength(t, IsDigit);
    if LngMagnitudeText(t) {
      if k :| 1 <= k <= 3 && k <= |t| && LngIntText(t[..k]) && OptFraction(t[k..]) {
        RunLengthUnique(t, IsDigit, k);
      } else {
        RunLengthUnique(t, IsDigit, 3);
      }
    }
    if ScanLngMagnitude(t).Some? {
      if !(LngIntText(t[..n]) && OptFraction(t[n..])) {
        assert t[..3] == "180";
      }
    }
  }

  /** A magnitude starts with a digit, so it never starts with a sign. */
  lemma MagnitudeStartsWithDigit(t: string)
    requires LatMagnitudeText(t) || LngMagnitudeText(t)
    ensures |t| >= 1 && IsDigit(t[0])
  {
    if LatMagnitudeText(t) {
      if k :| 1 <= k <= 2 && k <= |t| && LatIntText(t[..k]) && OptFraction(t[k..]) {
        assert t[..k][0] == t[0];
      } else {
        assert t[..2][0] == t[0];
      }
    } else {
      if k :| 1 <= k <= 3 && k <= |t| && LngIntText(t[..k]) && OptFraction(t[k..]) {
        assert t[..k][0] == t[0];
      } else {
        assert t[..3][0] == t[0];
      }
    }
  }

  /** The latitude scanner accepts exactly the latitude texts of the pattern. */
  lemma LatitudeExact(t: string)
    ensures ScanLatitude(t).Some? <==> LatitudeText(t)
  {
    if |t| >= 1 && IsSign(t[0]) {
      assert ScanLatitude(t).Some? == ScanLatMagnitude(t[1..]).Some?;
      LatMagnitudeExact(t[1..]);
      assert !LatMagnitudeText(t) by {
        if LatMagnitudeText(t) { MagnitudeStartsWithDigit(t); }
      }
    } else {
      assert ScanLatitude(t) == ScanLatMagnitude(t);
      LatMagnitudeExact(t);
    }
  }

  /** The longitude scanner accepts exactly the longitude texts of the pattern. */
  lemma LongitudeExact(t: string)
    ensures ScanLongitude(t).Some? <==> LongitudeText(t)
  {
    if |t| >= 1 && IsSign(t[0]) {
      assert ScanLongitude(t).Some? == ScanLngMagnitude(t[1..]).Some?;
      LngMagnitudeExact(t[1..]);
      assert !LngMagnitudeText(t) by {
        if LngMagnitudeText(t) { MagnitudeStartsWithDigit(t); }
      }
    } else {
      assert ScanLongitude(t) == ScanLngMagnitude(t);
      LngMagnitudeExact(t);
    }
  }

  /** The characters a coordinate is written with. */
  predicate IsNumberChar(c: char) {
    IsDigit(c) || IsSign(c) || c == '.'
  }

  /** A latitude text holds only signs, digits and dots. */
  lemma LatitudeChars(t: string)
    requires LatitudeText(t)
    ensures forall k | 0 <= k < |t| :: IsNumberChar(t[k])
  {
    if LatMagnitudeText(t) {
      MagnitudeChars(t);
    } else {
      MagnitudeChars(t[1..]);
      forall k | 1 <= k < |t| ensures IsNumberChar(t[k]) { assert t[k] == t[1..][k - 1]; }
    }
  }

  lemma MagnitudeChars(m: string)
    requires LatMagnitudeText(m)
    ensures forall k | 0 <= k < |m| :: IsNumberChar(m[k])
  {
    var n: nat;
    if k' :| 1 <= k' <= 2 && k' <= |m| && LatIntText(m[..k']) && OptFraction(m[k'..]) {
      n := k';
    } else {
      n := 2;
    }
    forall i | 0 <= i < |m| ensures IsNumberChar(m[i]) {
      if i < n { assert m[i] == m[..n][i]; } else { assert m[i] == m[n..][i - n]; }
    }
  }

  /** So a latitude text never holds a comma. */
  lemma LatitudeHasNoComma(t: string)
    requires LatitudeText(t)
    ensures ',' !in t
  {
    LatitudeChars(t);
  }

  /** The scanner accepts a text exactly when the regular expression matches it. */
  lemma ParseGpsExact(s: string)
    ensures ParseGps(s).Some? <==> GpsPattern(s)
  {
    if GpsPattern(s) { PatternParses(s); }
    if ParseGps(s).Some? { ParsedMatchesPattern(s); }
  }

  lemma PatternParses(s: string)
    requires GpsPattern(s)
    ensures ParseGps(s).Some?
  {
    var i, j :| 0 <= i < j <= |s| && s[i] == ',' && LatitudeText(s[..i])
      && AllWhitespace(s[i + 1..j]) && LongitudeText(s[j..]);
    FirstComma(s, i);
    PartsParse(s, i, j);
  }

  lemma PartsParse(s: string, i: nat, j: nat)
    requires i < j <= |s| && LatitudeText(s[..i]) && AllWhitespace(s[i + 1..j]) && LongitudeText(s[j..])
    ensures ParseParts(s[..i], s[i + 1..]).Some?
  {
    SkipWhitespace(s, i, j);
    LatitudeExact(s[..i]);
    LongitudeExact(s[j..]);
  }

  lemma FirstComma(s: string, i: nat)
    requires i < |s| && s[i] == ',' && LatitudeText(s[..i])
    ensures IndexOf(s, ',') == Some(i)
  {
    LatitudeHasNoComma(s[..i]);
    var r := IndexOf(s, ',');
    assert s[i] in s;
  }

  lemma SkipWhitespace(s: string, i: nat, j: nat)
    requires i < j <= |s| && AllWhitespace(s[i + 1..j]) && LongitudeText(s[j..])
    ensures LongitudePart(s[i + 1..]) == s[j..]
  {
    var rest, lng := s[i + 1..], s[j..];
    assert rest[j - i - 1..] == lng;
    if LngMagnitudeText(lng) { MagnitudeStartsWithDigit(lng); } else { MagnitudeStartsWithDigit(lng[1..]); }
    assert forall k | 0 <= k < j - i - 1 :: rest[k] == s[i + 1..j][k];
    RunLengthUnique(rest, IsJsWhitespace, j - i - 1);
  }

  lemma ParsedMatchesPattern(s: string)
    requires ParseGps(s).Some?
    ensures GpsPattern(s)
  {
    var i := IndexOf(s, ',').value;
    PartsMatch(s, i);
  }

  lemma PartsMatch(s: string, i: nat)
    requires i < |s| && s[i] == ','
    requires ParseParts(s[..i], s[i + 1..]).Some?
    ensures GpsPattern(s)
  {
    var rest := s[i + 1..];
    var w := RunLength(rest, IsJsWhitespace);
    var j := i + 1 + w;
    LatitudeExact(s[..i]);
    LongitudeAfterComma(s, i, w);
    PatternAt(s, i, j);
  }

  lemma LongitudeAfterComma(s: string, i: nat, w: nat)
    requires i < |s| && w == RunLength(s[i + 1..], IsJsWhitespace)
    requires ScanLongitude(LongitudePart(s[i + 1..])).Some?
    ensures AllWhitespace(s[i + 1..i + 1 + w]) && LongitudeText(s[i + 1 + w..])
  {
    var rest := s[i + 1..];
    assert s[i + 1 + w..] == LongitudePart(rest);
    LongitudeExact(LongitudePart(rest));
    LeadingWhitespace(s, i, w);
  }

  lemma LeadingWhitespace(s: string, i: nat, w: nat)
    requires i < |s| && w == RunLength(s[i + 1..], IsJsWhitespace)
    ensures AllWhitespace(s[i + 1..i + 1 + w])
  {
    var ws, rest := s[i + 1..i + 1 + w], s[i + 1..];
    forall k | 0 <= k < w ensures IsJsWhitespace(ws[k]) {
      assert ws[k] == rest[k];
    }
  }

  /** A comma at i and the longitude starting at j witness the pattern. */
  lemma PatternAt(s: string, i: nat, j: nat)
    requires i < j <= |s| && s[i] == ',' && LatitudeText(s[..i])
    requires AllWhitespace(s[i + 1..j]) && LongitudeText(s[j..])
    ensures GpsPattern(s)
  {
  }

  // ---------------------------------------------------------------------------
  // Integer parts and boundary cases

  /** The integer part of a latitude is at most 89. */
  lemma LatIntBound(ds: string)
    requires LatIntText(ds)
    ensures AllDigits(ds) && DigitsValue(ds) <= 89
  {
    DigitsValueSnoc([], ds[0]);
    assert [] + [ds[0]] == [ds[0]];
    if |ds| == 2 {
      DigitsValueSnoc([ds[0]], ds[1]);
      assert [ds[0]] + [ds[1]] == ds;
    }
  }

  /** The integer part of a longitude is at most 179. */
  lemma LngIntBound(ds: string)
    requires LngIntText(ds)
    ensures AllDigits(ds) && DigitsValue(ds) <= 179
  {
    DigitsValueSnoc([], ds[0]);
    assert [] + [ds[0]] == [ds[0]];
    if |ds| >= 2 {
      DigitsValueSnoc([ds[0]], ds[1]);
      assert [ds[0]] + [ds[1]] == ds[..2];
    }
    if |ds| == 3 {
      DigitsValueSnoc(ds[..2], ds[2]);
      assert ds[..2] + [ds[2]] == ds;
    }
  }

  /** `90` and `90.000` are admitted as exactly 90. */
  lemma NinetyAccepted()
    ensures ScanLatMagnitude("90") == Some(90.0)
    ensures ScanLatMagnitude("90.000") == Some(90.0)
  {
    RunLengthUnique("90", IsDigit, 2);
    RunLengthUnique("90.000", IsDigit, 2);
    assert "90.000"[..2] == "90" && "90.000"[2..] == ".000";
  }

  /** Beyond 89 only a zero fraction is admitted, `91` is out of range and a leading zero is refused. */
  lemma LatitudeBoundaryRejected()
    ensures ScanLatMagnitude("90.5").None?
    ensures ScanLatMagnitude("91").None?
    ensures ScanLatMagnitude("05").None?
  {
    RunLengthUnique("90.5", IsDigit, 2);
    assert "90.5"[..2] == "90" && "90.5"[2..] == ".5";
    RunLengthUnique("91", IsDigit, 2);
    RunLengthUnique("05", IsDigit, 2);
  }

  /** `180.0` is admitted as exactly 180; `180.5` and `181` are not. */
  lemma LongitudeBoundary()
    ensures ScanLngMagnitude("180.0") == Some(180.0)
    ensures ScanLngMagnitude("180.5").None?
    ensures ScanLngMagnitude("181").None?
  {
    RunLengthUnique("180.0", IsDigit, 3);
    assert "180.0"[..3] == "180" && "180.0"[3..] == ".0";
    assert !LngIntText("180");
    RunLengthUnique("180.5", IsDigit, 3);
    assert "180.5"[..3] == "180" && "180.5"[3..] == ".5";
    assert ".5"[1] == '5';
    RunLengthUnique("181", IsDigit, 3);
    assert "181"[..3] == "181" && "181"[3..] == [];
    assert !LngIntText("181");
  }

  /** The example in the field's error message is accepted. */
  lemma MessageExampleAccepted()
    ensures GpsPattern("40.7128, -74.0060")
  {
    MessageParts();
    var a := "40.7128, -74.0060";
    assert a[..7] == "40.7128" && a[7] == ',' && a[8..9] == " " && a[9..] == "-74.0060";
    PatternAt(a, 7, 9);
  }

  lemma MessageParts()
    ensures LatitudeText("40.7128") && AllWhitespace(" ") && LongitudeText("-74.0060")
  {
    var lat, lng := "40.7128", "74.0060";
    assert lat[..2] == "40" && lat[2..] == ".7128";
    LatWitness(lat, 2);
    assert lng[..2] == "74" && lng[2..] == ".0060";
    LngWitness(lng, 2);
    assert "-74.0060"[1..] == lng;
    assert " "[0] == ' ';
  }

  /** The example in the field's placeholder is accepted. */
  lemma PlaceholderExampleAccepted()
    ensures GpsPattern("52.5200, 13.4050")
  {
    PlaceholderParts();
    var a := "52.5200, 13.4050";
    assert a[..7] == "52.5200" && a[7] == ',' && a[8..9] == " " && a[9..] == "13.4050";
    assert AllWhitespace(a[8..9]) by { assert a[8] == ' '; }
    PatternAt(a, 7, 9);
  }

  lemma PlaceholderParts()
    ensures LatitudeText("52.5200") && LongitudeText("13.4050")
  {
    var lat, lng := "52.5200", "13.4050";
    assert lat[..2] == "52" && lat[2..] == ".5200";
    LatWitness(lat, 2);
    assert lng[..2] == "13" && lng[2..] == ".4050";
    LngWitness(lng, 2);
  }

  /** The same kind of point without a space is accepted too. */
  lemma NoSpaceAccepted()
    ensures GpsPattern("52.5200,13.4050")
  {
    var b := "52.5200,13.4050";
    NoSpaceParts(b);
    PlaceholderParts();
    assert AllWhitespace(b[8..8]) by { assert |b[8..8]| == 0; }
    PatternAt(b, 7, 8);
  }

  lemma NoSpaceParts(b: string)
    requires b == "52.5200,13.4050"
    ensures |b| == 15 && b[7] == ',' && b[..7] == "52.5200" && b[8..] == "13.4050"
  {
  }

  lemma LatWitness(t: string, k: nat)
    requires 1 <= k <= 2 && k <= |t| && LatIntText(t[..k]) && OptFraction(t[k..])
    ensures LatMagnitudeText(t) && LatitudeText(t)
  {
  }

  lemma LngWitness(t: string, k: nat)
    requires 1 <= k <= 3 && k <= |t| && LngIntText(t[..k]) && OptFraction(t[k..])
    ensures LngMagnitudeText(t) && LongitudeText(t)
  {
  }

  /** White space is admitted after the comma only: any white space in front of it is rejected. */
  lemma WhitespaceBeforeCommaRejected(lat: string, c: char, lng: string)
    requires ',' !in lat && IsJsWhitespace(c)
    ensures !GpsPattern(lat + [c, ','] + lng)
  {
    var s := lat + [c, ','] + lng;
    if GpsPattern(s) {
      var i, j :| 0 <= i < j <= |s| && s[i] == ',' && LatitudeText(s[..i])
        && AllWhitespace(s[i + 1..j]) && LongitudeText(s[j..]);
      CommaAfterWhitespace(lat, c, lng, i);
      assert s[..i][|lat|] == c;
      LatitudeChars(s[..i]);
      WhitespaceIsNoNumberChar(c);
      assert false;
    }
  }

  lemma CommaAfterWhitespace(lat: string, c: char, lng: string, i: nat)
    requires ',' !in lat && IsJsWhitespace(c)
    requires i < |lat + [c, ','] + lng| && (lat + [c, ','] + lng)[i] == ','
    ensures i > |lat|
  {
    var s := lat + [c, ','] + lng;
    assert forall k | 0 <= k < |lat| :: s[k] == lat[k];
    assert s[|lat|] == c;
  }

  lemma WhitespaceIsNoNumberChar(c: char)
    requires IsJsWhitespace(c)
    ensures !IsNumberChar(c)
  {
  }

  /** The form's example with the space moved in front of the comma. */
  lemma SpacedExampleRejected()
    ensures !GpsPattern("52.5200 ,13.4050")
  {
    var lat, lng := "52.5200", "13.4050";
    var s := "52.5200 ,13.4050";
    assert s == lat + [' ', ','] + lng by {
      assert s[..7] == lat && s[7] == ' ' && s[8] == ',' && s[9..] == lng;
    }
    WhitespaceBeforeCommaRejected(lat, ' ', lng);
  }
}
