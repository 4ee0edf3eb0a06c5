/** The two numeric token parsers of the loader (loader.cpp, parseFloat and parseInt).
    Both run the library conversion from the start of the token and then accept the
    token only when the conversion consumed all of it. */
module Numeric {
  import opened Wrappers
  import opened Text

  /** Why a conversion failed. */
  datatype NumError =
    | Malformed   // std::invalid_argument: no number at the start, or characters left over
    | OutOfRange  // std::out_of_range from std::stoul: the magnitude does not fit an unsigned long

  /** `unsigned long` is 64 bits wide and `int` 32 bits (an LP64 platform). */
  const ULONG_MODULUS: int := 0x1_0000_0000_0000_0000
  const INT_MODULUS: int := 0x1_0000_0000
  const INT_MAX_PLUS_ONE: int := 0x8000_0000

  predicate ValidSign(sign: string) {
    sign == "" || sign == "+" || sign == "-"
  }

  /** The leading whitespace and the optional sign that a scan takes from the start of
      `s` are a valid lead and sign. */
  lemma LeadAndSign(s: string, i0: nat, i1: nat)
    requires SkipSpace(s, 0) == i0
    requires i1 == if i0 < |s| && IsSign(s[i0]) then i0 + 1 else i0
    ensures AllSpace(s[..i0]) && ValidSign(s[i0..i1])
    ensures s[i0..i1] == "-" <==> i1 > i0 && s[i0] == '-'
  {
    forall k | 0 <= k < i0 ensures IsSpace(s[..i0][k]) {
      assert s[..i0][k] == s[k];
    }
    if i1 > i0 {
      assert s[i0..i1] == [s[i0]];
    } else {
      assert s[i0..i1] == [];
    }
  }

  // ---------------------------------------------------------------------------------
  // Integers: std::stoul in base 10, narrowed to int
  // ---------------------------------------------------------------------------------

  /** What the scan of std::stoul found: where it stopped, the sign and the magnitude. */
  datatype IntScan = IntScan(end: nat, negative: bool, magnitude: nat)

  /** The scan of `strtoul(s, &end, 10)`: whitespace, an optional sign, then the longest
      run of digits; None when there is no digit where one is needed. */
  function ScanInt(s: string): Option<IntScan> {
    var i0 := SkipSpace(s, 0);
    var i1 := if i0 < |s| && IsSign(s[i0]) then i0 + 1 else i0;
    var j := DigitRun(s, i1);
    if j == i1 then None
    else Some(IntScan(j, i1 > i0 && s[i0] == '-', DigitsValue(s[i1..j])))
  }

  /** The unsigned long that std::stoul returns: a negated magnitude wraps around. */
  function UnsignedLong(negative: bool, magnitude: nat): (u: nat)
    requires magnitude < ULONG_MODULUS
    ensures u < ULONG_MODULUS
    ensures (if negative then u + magnitude else u - magnitude) % ULONG_MODULUS == 0
  {
    if negative then (ULONG_MODULUS - magnitude) % ULONG_MODULUS else magnitude
  }

  /** The implicit conversion of the unsigned long to a 32-bit two's complement `int`. */
  function ToInt32(u: nat): (i: int)
    ensures -INT_MAX_PLUS_ONE <= i < INT_MAX_PLUS_ONE
    ensures (u - i) % INT_MODULUS == 0
  {
    var w := u % INT_MODULUS;
    if w < INT_MAX_PLUS_ONE then w else w - INT_MODULUS
  }

  /** parseInt: `std::stoul(str, &size)` (which throws when nothing converts or the value
      is too large), then a Malformed failure when `size < str.length()`. */
  function ParseInt(s: string): Result<int, NumError> {
    match ScanInt(s)
    case None => Err(Malformed)
    case Some(sc) =>
      if sc.magnitude >= ULONG_MODULUS then Err(OutOfRange)
      else if sc.end < |s| then Err(Malformed)
      else Ok(ToInt32(UnsignedLong(sc.negative, sc.magnitude)))
  }

  /** The shape of an integer token that std::stoul reads completely. */
  datatype IntSyntax = IntSyntax(lead: string, sign: string, digits: string) {
    predicate Valid() {
      AllSpace(lead) && ValidSign(sign) && |digits| > 0 && AllDigits(digits)
    }

    function Render(): string {
      lead + sign + digits
    }
  }

  /** The scan of a well-formed integer token stops exactly at its end when what follows
      cannot continue it. */
  lemma ScanIntRender(syn: IntSyntax, t: string)
    requires syn.Valid()
    requires t == [] || !IsDigit(t[0])
    ensures ScanInt(syn.Render() + t)
         == Some(IntScan(|syn.Render()|, syn.sign == "-", DigitsValue(syn.digits)))
  {
    var s := syn.Render() + t;
    var i0, i1, j := IntRenderLandmarks(syn, t, s);
    ScanIntAt(s, i0, i1, j);
  }

  /** Where the scan of a rendered integer token finds the lead, the sign and the digits. */
  lemma IntRenderLandmarks(syn: IntSyntax, t: string, s: string) returns (i0: nat, i1: nat, j: nat)
    requires syn.Valid() && s == syn.Render() + t
    requires t == [] || !IsDigit(t[0])
    ensures SkipSpace(s, 0) == i0 && i0 < |s|
    ensures i1 == if IsSign(s[i0]) then i0 + 1 else i0
    ensures DigitRun(s, i1) == j && i1 < j
    ensures j == |syn.Render()| && s[i1..j] == syn.digits
    ensures (i1 > i0 && s[i0] == '-') == (syn.sign == "-")
  {
    i0, i1, j := |syn.lead|, |syn.lead| + |syn.sign|, |syn.Render()|;
    assert s[i0] == if syn.sign == "" then syn.digits[0] else syn.sign[0];
    SkipSpaceAt(s, 0, i0);
    assert s[i1..j] == syn.digits;
    DigitRunAt(s, i1, j);
  }

  /** The scan of an integer, given where it stops skipping, signing and reading digits. */
  lemma ScanIntAt(s: string, i0: nat, i1: nat, j: nat)
    requires SkipSpace(s, 0) == i0 && i0 < |s|
    requires i1 == if IsSign(s[i0]) then i0 + 1 else i0
    requires DigitRun(s, i1) == j && i1 < j
    ensures ScanInt(s) == Some(IntScan(j, i1 > i0 && s[i0] == '-', DigitsValue(s[i1..j])))
  {
  }

  /** Soundness: parseInt accepts a string only when all of it is one integer token, and
      its result is the token's value as std::stoul and the narrowing to int compute it.
      In particular the empty token and a token with trailing characters are rejected. */
  lemma ParseIntSound(s: string)
    requires ParseInt(s).Ok?
    ensures exists syn: IntSyntax ::
      syn.Valid() && syn.Render() == s && DigitsValue(syn.digits) < ULONG_MODULUS &&
      ParseInt(s).value == ToInt32(UnsignedLong(syn.sign == "-", DigitsValue(syn.digits)))
  {
    var i0, i1 := AcceptedIntScan(s);
    var syn := IntSyntaxAt(s, i0, i1);
    assert syn.Valid() && syn.Render() == s && DigitsValue(syn.digits) < ULONG_MODULUS &&
      ParseInt(s).value == ToInt32(UnsignedLong(syn.sign == "-", DigitsValue(syn.digits)));
  }

  /** The lead, sign and digits of a string whose scan landmarks are `i0` and `i1` and
      whose digits run to its end. */
  lemma IntSyntaxAt(s: string, i0: nat, i1: nat) returns (syn: IntSyntax)
    requires i0 <= i1 < |s|
    requires SkipSpace(s, 0) == i0
    requires i1 == if i0 < |s| && IsSign(s[i0]) then i0 + 1 else i0
    requires AllDigits(s[i1..])
    ensures syn.Valid() && syn.Render() == s && syn.digits == s[i1..]
    ensures syn.sign == "-" <==> i1 > i0 && s[i0] == '-'
  {
    syn := IntSyntax(s[..i0], s[i0..i1], s[i1..]);
    assert syn.Render() == s by {
      PrefixExtends(s, i0, i1);
      assert s[..i1] + s[i1..] == s;
    }
    LeadAndSign(s, i0, i1);
  }

  /** The landmarks of the scan of an accepted integer: the digits end the string. */
  lemma AcceptedIntScan(s: string) returns (i0: nat, i1: nat)
    requires ParseInt(s).Ok?
    ensures i0 <= i1 < |s|
    ensures SkipSpace(s, 0) == i0
    ensures i1 == if i0 < |s| && IsSign(s[i0]) then i0 + 1 else i0
    ensures AllDigits(s[i1..]) && DigitsValue(s[i1..]) < ULONG_MODULUS
    ensures ParseInt(s).value == ToInt32(UnsignedLong(i1 > i0 && s[i0] == '-', DigitsValue(s[i1..])))
  {
    i0 := SkipSpace(s, 0);
    i1 := if i0 < |s| && IsSign(s[i0]) then i0 + 1 else i0;
    var j := DigitRun(s, i1);
    assert ScanInt(s) == Some(IntScan(j, i1 > i0 && s[i0] == '-', DigitsValue(s[i1..j])));
    assert j == |s|;
    assert s[i1..j] == s[i1..];
  }

  /** Completeness: every well-formed integer token is accepted, unless its magnitude
      exceeds unsigned long, which std::stoul reports as out of range. */
  lemma ParseIntComplete(syn: IntSyntax)
    requires syn.Valid()
    ensures ParseInt(syn.Render()) == Err(OutOfRange) <==> DigitsValue(syn.digits) >= ULONG_MODULUS
    ensures ParseInt(syn.Render()).Ok? <==> DigitsValue(syn.digits) < ULONG_MODULUS
  {
    ScanIntRender(syn, "");
    assert syn.Render() + "" == syn.Render();
  }

  /** A token followed by a character that is not a digit ("3abc") is rejected, never
      truncated to its numeric prefix. */
  lemma ParseIntRejectsTrailing(syn: IntSyntax, t: string)
    requires syn.Valid() && DigitsValue(syn.digits) < ULONG_MODULUS
    requires |t| > 0 && !IsDigit(t[0])
    ensures ParseInt(syn.Render() + t) == Err(Malformed)
  {
    ScanIntRender(syn, t);
  }

  /** For magnitudes that fit an int, the result is the signed value of the token (a
      negative one only through the wrap-around of std::stoul and the narrowing). */
  lemma ParseIntSmall(syn: IntSyntax)
    requires syn.Valid() && DigitsValue(syn.digits) < INT_MAX_PLUS_ONE
    ensures ParseInt(syn.Render())
         == Ok(if syn.sign == "-" then -(DigitsValue(syn.digits) as int) else DigitsValue(syn.digits))
  {
    ScanIntRender(syn, "");
    assert syn.Render() + "" == syn.Render();
    NarrowSmall(syn.sign == "-", DigitsValue(syn.digits));
  }

  /** A magnitude below 2^31, negated or not, survives the wrap-around of std::stoul and
      the narrowing to int as its signed value. */
  lemma NarrowSmall(negative: bool, m: nat)
    requires m < INT_MAX_PLUS_ONE
    ensures ToInt32(UnsignedLong(negative, m)) == if negative then -(m as int) else m
  {
    if negative && m > 0 {
      var u := ULONG_MODULUS - m;
      assert UnsignedLong(true, m) == u;
      assert u == (INT_MODULUS - 1) * INT_MODULUS + (INT_MODULUS - m);
      assert u % INT_MODULUS == INT_MODULUS - m;
    }
  }

  /** The canonical spelling of an index below 2^31 reads back as that index. */
  lemma ParseIntDecimal(n: nat)
    requires n < INT_MAX_PLUS_ONE
    ensures ParseInt(DecimalString(n)) == Ok(n)
  {
    var syn := IntSyntax("", "", DecimalString(n));
    assert syn.Valid() && DigitsValue(syn.digits) == n by {
      DecimalStringRoundTrip(n);
    }
    ParseIntSmall(syn);
    assert syn.Render() == DecimalString(n);
  }

  // ---------------------------------------------------------------------------------
  // Floating point: std::stof, with values taken as exact reals
  // ---------------------------------------------------------------------------------

  /** x times 10^e, one factor of ten at a time. */
  function Shift(x: real, e: int): (r: real)
    ensures x == 0.0 ==> r == 0.0
    ensures x > 0.0 ==> r > 0.0
    decreases if e >= 0 then e else -e
  {
    if e == 0 then x
    else if e > 0 then 10.0 * Shift(x, e - 1)
    else Shift(x, e + 1) / 10.0
  }

  /** The value of the decimal numeral `whole.fraction` times 10^e, negated when asked. */
  function DecimalValue(negative: bool, whole: string, fraction: string, e: int): real
    requires AllDigits(whole) && AllDigits(fraction)
  {
    var m := Shift(DigitsValue(whole + fraction) as real, e - |fraction|);
    if negative then -m else m
  }

  /** Where the scan of std::stof stopped and the numeral it read: the sign, the digits
      before and after the point, and the exponent. */
  datatype FloatScan = FloatScan(end: nat, negative: bool, whole: string, fraction: string, exponent: int)
  {
    /** The value of the numeral read. */
    function Value(): real
      requires AllDigits(whole) && AllDigits(fraction)
    {
      DecimalValue(negative, whole, fraction, exponent)
    }
  }

  /** The exponent part at `at`: 'e' or 'E', an optional sign and at least one digit.
      The result is where the scan ends and the exponent's value; when the exponent is
      absent or incomplete the scan does not take it and ends at `at` with exponent 0. */
  function ScanExponent(s: string, at: nat): (r: (nat, int))
    requires at <= |s|
    ensures at <= r.0 <= |s|
    ensures r.0 == at ==> r.1 == 0
  {
    if at < |s| && (s[at] == 'e' || s[at] == 'E') then
      var e0 := at + 1;
      var e1 := if e0 < |s| && IsSign(s[e0]) then e0 + 1 else e0;
      var e2 := DigitRun(s, e1);
      if e2 == e1 then (at, 0)
      else
        var e := DigitsValue(s[e1..e2]);
        (e2, if e1 > e0 && s[e0] == '-' then -(e as int) else e)
    else (at, 0)
  }

  /** Where the mantissa's parts end in a scan from the start of `s`: the leading
      whitespace (i0), the sign (i1), the whole digits (d1), the point (f0) and the
      fraction digits (d2). */
  datatype Landmarks = Landmarks(i0: nat, i1: nat, d1: nat, f0: nat, d2: nat)

  /** The mantissa part of the scan of `strtof`: whitespace, an optional sign, digits, an
      optional point and further digits. */
  function MantissaLandmarks(s: string): (m: Landmarks)
    ensures m.i0 <= m.i1 <= m.d1 <= m.f0 <= m.d2 <= |s|
    ensures AllDigits(s[m.i1..m.d1]) && AllDigits(s[m.f0..m.d2])
  {
    var i0 := SkipSpace(s, 0);
    var i1 := if i0 < |s| && IsSign(s[i0]) then i0 + 1 else i0;
    var d1 := DigitRun(s, i1);
    var f0 := if d1 < |s| && s[d1] == '.' then d1 + 1 else d1;
    var d2 := DigitRun(s, f0);
    Landmarks(i0, i1, d1, f0, d2)
  }

  /** The decimal scan of `strtof`: the mantissa (at least one digit in all), then an
      optional exponent. */
  function ScanFloat(s: string): (r: Option<FloatScan>)
    ensures r.Some? ==> AllDigits(r.value.whole) && AllDigits(r.value.fraction)
  {
    var m := MantissaLandmarks(s);
    if m.d1 == m.i1 && m.d2 == m.f0 then None
    else
      var (end, e) := ScanExponent(s, m.d2);
      Some(FloatScan(end, m.i1 > m.i0 && s[m.i0] == '-', s[m.i1..m.d1], s[m.f0..m.d2], e))
  }

  /** parseFloat: `std::stof(str, &size)`, then a failure when `size < str.length()`. */
  function ParseFloat(s: string): Option<real> {
    match ScanFloat(s)
    case None => None
    case Some(sc) => if sc.end < |s| then None else Some(sc.Value())
  }

  /** The exponent of a floating-point token: the marker, a sign and digits. */
  datatype Exponent = Exponent(marker: char, sign: string, digits: string) {
    predicate Valid() {
      (marker == 'e' || marker == 'E') && ValidSign(sign) && |digits| > 0 && AllDigits(digits)
    }

    function Render(): string {
      [marker] + sign + digits
    }

    function Value(): int
      requires Valid()
    {
      if sign == "-" then -(DigitsValue(digits) as int) else DigitsValue(digits)
    }
  }

  /** The shape of a decimal floating-point token that std::stof reads completely. */
  datatype FloatSyntax =
    FloatSyntax(lead: string, sign: string, whole: string, point: bool, fraction: string,
                exponent: Option<Exponent>)
  {
    predicate Valid() {
      AllSpace(lead) && ValidSign(sign) && AllDigits(whole) && AllDigits(fraction) &&
      |whole| + |fraction| > 0 && (!point ==> fraction == "") &&
      (exponent.Some? ==> exponent.value.Valid())
    }

    function PointText(): string {
      if point then "." else ""
    }

    function ExponentText(): string {
      if exponent.Some? then exponent.value.Render() else ""
    }

    function Render(): string {
      lead + sign + whole + PointText() + fraction + ExponentText()
    }

    /** The power of ten the exponent asks for: 0 without an exponent. */
    function ExponentValue(): int
      requires exponent.Some? ==> exponent.value.Valid()
    {
      if exponent.Some? then exponent.value.Value() else 0
    }

    function Value(): real
      requires Valid()
    {
      DecimalValue(sign == "-", whole, fraction, ExponentValue())
    }
  }

  /** A character that could extend a numeral read so far. */
  predicate IsNumeralChar(c: char) {
    IsDigit(c) || c == '.' || c == 'e' || c == 'E'
  }

  /** A well-formed exponent at `at`, followed by something that is not a digit, is
      taken whole by the scan. */
  lemma ScanExponentRender(s: string, at: nat, x: Exponent, t: string)
    requires x.Valid()
    requires at <= |s| && s[at..] == x.Render() + t
    requires t == [] || !IsDigit(t[0])
    ensures ScanExponent(s, at) == (at + |x.Render()|, x.Value())
  {
    var e1, e2 := ExponentRenderLandmarks(s, at, x, t);
    ScanExponentAt(s, at, e1, e2);
  }

  /** Where the scan of a rendered exponent finds its marker, its sign and its digits. */
  lemma ExponentRenderLandmarks(s: string, at: nat, x: Exponent, t: string)
    returns (e1: nat, e2: nat)
    requires x.Valid()
    requires at <= |s| && s[at..] == x.Render() + t
    requires t == [] || !IsDigit(t[0])
    ensures at < |s| && (s[at] == 'e' || s[at] == 'E')
    ensures e1 == if at + 1 < |s| && IsSign(s[at + 1]) then at + 2 else at + 1
    ensures DigitRun(s, e1) == e2 && e1 < e2
    ensures e2 == at + |x.Render()| && s[e1..e2] == x.digits
    ensures at + 1 < |s| && (e1 > at + 1 && s[at + 1] == '-') == (x.sign == "-")
  {
    e1, e2 := at + 1 + |x.sign|, at + |x.Render()|;
    ExponentSlices(s, at, x, t);
    assert x.sign != "" ==> s[at + 1] == s[at + 1..e1][0];
    assert s[e1] == s[e1..e2][0];
    assert e2 < |s| ==> s[e2] == s[e2..][0];
    DigitRunAt(s, e1, e2);
  }

  /** Where the marker, the sign and the digits of a rendered exponent lie. */
  lemma ExponentSlices(s: string, at: nat, x: Exponent, t: string)
    requires at <= |s| && s[at..] == x.Render() + t
    ensures |s| == at + |x.Render()| + |t| && |x.Render()| == 1 + |x.sign| + |x.digits|
    ensures s[at] == x.marker
    ensures s[at + 1..at + 1 + |x.sign|] == x.sign
    ensures s[at + 1 + |x.sign|..at + |x.Render()|] == x.digits
    ensures s[at + |x.Render()|..] == t
  {
    var u := s[at..];
    var e1, e2 := 1 + |x.sign|, |x.Render()|;
    assert u[0] == x.marker;
    assert u[1..e1] == x.sign;
    assert u[e1..e2] == x.digits;
    assert u[e2..] == t;
    assert s[at + 1..at + e1] == u[1..e1];
    assert s[at + e1..at + e2] == u[e1..e2];
    assert s[at + e2..] == u[e2..];
  }

  /** ScanExponent, unfolded at positions already known. */
  lemma ScanExponentAt(s: string, at: nat, e1: nat, e2: nat)
    requires at < |s| && (s[at] == 'e' || s[at] == 'E')
    requires e1 == if at + 1 < |s| && IsSign(s[at + 1]) then at + 2 else at + 1
    requires DigitRun(s, e1) == e2 && e1 < e2
    ensures ScanExponent(s, at) == (e2,
      if e1 > at + 1 && s[at + 1] == '-' then -(DigitsValue(s[e1..e2]) as int) else DigitsValue(s[e1..e2]))
  {
  }

  /** ScanFloat, unfolded at positions already known. */
  lemma ScanFloatAt(s: string, i0: nat, i1: nat, d1: nat, f0: nat, d2: nat)
    requires i0 <= i1 <= d1 <= f0 <= d2 <= |s|
    requires SkipSpace(s, 0) == i0
    requires i1 == if i0 < |s| && IsSign(s[i0]) then i0 + 1 else i0
    requires DigitRun(s, i1) == d1
    requires f0 == if d1 < |s| && s[d1] == '.' then d1 + 1 else d1
    requires DigitRun(s, f0) == d2
    requires !(d1 == i1 && d2 == f0)
    ensures ScanFloat(s) == Some(FloatScan(ScanExponent(s, d2).0,
      i1 > i0 && s[i0] == '-', s[i1..d1], s[f0..d2], ScanExponent(s, d2).1))
  {
    assert MantissaLandmarks(s) == Landmarks(i0, i1, d1, f0, d2);
  }

  /** `s` holds the parts of `fs` at the given positions, followed by the exponent and `t`. */
  predicate FloatSlices(fs: FloatSyntax, t: string, s: string,
                        i0: nat, i1: nat, d1: nat, f0: nat, d2: nat)
  {
    i0 <= i1 <= d1 <= f0 <= d2 <= |s| &&
    s[..i0] == fs.lead && s[i0..i1] == fs.sign && s[i1..d1] == fs.whole &&
    s[d1..f0] == fs.PointText() && s[f0..d2] == fs.fraction &&
    s[d2..] == fs.ExponentText() + t
  }

  /** Where each part of a rendered floating-point token lies in the rendering. */
  lemma FloatRenderSlices(fs: FloatSyntax, t: string, s: string,
                          i0: nat, i1: nat, d1: nat, f0: nat, d2: nat)
    requires s == fs.Render() + t
    requires i0 == |fs.lead| && i1 == i0 + |fs.sign| && d1 == i1 + |fs.whole|
    requires f0 == d1 + |fs.PointText()| && d2 == f0 + |fs.fraction|
    ensures FloatSlices(fs, t, s, i0, i1, d1, f0, d2)
  {
    ConcatSlices(fs.lead, fs.sign, fs.whole, fs.PointText(), fs.fraction, fs.ExponentText(), t, s);
  }

  /** The character that ends a mantissa is not a digit, and not a point either. */
  lemma MantissaFollower(fs: FloatSyntax, t: string, s: string, d2: nat)
    requires fs.Valid() && (t == [] || !IsNumeralChar(t[0]))
    requires d2 <= |s| && s[d2..] == fs.ExponentText() + t
    ensures d2 < |s| ==> !IsDigit(s[d2]) && s[d2] != '.'
  {
    if d2 < |s| {
      assert s[d2] == (fs.ExponentText() + t)[0];
    }
  }

  /** The scan skips exactly the leading whitespace and reads the sign. */
  lemma FloatLeadLandmark(fs: FloatSyntax, t: string, s: string,
                          i0: nat, i1: nat, d1: nat, f0: nat, d2: nat)
    requires fs.Valid() && FloatSlices(fs, t, s, i0, i1, d1, f0, d2)
    ensures SkipSpace(s, 0) == i0
    ensures i1 == if i0 < |s| && IsSign(s[i0]) then i0 + 1 else i0
    ensures (i1 > i0 && s[i0] == '-') == (fs.sign == "-")
  {
    // the character after the leading whitespace starts the sign, the digits or the point
    if fs.sign != "" {
      assert s[i0] == s[i0..i1][0];
    } else if fs.whole != "" {
      assert s[i0] == s[i1..d1][0];
    } else {
      assert s[i0] == s[d1..f0][0];
    }
    assert forall j :: 0 <= j < i0 ==> s[j] == s[..i0][j];
    SkipSpaceAt(s, 0, i0);
  }

  /** The scan reads exactly the whole part, and the point when there is one. */
  lemma FloatWholeLandmark(fs: FloatSyntax, t: string, s: string,
                           i0: nat, i1: nat, d1: nat, f0: nat, d2: nat)
    requires fs.Valid() && (t == [] || !IsNumeralChar(t[0]))
    requires FloatSlices(fs, t, s, i0, i1, d1, f0, d2)
    ensures DigitRun(s, i1) == d1
    ensures f0 == if d1 < |s| && s[d1] == '.' then d1 + 1 else d1
  {
    MantissaFollower(fs, t, s, d2);
    if fs.point {
      assert s[d1] == s[d1..f0][0];
    }
    DigitRunAt(s, i1, d1);
  }

  /** The scan reads exactly the fraction. */
  lemma FloatFractionLandmark(fs: FloatSyntax, t: string, s: string,
                              i0: nat, i1: nat, d1: nat, f0: nat, d2: nat)
    requires fs.Valid() && (t == [] || !IsNumeralChar(t[0]))
    requires FloatSlices(fs, t, s, i0, i1, d1, f0, d2)
    ensures DigitRun(s, f0) == d2
  {
    MantissaFollower(fs, t, s, d2);
    DigitRunAt(s, f0, d2);
  }

  /** The scan reads exactly the exponent, when there is one, and reads nothing and gives
      0 when there is none. */
  lemma FloatExponentLandmark(fs: FloatSyntax, t: string, s: string,
                              i0: nat, i1: nat, d1: nat, f0: nat, d2: nat)
    requires fs.Valid() && (t == [] || !IsNumeralChar(t[0]))
    requires s == fs.Render() + t && FloatSlices(fs, t, s, i0, i1, d1, f0, d2)
    ensures ScanExponent(s, d2) == (|fs.Render()|, fs.ExponentValue())
  {
    assert |s| == d2 + |fs.ExponentText()| + |t|;
    if fs.exponent.Some? {
      ScanExponentRender(s, d2, fs.exponent.value, t);
    } else {
      assert d2 < |s| ==> s[d2] == s[d2..][0] == t[0];
    }
  }

  /** Where the scan of a rendered floating-point token finds each of its parts. */
  lemma FloatRenderLandmarks(fs: FloatSyntax, t: string, s: string)
    returns (i0: nat, i1: nat, d1: nat, f0: nat, d2: nat)
    requires fs.Valid() && (t == [] || !IsNumeralChar(t[0]))
    requires s == fs.Render() + t
    ensures i0 <= i1 <= d1 <= f0 <= d2 <= |s|
    ensures SkipSpace(s, 0) == i0
    ensures i1 == if i0 < |s| && IsSign(s[i0]) then i0 + 1 else i0
    ensures DigitRun(s, i1) == d1
    ensures f0 == if d1 < |s| && s[d1] == '.' then d1 + 1 else d1
    ensures DigitRun(s, f0) == d2
    ensures !(d1 == i1 && d2 == f0)
    ensures (i1 > i0 && s[i0] == '-') == (fs.sign == "-")
    ensures s[i1..d1] == fs.whole && s[f0..d2] == fs.fraction
    ensures ScanExponent(s, d2) == (|fs.Render()|, fs.ExponentValue())
  {
    i0 := |fs.lead|;
    i1 := i0 + |fs.sign|;
    d1 := i1 + |fs.whole|;
    f0 := d1 + |fs.PointText()|;
    d2 := f0 + |fs.fraction|;
    FloatRenderSlices(fs, t, s, i0, i1, d1, f0, d2);
    FloatLeadLandmark(fs, t, s, i0, i1, d1, f0, d2);
    FloatWholeLandmark(fs, t, s, i0, i1, d1, f0, d2);
    FloatFractionLandmark(fs, t, s, i0, i1, d1, f0, d2);
    FloatExponentLandmark(fs, t, s, i0, i1, d1, f0, d2);
  }

  /** The scan of a well-formed floating-point token stops exactly at its end, with the
      token's value, when what follows cannot continue it. */
  lemma ScanFloatRender(fs: FloatSyntax, t: string)
    requires fs.Valid()
    requires t == [] || !IsNumeralChar(t[0])
    ensures ScanFloat(fs.Render() + t)
         == Some(FloatScan(|fs.Render()|, fs.sign == "-", fs.whole, fs.fraction, fs.ExponentValue()))
  {
    var s := fs.Render() + t;
    var i0, i1, d1, f0, d2 := FloatRenderLandmarks(fs, t, s);
    ScanFloatAt(s, i0, i1, d1, f0, d2);
  }

  /** An exponent the scan takes is a well-formed exponent spelled by the characters taken. */
  lemma ScanExponentSyntax(s: string, at: nat) returns (x: Exponent)
    requires at <= |s| && ScanExponent(s, at).0 > at
    ensures x.Valid() && x.Value() == ScanExponent(s, at).1
    ensures s[at..ScanExponent(s, at).0] == x.Render()
  {
    var e0 := at + 1;
    var e1 := if e0 < |s| && IsSign(s[e0]) then e0 + 1 else e0;
    var e2 := DigitRun(s, e1);
    x := Exponent(s[at], s[e0..e1], s[e1..e2]);
    assert s[at..e2] == [s[at]] + s[e0..e1] + s[e1..e2];
  }

  /** The characters that the scan takes from `s` spell a well-formed token whose value
      is the one the scan computes. */
  lemma ScannedFloatSyntax(s: string, i0: nat, i1: nat, d1: nat, f0: nat, d2: nat)
    returns (fs: FloatSyntax)
    requires i0 <= i1 <= d1 <= f0 <= d2 <= |s|
    requires SkipSpace(s, 0) == i0
    requires i1 == if i0 < |s| && IsSign(s[i0]) then i0 + 1 else i0
    requires DigitRun(s, i1) == d1
    requires f0 == if d1 < |s| && s[d1] == '.' then d1 + 1 else d1
    requires DigitRun(s, f0) == d2
    requires !(d1 == i1 && d2 == f0)
    ensures fs.Valid() && fs.Render() == s[..ScanExponent(s, d2).0]
    ensures fs.Value()
         == DecimalValue(i1 > i0 && s[i0] == '-', s[i1..d1], s[f0..d2], ScanExponent(s, d2).1)
  {
    var point := ScannedMantissa(s, i0, i1, d1, f0, d2);
    var ex := ScannedExponent(s, d2);
    fs := FloatSyntax(s[..i0], s[i0..i1], s[i1..d1], point, s[f0..d2], ex);
  }

  /** The characters of the mantissa that the scan takes: whitespace, a sign, the whole
      digits, the point when there is one, and the fraction digits. */
  lemma ScannedMantissa(s: string, i0: nat, i1: nat, d1: nat, f0: nat, d2: nat)
    returns (point: bool)
    requires i0 <= i1 <= d1 <= f0 <= d2 <= |s|
    requires SkipSpace(s, 0) == i0
    requires i1 == if i0 < |s| && IsSign(s[i0]) then i0 + 1 else i0
    requires DigitRun(s, i1) == d1
    requires f0 == if d1 < |s| && s[d1] == '.' then d1 + 1 else d1
    requires DigitRun(s, f0) == d2
    requires !(d1 == i1 && d2 == f0)
    ensures AllSpace(s[..i0]) && ValidSign(s[i0..i1]) && (s[i0..i1] == "-" <==> i1 > i0 && s[i0] == '-')
    ensures AllDigits(s[i1..d1]) && AllDigits(s[f0..d2]) && d1 - i1 + d2 - f0 > 0
    ensures !point ==> d2 == f0
    ensures s[..d2] == s[..i0] + s[i0..i1] + s[i1..d1] + (if point then "." else "") + s[f0..d2]
  {
    point := f0 > d1;
    LeadAndSign(s, i0, i1);
    assert s[d1..f0] == if point then "." else "";
    SlicesConcat(s, i0, i1, d1, f0, d2);
  }

  /** The characters of the exponent that the scan takes after the mantissa: none, or a
      well-formed exponent spelling the scanned value. */
  lemma ScannedExponent(s: string, d2: nat) returns (ex: Option<Exponent>)
    requires d2 <= |s|
    ensures ex.Some? ==> ex.value.Valid()
    ensures s[..ScanExponent(s, d2).0] == s[..d2] + (if ex.Some? then ex.value.Render() else "")
    ensures ScanExponent(s, d2).1 == if ex.Some? then ex.value.Value() else 0
  {
    var end := ScanExponent(s, d2).0;
    ex := None;
    if end > d2 {
      var x := ScanExponentSyntax(s, d2);
      ex := Some(x);
      assert s[..end] == s[..d2] + s[d2..end];
    }
  }

  /** Soundness: parseFloat accepts a string only when all of it is one decimal
      floating-point token, and its result is that token's value. In particular the
      empty token and a token with trailing characters are rejected. */
  lemma ParseFloatSound(s: string)
    requires ParseFloat(s).Some?
    ensures exists fs: FloatSyntax ::
      fs.Valid() && fs.Render() == s && fs.Value() == ParseFloat(s).value
  {
    var fs := ParseFloatWitness(s);
  }

  /** The token that ParseFloatSound promises, read off the scan. */
  lemma ParseFloatWitness(s: string) returns (fs: FloatSyntax)
    requires ParseFloat(s).Some?
    ensures fs.Valid() && fs.Render() == s && fs.Value() == ParseFloat(s).value
  {
    var i0, i1, d1, f0, d2 := AcceptedFloatScan(s);
    fs := ScannedFloatSyntax(s, i0, i1, d1, f0, d2);
    assert s[..|s|] == s;
  }

  /** The landmarks of the scan of an accepted float: the exponent ends the string. */
  lemma AcceptedFloatScan(s: string) returns (i0: nat, i1: nat, d1: nat, f0: nat, d2: nat)
    requires ParseFloat(s).Some?
    ensures i0 <= i1 <= d1 <= f0 <= d2 <= |s|
    ensures SkipSpace(s, 0) == i0
    ensures i1 == if i0 < |s| && IsSign(s[i0]) then i0 + 1 else i0
    ensures DigitRun(s, i1) == d1
    ensures f0 == if d1 < |s| && s[d1] == '.' then d1 + 1 else d1
    ensures DigitRun(s, f0) == d2
    ensures !(d1 == i1 && d2 == f0)
    ensures ScanExponent(s, d2).0 == |s|
    ensures ParseFloat(s).value
         == DecimalValue(i1 > i0 && s[i0] == '-', s[i1..d1], s[f0..d2], ScanExponent(s, d2).1)
  {
    i0, i1, d1, f0, d2 := ScanLandmarks(s);
    ParseFloatAt(s, i0, i1, d1, f0, d2);
  }

  /** The positions where the mantissa scan of `s` stops skipping, signing and reading
      digits. */
  lemma ScanLandmarks(s: string) returns (i0: nat, i1: nat, d1: nat, f0: nat, d2: nat)
    ensures i0 <= i1 <= d1 <= f0 <= d2 <= |s|
    ensures SkipSpace(s, 0) == i0
    ensures i1 == if i0 < |s| && IsSign(s[i0]) then i0 + 1 else i0
    ensures DigitRun(s, i1) == d1
    ensures f0 == if d1 < |s| && s[d1] == '.' then d1 + 1 else d1
    ensures DigitRun(s, f0) == d2
  {
    i0 := SkipSpace(s, 0);
    i1 := if i0 < |s| && IsSign(s[i0]) then i0 + 1 else i0;
    d1 := DigitRun(s, i1);
    f0 := if d1 < |s| && s[d1] == '.' then d1 + 1 else d1;
    d2 := DigitRun(s, f0);
  }

  /** ParseFloat, unfolded at positions already known: it accepts exactly when the
      mantissa has a digit and the exponent scan reaches the end. */
  lemma ParseFloatAt(s: string, i0: nat, i1: nat, d1: nat, f0: nat, d2: nat)
    requires i0 <= i1 <= d1 <= f0 <= d2 <= |s|
    requires SkipSpace(s, 0) == i0
    requires i1 == if i0 < |s| && IsSign(s[i0]) then i0 + 1 else i0
    requires DigitRun(s, i1) == d1
    requires f0 == if d1 < |s| && s[d1] == '.' then d1 + 1 else d1
    requires DigitRun(s, f0) == d2
    ensures ParseFloat(s).Some? <==> !(d1 == i1 && d2 == f0) && ScanExponent(s, d2).0 == |s|
    ensures ParseFloat(s).Some? ==>
      ParseFloat(s).value == DecimalValue(i1 > i0 && s[i0] == '-', s[i1..d1], s[f0..d2], ScanExponent(s, d2).1)
  {
    if d1 == i1 && d2 == f0 {
      assert MantissaLandmarks(s) == Landmarks(i0, i1, d1, f0, d2);
    } else {
      ScanFloatAt(s, i0, i1, d1, f0, d2);
    }
  }

  /** Completeness: every well-formed decimal token is accepted with its value. */
  lemma ParseFloatComplete(fs: FloatSyntax)
    requires fs.Valid()
    ensures ParseFloat(fs.Render()) == Some(fs.Value())
  {
    ScanFloatRender(fs, "");
    assert fs.Render() + "" == fs.Render();
  }

  /** A token followed by a character that would not extend a numeral ("1.0x") is
      rejected, never truncated to its numeric prefix. */
  lemma ParseFloatRejectsTrailing(fs: FloatSyntax, t: string)
    requires fs.Valid()
    requires |t| > 0 && !IsNumeralChar(t[0])
    ensures ParseFloat(fs.Render() + t).None?
  {
    ScanFloatRender(fs, t);
  }

  /** The empty token converts to nothing, as an integer or as a float. */
  lemma EmptyTokenRejected()
    ensures ParseInt("") == Err(Malformed)
    ensures ParseFloat("").None?
  {
  }
}
