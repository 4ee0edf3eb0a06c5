/** The face-reference parser of the loader (loader.cpp, parseFaceElement) and the record
    it produces (include/loader.h, FaceElement). A reference has up to three
    slash-separated fields, `p`, `p/t`, `p//n` or `p/t/n`: a position index, then
    optional texture and normal indices. */
module Face {
  import opened Wrappers
  import opened Text
  import opened Numeric

  /** The value a FaceElement member keeps when its field is absent (its default member
      initialiser). */
  const ABSENT: int := -1

  /** One corner of a face, with ABSENT for a texture or normal reference not given. */
  datatype FaceElement = FaceElement(vertexIndex: int, textureIndex: int, normalIndex: int)

  /** Why a face reference was refused. */
  datatype FaceError =
    | Number(error: NumError)  // a field is not an integer (what parseInt throws)
    | TooManyFields            // a third slash: the string "Invalid element" is thrown

  /** A texture or normal field: empty means absent, otherwise it must be an integer. */
  function OptionalIndex(field: string): (r: Result<int, NumError>)
    ensures field == "" ==> r == Ok(ABSENT)
    ensures field != "" ==> r == ParseInt(field)
  {
    if field == "" then Ok(ABSENT) else ParseInt(field)
  }

  /** The fields of a reference, as the successive `find("/")` and `substr` calls of
      parseFaceElement cut them out. A reference with a third slash keeps only its first
      two fields: the parser reads no further before it refuses the reference. */
  datatype Fields =
    | PositionOnly(position: string)
    | WithTexture(position: string, texture: string)
    | WithNormal(position: string, texture: string, normal: string)
    | ExtraSlash(position: string, texture: string)

  /** Cutting a reference at its slashes. */
  function SplitFields(str: string): Fields {
    var end1 := Find(str, '/', 0);
    if end1.None? then PositionOnly(str)
    else
      var start2 := end1.value + 1;
      var end2 := Find(str, '/', start2);
      if end2.None? then WithTexture(str[..end1.value], str[start2..])
      else
        var start3 := end2.value + 1;
        if Find(str, '/', start3).Some? then ExtraSlash(str[..end1.value], str[start2..end2.value])
        else WithNormal(str[..end1.value], str[start2..end2.value], str[start3..])
  }

  /** parseFaceElement: the position field is always parsed (an empty one fails); then
      the texture field, when there is a slash; then, when there is a second slash, a
      third slash is an error and otherwise the rest is the normal field. Cutting the
      fields has no effect of its own, so cutting them all first keeps the order in which
      the parser meets its errors. */
  function ParseFaceElement(str: string): Result<FaceElement, FaceError> {
    var fields := SplitFields(str);
    match ParseInt(fields.position)
    case Err(e) => Err(Number(e))
    case Ok(v) =>
      if fields.PositionOnly? then Ok(FaceElement(v, ABSENT, ABSENT))
      else
        match OptionalIndex(fields.texture)
        case Err(e) => Err(Number(e))
        case Ok(t) =>
          if fields.WithTexture? then Ok(FaceElement(v, t, ABSENT))
          else if fields.ExtraSlash? then Err(TooManyFields)
          else
            match OptionalIndex(fields.normal)
            case Err(e) => Err(Number(e))
            case Ok(n) => Ok(FaceElement(v, t, n))
  }

  /** A reference without a slash is one field. */
  lemma SplitOne(p: string)
    requires '/' !in p
    ensures SplitFields(p) == PositionOnly(p)
  {
    assert Find(p, '/', 0).None?;
  }

  /** `p/t` is two fields. */
  lemma SplitTwo(p: string, t: string)
    requires '/' !in p && '/' !in t
    ensures SplitFields(p + "/" + t) == WithTexture(p, t)
  {
    var s := p + "/" + t;
    FindAt(s, '/', 0, |p|);
    assert s[..|p|] == p;
    assert s[|p| + 1..] == t;
    assert Find(s, '/', |p| + 1).None?;
  }

  /** `p/t/n` is three fields. */
  lemma SplitThree(p: string, t: string, n: string)
    requires '/' !in p && '/' !in t && '/' !in n
    ensures SplitFields(p + "/" + t + "/" + n) == WithNormal(p, t, n)
  {
    var s := p + "/" + t + "/" + n;
    var j := |p| + 1 + |t|;
    FindAt(s, '/', 0, |p|);
    assert s[..|p|] == p;
    assert forall k :: |p| + 1 <= k < j ==> s[k] == t[k - |p| - 1];
    FindAt(s, '/', |p| + 1, j);
    assert s[|p| + 1..j] == t;
    assert s[j + 1..] == n;
    assert Find(s, '/', j + 1).None?;
  }

  /** Three slashes or more make a reference with an extra slash; when its first two
      fields hold no slash, they are the ones kept. */
  lemma SplitFour(a: string, b: string, c: string, d: string)
    ensures SplitFields(a + "/" + b + "/" + c + "/" + d).ExtraSlash?
    ensures '/' !in a && '/' !in b ==> SplitFields(a + "/" + b + "/" + c + "/" + d) == ExtraSlash(a, b)
  {
    var s := a + "/" + b + "/" + c + "/" + d;
    var p1, p2, p3 := FourFieldSlices(a, b, c, d, s);
    SplitAtSlashes(s, p1, p2, p3);
  }

  /** A string with slashes at `p1`, `p2` and `p3` is cut with an extra slash; when `p1`
      and `p2` are its first two slashes, the fields kept are the text before `p1` and
      the text between them. */
  lemma SplitAtSlashes(s: string, p1: nat, p2: nat, p3: nat)
    requires p1 < p2 < p3 < |s| && s[p1] == '/' && s[p2] == '/' && s[p3] == '/'
    ensures SplitFields(s).ExtraSlash?
    ensures (forall j :: 0 <= j < p1 ==> s[j] != '/') && (forall j :: p1 < j < p2 ==> s[j] != '/')
        ==> SplitFields(s) == ExtraSlash(s[..p1], s[p1 + 1..p2])
  {
    var end1 := Find(s, '/', 0);
    assert end1.Some?;
    var end2 := Find(s, '/', end1.value + 1);
    assert end2.Some?;
    assert Find(s, '/', end2.value + 1).Some?;
    if (forall j :: 0 <= j < p1 ==> s[j] != '/') && (forall j :: p1 < j < p2 ==> s[j] != '/') {
      FindAt(s, '/', 0, p1);
      FindAt(s, '/', p1 + 1, p2);
    }
  }

  /** Where the slashes of `a/b/c/d` lie, and the text around the first two. */
  lemma FourFieldSlices(a: string, b: string, c: string, d: string, s: string)
    returns (p1: nat, p2: nat, p3: nat)
    requires s == a + "/" + b + "/" + c + "/" + d
    ensures p1 < p2 < p3 < |s| && s[p1] == '/' && s[p2] == '/' && s[p3] == '/'
    ensures s[..p1] == a && s[p1 + 1..p2] == b
    ensures '/' !in a ==> forall j :: 0 <= j < p1 ==> s[j] != '/'
    ensures '/' !in b ==> forall j :: p1 < j < p2 ==> s[j] != '/'
  {
    p1 := |a|;
    p2 := p1 + 1 + |b|;
    p3 := p2 + 1 + |c|;
    assert s[p1] == '/' && s[p2] == '/' && s[p3] == '/';
    assert s[..p1] == a;
    assert forall k :: p1 + 1 <= k < p2 ==> s[k] == b[k - p1 - 1];
    assert s[p1 + 1..p2] == b;
  }

  /** A reference without a slash is a bare position index. */
  lemma ParsePositionOnly(p: string)
    requires '/' !in p
    ensures ParseInt(p).Ok? ==> ParseFaceElement(p) == Ok(FaceElement(ParseInt(p).value, ABSENT, ABSENT))
    ensures ParseInt(p).Err? ==> ParseFaceElement(p) == Err(Number(ParseInt(p).error))
  {
    SplitOne(p);
  }

  /** `p/t`: the position and the texture index (absent when `t` is empty); no normal. */
  lemma ParsePositionTexture(p: string, t: string)
    requires '/' !in p && '/' !in t
    ensures ParseFaceElement(p + "/" + t).Ok? <==> ParseInt(p).Ok? && (t == "" || ParseInt(t).Ok?)
    ensures ParseFaceElement(p + "/" + t).Ok? ==>
      ParseFaceElement(p + "/" + t).value
        == FaceElement(ParseInt(p).value, if t == "" then ABSENT else ParseInt(t).value, ABSENT)
  {
    SplitTwo(p, t);
  }

  /** `p/t/n` and `p//n`: all three fields, the texture and normal indices absent when
      their field is empty. */
  lemma ParseThreeFields(p: string, t: string, n: string)
    requires '/' !in p && '/' !in t && '/' !in n
    ensures ParseFaceElement(p + "/" + t + "/" + n).Ok?
        <==> ParseInt(p).Ok? && (t == "" || ParseInt(t).Ok?) && (n == "" || ParseInt(n).Ok?)
    ensures ParseFaceElement(p + "/" + t + "/" + n).Ok? ==>
      ParseFaceElement(p + "/" + t + "/" + n).value
        == FaceElement(ParseInt(p).value,
                       if t == "" then ABSENT else ParseInt(t).value,
                       if n == "" then ABSENT else ParseInt(n).value)
  {
    SplitThree(p, t, n);
  }

  /** A reference with a third slash, that is more than three fields, is never accepted;
      when its first two fields are readable the failure is TooManyFields. */
  lemma ParseFourFields(a: string, b: string, c: string, d: string)
    ensures ParseFaceElement(a + "/" + b + "/" + c + "/" + d).Err?
    ensures '/' !in a && '/' !in b && ParseInt(a).Ok? && (b == "" || ParseInt(b).Ok?) ==>
      ParseFaceElement(a + "/" + b + "/" + c + "/" + d) == Err(TooManyFields)
  {
    SplitFour(a, b, c, d);
  }

  /** An empty position field fails: a reference such as "/5" or "" is malformed. */
  lemma EmptyPositionFails(rest: string)
    ensures ParseFaceElement("/" + rest) == Err(Number(Malformed))
    ensures ParseFaceElement("") == Err(Number(Malformed))
  {
    FindAt("/" + rest, '/', 0, 0);
    assert ("/" + rest)[..0] == "";
  }

  // ---------------------------------------------------------------------------------
  // Writing references: the inverse of the parser on canonical spellings
  // ---------------------------------------------------------------------------------

  /** A face reference as the file format means it: a position and optional indices. */
  datatype FaceRef = FaceRef(position: nat, texture: Option<nat>, normal: Option<nat>)

  /** The FaceElement the loader should store for a reference: ABSENT marks a missing one. */
  function ToElement(r: FaceRef): FaceElement {
    FaceElement(r.position,
                if r.texture.Some? then r.texture.value else ABSENT,
                if r.normal.Some? then r.normal.value else ABSENT)
  }

  /** The canonical spelling of a reference: `p`, `p/t`, `p//n` or `p/t/n`. */
  function Format(r: FaceRef): string {
    var p := DecimalString(r.position);
    match (r.texture, r.normal)
    case (None, None) => p
    case (Some(t), None) => p + "/" + DecimalString(t)
    case (None, Some(n)) => p + "//" + DecimalString(n)
    case (Some(t), Some(n)) => p + "/" + DecimalString(t) + "/" + DecimalString(n)
  }

  predicate FitsInt(r: FaceRef) {
    r.position < INT_MAX_PLUS_ONE &&
    (r.texture.Some? ==> r.texture.value < INT_MAX_PLUS_ONE) &&
    (r.normal.Some? ==> r.normal.value < INT_MAX_PLUS_ONE)
  }

  lemma DecimalStringHasNoSlash(n: nat)
    ensures '/' !in DecimalString(n) && DecimalString(n) != ""
  {
  }

  /** Round trip: parsing the canonical spelling of any reference whose indices fit an int
      gives back that reference, with ABSENT for the fields it omits. */
  lemma {:induction false} FormatRoundTrip(r: FaceRef)
    requires FitsInt(r)
    ensures ParseFaceElement(Format(r)) == Ok(ToElement(r))
  {
    var p := DecimalString(r.position);
    DecimalStringHasNoSlash(r.position);
    ParseIntDecimal(r.position);
    match (r.texture, r.normal)
    case (None, None) =>
      ParsePositionOnly(p);
    case (Some(t), None) =>
      DecimalStringHasNoSlash(t);
      ParseIntDecimal(t);
      ParsePositionTexture(p, DecimalString(t));
    case (None, Some(n)) =>
      DecimalStringHasNoSlash(n);
      ParseIntDecimal(n);
      assert p + "//" + DecimalString(n) == p + "/" + "" + "/" + DecimalString(n);
      ParseThreeFields(p, "", DecimalString(n));
    case (Some(t), Some(n)) =>
      DecimalStringHasNoSlash(t);
      DecimalStringHasNoSlash(n);
      ParseIntDecimal(t);
      ParseIntDecimal(n);
      ParseThreeFields(p, DecimalString(t), DecimalString(n));
  }

  /** The four shapes of reference, read back. */
  lemma ReferenceExampleFull()
    ensures ParseFaceElement("3/5/9") == Ok(FaceElement(3, 5, 9))
  {
    assert Format(FaceRef(3, Some(5), Some(9))) == "3/5/9";
    FormatRoundTrip(FaceRef(3, Some(5), Some(9)));
  }

  lemma ReferenceExampleNoTexture()
    ensures ParseFaceElement("3//9") == Ok(FaceElement(3, ABSENT, 9))
  {
    assert Format(FaceRef(3, None, Some(9))) == "3//9";
    FormatRoundTrip(FaceRef(3, None, Some(9)));
  }

  lemma ReferenceExampleNoNormal()
    ensures ParseFaceElement("3/5") == Ok(FaceElement(3, 5, ABSENT))
  {
    assert Format(FaceRef(3, Some(5), None)) == "3/5";
    FormatRoundTrip(FaceRef(3, Some(5), None));
  }

  lemma ReferenceExamplePositionOnly()
    ensures ParseFaceElement("3") == Ok(FaceElement(3, ABSENT, ABSENT))
  {
    assert Format(FaceRef(3, None, None)) == "3";
    FormatRoundTrip(FaceRef(3, None, None));
  }
}
