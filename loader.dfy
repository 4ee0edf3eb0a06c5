/** The line dispatcher of the loader (loader.cpp, ObjLoader::loadObj) and the loader's
    state (include/loader.h, ObjLoader). The input file is given as its sequence of lines;
    the diagnostics loadObj prints before `exit(EXIT_FAILURE)`, and the exceptions that
    escape it, become a returned LoadError. */
module Loader {
  import opened Wrappers
  import opened Text
  import opened Numeric
  import opened Face
  import opened Lines

  /** The four containers of an ObjLoader, as a value: positions, normals and texture
      coordinates as flat runs of floats, three per entry, and the stored face elements. */
  datatype Geometry = Geometry(vertices: seq<real>, normals: seq<real>, texCoords: seq<real>,
                               elements: seq<FaceElement>)

  const EMPTY: Geometry := Geometry([], [], [], [])

  /** The diagnostic loadObj prints, with the line number and the raw line, before it
      calls `exit(EXIT_FAILURE)`. */
  datatype Diagnostic =
    | VertexComponent                 // "Failed to parse vertex component"
    | NormalComponent                 // "Failed to parse vertex normal component"
    | TextureComponent                // "Failed to parse vertex texture component"
    | FaceComponent                   // "Failed to parse face element component"
    | UnknownKeyword(keyword: string) // "Unknown keyword '...'"

  /** An exception that loadObj does not catch (it catches std::invalid_argument only), so
      that it escapes to the caller. */
  datatype Escaped =
    | OutOfRangeError  // std::out_of_range from std::stoul in parseInt
    | InvalidElement   // the string "Invalid element" thrown by parseFaceElement

  /** Why a load stopped early. */
  datatype LoadError =
    | Exit(diagnostic: Diagnostic, lineNum: int, line: string)
    | Throw(exception: Escaped)

  /** The state of the containers after a line (or lines), and the error that stopped the
      load there, if any. The state includes whatever was pushed before the failure. */
  datatype Outcome = Outcome(state: Geometry, error: Option<LoadError>)

  /** The words of a physical line once its comment is cut off. */
  function Words(line: string): seq<string> {
    Tokens(StripComment(line))
  }

  /** The keyword that selects what happens to a line: empty for a blank line. */
  function Keyword(line: string): string {
    Word(Words(line), 0)
  }

  // ---------------------------------------------------------------------------------
  // The loops of the branches
  // ---------------------------------------------------------------------------------

  /** What a loop that pushes each parsed value in turn leaves when the first failure ends
      it: the values before that failure, and whether there was one. */
  function PushUntilFailure<T>(results: seq<Option<T>>): (r: (seq<T>, bool))
    ensures |r.0| <= |results|
    ensures forall k :: 0 <= k < |r.0| ==> results[k] == Some(r.0[k])
    ensures !r.1 ==> |r.0| == |results|
    ensures r.1 ==> |r.0| < |results| && results[|r.0|].None?
    decreases |results|
  {
    if results == [] then ([], false)
    else
      var (values, failed) := PushUntilFailure(results[..|results| - 1]);
      if failed then (values, true)
      else
        match results[|results| - 1]
        case None => (values, true)
        case Some(x) => (values + [x], false)
  }

  /** The first failure a loop of checks meets, if any. */
  function FirstFailure<T>(verdicts: seq<Option<T>>): (r: Option<T>)
    ensures r.None? <==> forall k :: 0 <= k < |verdicts| ==> verdicts[k].None?
    decreases |verdicts|
  {
    if verdicts == [] then None
    else
      match FirstFailure(verdicts[..|verdicts| - 1])
      case Some(f) => Some(f)
      case None => verdicts[|verdicts| - 1]
  }

  /** A loop that stopped at the k-th value pushed the values before it. */
  lemma PushUntilFailureStop<T>(results: seq<Option<T>>, k: nat)
    requires k < |results| && !PushUntilFailure(results[..k]).1 && results[k].None?
    ensures PushUntilFailure(results) == (PushUntilFailure(results[..k]).0, true)
  {
    var whole := PushUntilFailure(results);
    var prefix := PushUntilFailure(results[..k]).0;
    assert |whole.0| >= k by {
      forall j | 0 <= j < k ensures results[j].Some? {
        assert results[..k][j] == results[j];
      }
    }
    assert whole.0 == prefix by {
      forall j | 0 <= j < k ensures whole.0[j] == prefix[j] {
        assert results[..k][j] == Some(prefix[j]);
      }
    }
  }

  /** A loop that pushed the k-th value goes on with one more value pushed. */
  lemma PushUntilFailureNext<T>(results: seq<Option<T>>, k: nat)
    requires k < |results| && !PushUntilFailure(results[..k]).1 && results[k].Some?
    ensures PushUntilFailure(results[..k + 1]) == (PushUntilFailure(results[..k]).0 + [results[k].value], false)
  {
    assert results[..k + 1][..k] == results[..k];
  }

  /** A loop of checks that stopped at the k-th reports what the k-th found. */
  lemma FirstFailureStop<T>(verdicts: seq<Option<T>>, k: nat)
    requires k < |verdicts| && verdicts[k].Some?
    requires forall j :: 0 <= j < k ==> verdicts[j].None?
    ensures FirstFailure(verdicts) == verdicts[k]
    decreases |verdicts|
  {
    var init := verdicts[..|verdicts| - 1];
    if k < |verdicts| - 1 {
      assert forall j :: 0 <= j < k ==> init[j] == verdicts[j];
      FirstFailureStop(init, k);
    } else {
      assert forall j :: 0 <= j < |init| ==> init[j] == verdicts[j];
    }
  }

  // ---------------------------------------------------------------------------------
  // Component lines: v, vn, vt
  // ---------------------------------------------------------------------------------

  /** The three components of a `v` or `vn` line, each parsed as a float. */
  function ComponentResults(args: seq<string>): seq<Option<real>>
    requires |args| == 3
  {
    seq(3, k requires 0 <= k < 3 => ParseFloat(args[k]))
  }

  /** The k-th result is the k-th component parsed. */
  lemma ComponentResultAt(args: seq<string>, k: nat)
    requires |args| == 3 && k < 3
    ensures |ComponentResults(args)| == 3
    ensures ComponentResults(args)[k] == ParseFloat(args[k])
  {
  }

  /** A `vt` component after the first: 0 when the word is missing, parsed otherwise. */
  function OptionalComponent(token: string): Option<real> {
    if token == "" then Some(0.0) else ParseFloat(token)
  }

  /** The three components of a `vt` line: the first is required. */
  function TexCoordResults(args: seq<string>): seq<Option<real>>
    requires |args| == 3
  {
    seq(3, k requires 0 <= k < 3 => if k == 0 then ParseFloat(args[0]) else OptionalComponent(args[k]))
  }

  /** The k-th result of a `vt` line: the first component parsed, a later one optional. */
  lemma TexCoordResultAt(args: seq<string>, k: nat)
    requires |args| == 3 && k < 3
    ensures |TexCoordResults(args)| == 3
    ensures TexCoordResults(args)[k] == if k == 0 then ParseFloat(args[0]) else OptionalComponent(args[k])
  {
  }

  // ---------------------------------------------------------------------------------
  // Face lines: f
  // ---------------------------------------------------------------------------------

  /** The check of a later reference of a face against the last stored element. */
  predicate Inconsistent(later: FaceElement, last: FaceElement) {
    (later.textureIndex == ABSENT && last.textureIndex > 0) ||
    (later.normalIndex == ABSENT && last.normalIndex > 0)
  }

  /** Why a later reference of a face was refused. */
  datatype FaceFailure = Unreadable(error: FaceError) | InconsistentReferences

  /** The verdict on one later reference, checked against the last stored element. */
  function CheckOne(last: FaceElement, ref: string): Option<FaceFailure> {
    match ParseFaceElement(ref)
    case Err(e) => Some(Unreadable(e))
    case Ok(fe) => if Inconsistent(fe, last) then Some(InconsistentReferences) else None
  }

  /** The verdicts on the later two references of a face. */
  function LaterVerdicts(first: FaceElement, refs: seq<string>): seq<Option<FaceFailure>>
    requires |refs| == 3
  {
    [CheckOne(first, refs[1]), CheckOne(first, refs[2])]
  }

  /** The k-th later verdict is on the (k+1)-th reference. */
  lemma LaterVerdictAt(first: FaceElement, refs: seq<string>, k: nat)
    requires |refs| == 3 && k < 2
    ensures |LaterVerdicts(first, refs)| == 2
    ensures LaterVerdicts(first, refs)[k] == CheckOne(first, refs[k + 1])
  {
  }

  /** How a line fails before the line number and the raw line are attached: a caught
      std::invalid_argument with its diagnostic, or an exception that escapes. */
  datatype Failure = Diagnosed(diagnostic: Diagnostic) | Uncaught(exception: Escaped)

  /** How a face failure surfaces: an std::invalid_argument is caught and diagnosed, the
      other two exceptions escape. */
  function FaceFailureKind(f: FaceFailure): (r: Failure)
    ensures r.Diagnosed? <==> f == InconsistentReferences || f == Unreadable(Number(Malformed))
    ensures r.Diagnosed? ==> r.diagnostic == FaceComponent
  {
    match f
    case Unreadable(Number(Malformed)) => Diagnosed(FaceComponent)
    case Unreadable(Number(OutOfRange)) => Uncaught(OutOfRangeError)
    case Unreadable(TooManyFields) => Uncaught(InvalidElement)
    case InconsistentReferences => Diagnosed(FaceComponent)
  }

  /** The state after a line's branch, and how the line failed, if it did. */
  datatype Handled = Handled(state: Geometry, failure: Option<Failure>)

  /** The `f` branch on the three reference words. */
  function FaceBranch(g: Geometry, refs: seq<string>): (r: Handled)
    requires |refs| == 3
    ensures g.elements <= r.state.elements && |r.state.elements| <= |g.elements| + 1
    ensures r.state == g.(elements := r.state.elements)
  {
    match ParseFaceElement(refs[0])
    case Err(e) => Handled(g, Some(FaceFailureKind(Unreadable(e))))
    case Ok(first) =>
      // Only the first element is ever pushed: the later two are parsed and checked but
      // not stored, so the last stored element they are checked against is `first`.
      var g' := g.(elements := g.elements + [first]);
      match FirstFailure(LaterVerdicts(first, refs))
      case None => Handled(g', None)
      case Some(f) => Handled(g', Some(FaceFailureKind(f)))
  }

  /** The branch the keyword selects, on the next three words of the line. */
  function Dispatch(g: Geometry, keyword: string, args: seq<string>): (r: Handled)
    requires |args| == 3
    ensures g.vertices <= r.state.vertices && g.normals <= r.state.normals
    ensures g.texCoords <= r.state.texCoords && g.elements <= r.state.elements
  {
    if keyword == "v" then
      var (xs, failed) := PushUntilFailure(ComponentResults(args));
      Handled(g.(vertices := g.vertices + xs), if failed then Some(Diagnosed(VertexComponent)) else None)
    else if keyword == "vn" then
      var (xs, failed) := PushUntilFailure(ComponentResults(args));
      Handled(g.(normals := g.normals + xs), if failed then Some(Diagnosed(NormalComponent)) else None)
    else if keyword == "vt" then
      // the first component is required; the second and third default to 0 when missing
      var (xs, failed) := PushUntilFailure(TexCoordResults(args));
      Handled(g.(texCoords := g.texCoords + xs), if failed then Some(Diagnosed(TextureComponent)) else None)
    else if keyword == "f" then
      FaceBranch(g, args)
    else
      // Any other keyword, including the empty one of a blank or comment-only line.
      Handled(g, Some(Diagnosed(UnknownKeyword(keyword))))
  }

  /** The error a failure becomes: a diagnostic reports the line number and the raw line;
      an escaping exception carries neither. */
  function Report(failure: Option<Failure>, lineNum: int, strInput: string): (e: Option<LoadError>)
    ensures e.None? <==> failure.None?
    ensures e.Some? && e.value.Exit? ==> e.value.lineNum == lineNum && e.value.line == strInput
  {
    match failure
    case None => None
    case Some(Diagnosed(d)) => Some(Exit(d, lineNum, strInput))
    case Some(Uncaught(x)) => Some(Throw(x))
  }

  /** One pass of the body of loadObj's loop over the physical line `strInput`, the
      `lineNum`-th. Only the first four words of the line are read. */
  function Step(g: Geometry, strInput: string, lineNum: int): (r: Outcome)
    ensures r.error.Some? && r.error.value.Exit? ==>
      r.error.value.lineNum == lineNum && r.error.value.line == strInput
    ensures g.vertices <= r.state.vertices && g.normals <= r.state.normals
    ensures g.texCoords <= r.state.texCoords && g.elements <= r.state.elements
  {
    var words := Words(strInput);
    var h := Dispatch(g, Word(words, 0), [Word(words, 1), Word(words, 2), Word(words, 3)]);
    Outcome(h.state, Report(h.failure, lineNum, strInput))
  }

  /** The loop of loadObj with `step` as its body, from line number `lineNum` on: the
      lines in turn, until the first error. */
  function Run(step: (Geometry, string, int) -> Outcome, g: Geometry, lines: seq<string>, lineNum: int): Outcome
    decreases |lines|
  {
    if lines == [] then Outcome(g, None)
    else
      var r := step(g, lines[0], lineNum);
      if r.error.Some? then r else Run(step, r.state, lines[1..], lineNum + 1)
  }

  /** loadObj over the lines of a file, the first of them numbered `lineNum`. */
  function Load(g: Geometry, lines: seq<string>, lineNum: int): Outcome {
    Run(Step, g, lines, lineNum)
  }

  /** An ObjLoader: the four containers that loadObj appends to. */
  class ObjLoader {
    var vertices: seq<real>
    var normals: seq<real>
    var texCoords: seq<real>
    var elements: seq<FaceElement>

    function Contents(): Geometry
      reads this
    {
      Geometry(vertices, normals, texCoords, elements)
    }

    /** A new loader holds four empty containers. */
    constructor()
      ensures Contents() == EMPTY
    {
      vertices, normals, texCoords, elements := [], [], [], [];
    }

    /** loadObj over the lines of the file: line numbers count from 1, every line is
        handled in order, and the first error stops the load. Containers are appended to,
        never reset, so a second load adds to the first. */
    method LoadObj(lines: seq<string>) returns (err: Option<LoadError>)
      modifies this
      ensures Outcome(Contents(), err) == Load(old(Contents()), lines, 1)
    {
      var i := 0;
      var lineNum := 1;
      while i < |lines|
        invariant 0 <= i <= |lines| && lineNum == i + 1
        invariant Load(Contents(), lines[i..], lineNum) == Load(old(Contents()), lines, 1)
      {
        var strInput := lines[i];
        assert lines[i..][1..] == lines[i + 1..];
        err := HandleLine(strInput, lineNum);
        if err.Some? {
          return;
        }
        lineNum := lineNum + 1;
        i := i + 1;
      }
      err := None;
    }

    /** The body of loadObj's loop for one physical line: the keyword selects a branch,
        and each branch reads the next three words. */
    method HandleLine(strInput: string, lineNum: int) returns (err: Option<LoadError>)
      modifies this
      ensures Outcome(Contents(), err) == Step(old(Contents()), strInput, lineNum)
    {
      var line := StripComment(strInput);
      var words := Tokens(line);
      var keyword := Word(words, 0);
      var args := [Word(words, 1), Word(words, 2), Word(words, 3)];
      var failure: Option<Failure>;
      if keyword == "v" {
        var failed := PushVertexComponents(args);
        failure := if failed then Some(Diagnosed(VertexComponent)) else None;
      } else if keyword == "vn" {
        var failed := PushNormalComponents(args);
        failure := if failed then Some(Diagnosed(NormalComponent)) else None;
      } else if keyword == "vt" {
        var failed := PushTexCoordComponents(args);
        failure := if failed then Some(Diagnosed(TextureComponent)) else None;
      } else if keyword == "f" {
        failure := PushFace(args);
      } else {
        failure := Some(Diagnosed(UnknownKeyword(keyword)));
      }
      err := Report(failure, lineNum, strInput);
    }

    /** The `v` branch: parse and push x, y and z in turn, stopping at the first that
        fails. */
    method PushVertexComponents(args: seq<string>) returns (failed: bool)
      requires |args| == 3
      modifies this
      ensures (vertices, failed) ==
        (old(vertices) + PushUntilFailure(ComponentResults(args)).0, PushUntilFailure(ComponentResults(args)).1)
      ensures normals == old(normals) && texCoords == old(texCoords) && elements == old(elements)
    {
      ghost var results := ComponentResults(args);
      for k := 0 to 3
        invariant vertices == old(vertices) + PushUntilFailure(results[..k]).0
        invariant !PushUntilFailure(results[..k]).1
        invariant normals == old(normals) && texCoords == old(texCoords) && elements == old(elements)
      {
        var component := ParseFloat(args[k]);
        ComponentResultAt(args, k);
        if component.None? {
          PushUntilFailureStop(results, k);
          return true;
        }
        PushUntilFailureNext(results, k);
        vertices := vertices + [component.value];
      }
      assert results[..3] == results;
      failed := false;
    }

    /** The `vn` branch: parse and push x, y and z in turn, stopping at the first that
        fails. */
    method PushNormalComponents(args: seq<string>) returns (failed: bool)
      requires |args| == 3
      modifies this
      ensures (normals, failed) ==
        (old(normals) + PushUntilFailure(ComponentResults(args)).0, PushUntilFailure(ComponentResults(args)).1)
      ensures vertices == old(vertices) && texCoords == old(texCoords) && elements == old(elements)
    {
      ghost var results := ComponentResults(args);
      for k := 0 to 3
        invariant normals == old(normals) + PushUntilFailure(results[..k]).0
        invariant !PushUntilFailure(results[..k]).1
        invariant vertices == old(vertices) && texCoords == old(texCoords) && elements == old(elements)
      {
        var component := ParseFloat(args[k]);
        ComponentResultAt(args, k);
        if component.None? {
          PushUntilFailureStop(results, k);
          return true;
        }
        PushUntilFailureNext(results, k);
        normals := normals + [component.value];
      }
      assert results[..3] == results;
      failed := false;
    }

    /** The `vt` branch: u is parsed and pushed first; then v and w, each pushed as 0 when
        missing and parsed otherwise, stopping at the first that fails. */
    method PushTexCoordComponents(args: seq<string>) returns (failed: bool)
      requires |args| == 3
      modifies this
      ensures (texCoords, failed) ==
        (old(texCoords) + PushUntilFailure(TexCoordResults(args)).0, PushUntilFailure(TexCoordResults(args)).1)
      ensures vertices == old(vertices) && normals == old(normals) && elements == old(elements)
    {
      ghost var results := TexCoordResults(args);
      assert results[..0] == [];
      TexCoordResultAt(args, 0);
      var u := ParseFloat(args[0]);
      if u.None? {
        PushUntilFailureStop(results, 0);
        assert texCoords == old(texCoords) + [];
        return true;
      }
      PushUntilFailureNext(results, 0);
      texCoords := texCoords + [u.value];
      for k := 1 to 3
        invariant texCoords == old(texCoords) + PushUntilFailure(results[..k]).0
        invariant !PushUntilFailure(results[..k]).1
        invariant vertices == old(vertices) && normals == old(normals) && elements == old(elements)
      {
        var component: Option<real>;
        if args[k] == "" {
          component := Some(0.0);
        } else {
          component := ParseFloat(args[k]);
        }
        TexCoordResultAt(args, k);
        assert component == results[k];
        if component.None? {
          PushUntilFailureStop(results, k);
          return true;
        }
        PushUntilFailureNext(results, k);
        texCoords := texCoords + [component.value];
      }
      assert results[..3] == results;
      failed := false;
    }

    /** The `f` branch: the first reference is parsed and pushed; the other two are parsed
        and checked against the last stored element, and are not stored. */
    method PushFace(refs: seq<string>) returns (failure: Option<Failure>)
      requires |refs| == 3
      modifies this
      ensures Handled(Contents(), failure) == FaceBranch(old(Contents()), refs)
    {
      var first := ParseFaceElement(refs[0]);
      if first.Err? {
        return Some(FaceFailureKind(Unreadable(first.error)));
      }
      elements := elements + [first.value];
      var found := CheckLaterReferences(refs);
      failure := if found.Some? then Some(FaceFailureKind(found.value)) else None;
    }

    /** The loop of the `f` branch over the later two references, stopping at the first
        that fails. Each reference is parsed and checked against elements.back(), which the
        loop does not change, so it is read once; it is the element this line pushed. */
    method CheckLaterReferences(refs: seq<string>) returns (found: Option<FaceFailure>)
      requires |refs| == 3 && |elements| > 0
      ensures found == FirstFailure(LaterVerdicts(elements[|elements| - 1], refs))
    {
      var back := elements[|elements| - 1];
      ghost var verdicts := LaterVerdicts(back, refs);
      for k := 0 to 2
        invariant forall j :: 0 <= j < k ==> verdicts[j].None?
      {
        var verdict := CheckOne(back, refs[k + 1]);
        LaterVerdictAt(back, refs, k);
        if verdict.Some? {
          FirstFailureStop(verdicts, k);
          return verdict;
        }
      }
      found := None;
    }

    /** getVertices: a copy of the positions, three floats per position. */
    function GetVertices(): (r: seq<real>)
      reads this
      ensures r == Contents().vertices
    {
      vertices
    }

    /** getNormals: a copy of the normals, three floats per normal. */
    function GetNormals(): (r: seq<real>)
      reads this
      ensures r == Contents().normals
    {
      normals
    }

    /** getTexCoords: a copy of the texture coordinates, three floats per entry. */
    function GetTexCoords(): (r: seq<real>)
      reads this
      ensures r == Contents().texCoords
    {
      texCoords
    }

    /** getElements: a copy of the stored face elements, one per face line. */
    function GetElements(): (r: seq<FaceElement>)
      reads this
      ensures r == Contents().elements
    {
      elements
    }
  }
}
