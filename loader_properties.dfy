/** What loadObj does to the containers, line by line and over a whole file. */
module LoaderProperties {
  import opened Wrappers
  import opened Text
  import opened Numeric
  import opened Face
  import opened Lines
  import opened Loader

  /** The k-th word of a line once its comment is cut off; "" past the last word, as for
      a `std::string` that `ss >> s` could not fill. */
  function Arg(line: string, k: nat): string {
    Word(Words(line), k)
  }

  /** An outcome with the raw line of an Exit blanked out. */
  function WithoutLine(o: Outcome): Outcome {
    match o.error
    case Some(Exit(d, n, _)) => Outcome(o.state, Some(Exit(d, n, "")))
    case _ => o
  }

  /** A loop over three parse results pushes all three values exactly when all three
      succeed. */
  lemma ThreeResults<T>(results: seq<Option<T>>)
    requires |results| == 3
    ensures !PushUntilFailure(results).1 <==> results[0].Some? && results[1].Some? && results[2].Some?
    ensures !PushUntilFailure(results).1 ==>
      PushUntilFailure(results).0 == [results[0].value, results[1].value, results[2].value]
  {
    var r := PushUntilFailure(results);
    if !r.1 {
      assert results[0] == Some(r.0[0]) && results[1] == Some(r.0[1]) && results[2] == Some(r.0[2]);
    }
  }

  /** A `v` line succeeds exactly when its three components parse; it then appends exactly
      those three floats to the positions. On failure the floats read before the bad one
      stay pushed; the other containers never change. A missing component is "" and fails. */
  lemma VertexLine(g: Geometry, line: string, lineNum: int)
    requires Keyword(line) == "v"
    ensures Step(g, line, lineNum).error.None? <==>
      ParseFloat(Arg(line, 1)).Some? && ParseFloat(Arg(line, 2)).Some? && ParseFloat(Arg(line, 3)).Some?
    ensures Step(g, line, lineNum).error.None? ==>
      Step(g, line, lineNum).state ==
        g.(vertices := g.vertices + [ParseFloat(Arg(line, 1)).value, ParseFloat(Arg(line, 2)).value,
                                     ParseFloat(Arg(line, 3)).value])
    ensures Step(g, line, lineNum).error.Some? ==>
      Step(g, line, lineNum).error == Some(Exit(VertexComponent, lineNum, line)) &&
      Step(g, line, lineNum).state == g.(vertices := Step(g, line, lineNum).state.vertices) &&
      |Step(g, line, lineNum).state.vertices| < |g.vertices| + 3
    ensures |Words(line)| < 4 ==> Step(g, line, lineNum).error.Some?
  {
    ThreeResults(ComponentResults([Arg(line, 1), Arg(line, 2), Arg(line, 3)]));
    EmptyTokenRejected();
  }

  /** A `vn` line: the same as a `v` line, on the normals. */
  lemma NormalLine(g: Geometry, line: string, lineNum: int)
    requires Keyword(line) == "vn"
    ensures Step(g, line, lineNum).error.None? <==>
      ParseFloat(Arg(line, 1)).Some? && ParseFloat(Arg(line, 2)).Some? && ParseFloat(Arg(line, 3)).Some?
    ensures Step(g, line, lineNum).error.None? ==>
      Step(g, line, lineNum).state ==
        g.(normals := g.normals + [ParseFloat(Arg(line, 1)).value, ParseFloat(Arg(line, 2)).value,
                                   ParseFloat(Arg(line, 3)).value])
    ensures Step(g, line, lineNum).error.Some? ==>
      Step(g, line, lineNum).error == Some(Exit(NormalComponent, lineNum, line)) &&
      Step(g, line, lineNum).state == g.(normals := Step(g, line, lineNum).state.normals) &&
      |Step(g, line, lineNum).state.normals| < |g.normals| + 3
    ensures |Words(line)| < 4 ==> Step(g, line, lineNum).error.Some?
  {
    ThreeResults(ComponentResults([Arg(line, 1), Arg(line, 2), Arg(line, 3)]));
    EmptyTokenRejected();
  }

  /** A `vt` line: the first component must parse; the second and third are 0 when missing
      and must parse otherwise. On success exactly three floats are appended, however
      many components the line gave. */
  lemma TexCoordLine(g: Geometry, line: string, lineNum: int)
    requires Keyword(line) == "vt"
    ensures Step(g, line, lineNum).error.None? <==>
      ParseFloat(Arg(line, 1)).Some? && OptionalComponent(Arg(line, 2)).Some? &&
      OptionalComponent(Arg(line, 3)).Some?
    ensures Step(g, line, lineNum).error.None? ==>
      Step(g, line, lineNum).state ==
        g.(texCoords := g.texCoords + [ParseFloat(Arg(line, 1)).value,
                                       OptionalComponent(Arg(line, 2)).value,
                                       OptionalComponent(Arg(line, 3)).value])
    ensures Step(g, line, lineNum).error.Some? ==>
      Step(g, line, lineNum).error == Some(Exit(TextureComponent, lineNum, line)) &&
      Step(g, line, lineNum).state == g.(texCoords := Step(g, line, lineNum).state.texCoords) &&
      |Step(g, line, lineNum).state.texCoords| < |g.texCoords| + 3
    ensures |Words(line)| == 2 && ParseFloat(Arg(line, 1)).Some? ==>
      Step(g, line, lineNum) ==
      Outcome(g.(texCoords := g.texCoords + [ParseFloat(Arg(line, 1)).value, 0.0, 0.0]), None)
  {
    ThreeResults(TexCoordResults([Arg(line, 1), Arg(line, 2), Arg(line, 3)]));
  }

  lemma FirstFailureOfTwo<T>(a: Option<T>, b: Option<T>)
    ensures FirstFailure([a, b]) == if a.Some? then a else b
  {
    assert [a, b][..1] == [a];
    assert [a][..0] == [];
  }

  /** The `f` branch accepts exactly when the first reference parses and each later one
      passes the check against it. */
  lemma FaceBranchAccepts(g: Geometry, refs: seq<string>)
    requires |refs| == 3
    ensures FaceBranch(g, refs).failure.None? <==>
      ParseFaceElement(refs[0]).Ok? &&
      CheckOne(ParseFaceElement(refs[0]).value, refs[1]).None? &&
      CheckOne(ParseFaceElement(refs[0]).value, refs[2]).None?
  {
    if ParseFaceElement(refs[0]).Ok? {
      var verdicts := LaterVerdicts(ParseFaceElement(refs[0]).value, refs);
      assert FirstFailure(verdicts).None? <==> verdicts[0].None? && verdicts[1].None?;
    }
  }

  /** An `f` line succeeds exactly when its three references parse and neither later one
      omits an index the first one gives as positive. Whenever the first reference parses
      it is the one element appended, even if the line then fails; the later two are never
      stored, and the other containers never change. */
  lemma FaceLine(g: Geometry, line: string, lineNum: int)
    requires Keyword(line) == "f"
    ensures Step(g, line, lineNum).error.None? <==>
      ParseFaceElement(Arg(line, 1)).Ok? &&
      ParseFaceElement(Arg(line, 2)).Ok? &&
      !Inconsistent(ParseFaceElement(Arg(line, 2)).value, ParseFaceElement(Arg(line, 1)).value) &&
      ParseFaceElement(Arg(line, 3)).Ok? &&
      !Inconsistent(ParseFaceElement(Arg(line, 3)).value, ParseFaceElement(Arg(line, 1)).value)
    ensures ParseFaceElement(Arg(line, 1)).Ok? ==>
      Step(g, line, lineNum).state == g.(elements := g.elements + [ParseFaceElement(Arg(line, 1)).value])
    ensures ParseFaceElement(Arg(line, 1)).Err? ==> Step(g, line, lineNum).state == g
  {
    var refs := [Arg(line, 1), Arg(line, 2), Arg(line, 3)];
    assert Step(g, line, lineNum).state == FaceBranch(g, refs).state;
    assert Step(g, line, lineNum).error.None? <==> FaceBranch(g, refs).failure.None?;
    FaceBranchAccepts(g, refs);
  }

  /** How an `f` line fails: a diagnosed failure is always the face diagnostic; a first
      reference with too many fields, or with an index out of range, lets an exception
      escape instead. */
  lemma FaceLineErrors(g: Geometry, line: string, lineNum: int)
    requires Keyword(line) == "f"
    ensures Step(g, line, lineNum).error.Some? && Step(g, line, lineNum).error.value.Exit? ==>
      Step(g, line, lineNum).error == Some(Exit(FaceComponent, lineNum, line))
    ensures ParseFaceElement(Arg(line, 1)) == Err(Number(Malformed)) ==>
      Step(g, line, lineNum).error == Some(Exit(FaceComponent, lineNum, line))
    ensures ParseFaceElement(Arg(line, 1)) == Err(Number(OutOfRange)) ==>
      Step(g, line, lineNum).error == Some(Throw(OutOfRangeError))
    ensures ParseFaceElement(Arg(line, 1)) == Err(TooManyFields) ==>
      Step(g, line, lineNum).error == Some(Throw(InvalidElement))
    ensures ParseFaceElement(Arg(line, 1)).Ok? && ParseFaceElement(Arg(line, 2)).Ok? &&
            ParseFaceElement(Arg(line, 3)).Ok? ==>
      Step(g, line, lineNum).error.None? || Step(g, line, lineNum).error == Some(Exit(FaceComponent, lineNum, line))
  {
    var refs := [Arg(line, 1), Arg(line, 2), Arg(line, 3)];
    var h := FaceBranch(g, refs);
    assert Step(g, line, lineNum).error == Report(h.failure, lineNum, line);
    assert h.failure.Some? && h.failure.value.Diagnosed? ==> h.failure.value.diagnostic == FaceComponent;
    if ParseFaceElement(refs[0]).Ok? {
      var first := ParseFaceElement(refs[0]).value;
      FirstFailureOfTwo(CheckOne(first, refs[1]), CheckOne(first, refs[2]));
    }
  }

  /** How a face failure reaches the end of a line: escaping exceptions without a line
      number, diagnosed ones with the face diagnostic. */
  predicate FaceErrorReported(f: FaceFailure, error: Option<LoadError>, lineNum: int, line: string) {
    match f
    case Unreadable(Number(OutOfRange)) => error == Some(Throw(OutOfRangeError))
    case Unreadable(TooManyFields) => error == Some(Throw(InvalidElement))
    case _ => error == Some(Exit(FaceComponent, lineNum, line))
  }

  /** The errors of an `f` line whose first reference parses, as they come from the second
      reference: an out-of-range index or a third slash lets the exception escape without
      a line number; a malformed or inconsistent reference stops the load with the face
      diagnostic. The third reference is then never looked at. */
  lemma FaceLineSecondErrors(g: Geometry, line: string, lineNum: int)
    requires Keyword(line) == "f"
    ensures ParseFaceElement(Arg(line, 1)).Ok? &&
            CheckOne(ParseFaceElement(Arg(line, 1)).value, Arg(line, 2)).Some? ==>
      FaceErrorReported(CheckOne(ParseFaceElement(Arg(line, 1)).value, Arg(line, 2)).value,
                        Step(g, line, lineNum).error, lineNum, line)
  {
    var refs := [Arg(line, 1), Arg(line, 2), Arg(line, 3)];
    var h := FaceBranch(g, refs);
    assert Step(g, line, lineNum).error == Report(h.failure, lineNum, line);
    if ParseFaceElement(refs[0]).Ok? {
      var first := ParseFaceElement(refs[0]).value;
      FirstFailureOfTwo(CheckOne(first, refs[1]), CheckOne(first, refs[2]));
    }
  }

  /** The same for the third reference, once the second has passed its check. */
  lemma FaceLineThirdErrors(g: Geometry, line: string, lineNum: int)
    requires Keyword(line) == "f"
    ensures ParseFaceElement(Arg(line, 1)).Ok? &&
            CheckOne(ParseFaceElement(Arg(line, 1)).value, Arg(line, 2)).None? &&
            CheckOne(ParseFaceElement(Arg(line, 1)).value, Arg(line, 3)).Some? ==>
      FaceErrorReported(CheckOne(ParseFaceElement(Arg(line, 1)).value, Arg(line, 3)).value,
                        Step(g, line, lineNum).error, lineNum, line)
  {
    var refs := [Arg(line, 1), Arg(line, 2), Arg(line, 3)];
    var h := FaceBranch(g, refs);
    assert Step(g, line, lineNum).error == Report(h.failure, lineNum, line);
    if ParseFaceElement(refs[0]).Ok? {
      var first := ParseFaceElement(refs[0]).value;
      FirstFailureOfTwo(CheckOne(first, refs[1]), CheckOne(first, refs[2]));
    }
  }

  /** Any keyword other than v, vn, vt and f stops the load at that line, changing nothing. */
  lemma OtherKeywordLine(g: Geometry, line: string, lineNum: int)
    requires Keyword(line) !in {"v", "vn", "vt", "f"}
    ensures Step(g, line, lineNum) == Outcome(g, Some(Exit(UnknownKeyword(Keyword(line)), lineNum, line)))
  {
  }

  /** A line without words, blank or comment-only, has the empty keyword, so it is an
      unknown keyword rather than a line to skip. */
  lemma BlankLine(g: Geometry, line: string, lineNum: int)
    requires Words(line) == []
    ensures Step(g, line, lineNum) == Outcome(g, Some(Exit(UnknownKeyword(""), lineNum, line)))
  {
  }

  lemma BlankLineExamples(g: Geometry, lineNum: int)
    ensures Step(g, "", lineNum).error == Some(Exit(UnknownKeyword(""), lineNum, ""))
    ensures Step(g, "# a comment", lineNum).error == Some(Exit(UnknownKeyword(""), lineNum, "# a comment"))
  {
    StripCommentAppend("", " a comment");
    assert "" + "#" + " a comment" == "# a comment";
  }

  /** A line is read only through its first four words: what follows them is ignored. */
  lemma FirstFourWords(g: Geometry, line1: string, line2: string, lineNum: int)
    requires forall k :: 0 <= k < 4 ==> Arg(line1, k) == Arg(line2, k)
    ensures WithoutLine(Step(g, line1, lineNum)) == WithoutLine(Step(g, line2, lineNum))
  {
    assert Arg(line1, 0) == Arg(line2, 0) && Arg(line1, 1) == Arg(line2, 1);
    assert Arg(line1, 2) == Arg(line2, 2) && Arg(line1, 3) == Arg(line2, 3);
  }

  /** A comment changes nothing but the raw line an error reports. */
  lemma CommentIgnored(g: Geometry, a: string, comment: string, lineNum: int)
    ensures WithoutLine(Step(g, a + "#" + comment, lineNum)) == WithoutLine(Step(g, a, lineNum))
  {
    StripCommentAppend(a, comment);
  }

  // ---------------------------------------------------------------------------------
  // The loop over lines
  // ---------------------------------------------------------------------------------

  /** Running over two parts of a file is running over the first and then, if that
      succeeded, over the second with the line numbers running on. */
  lemma {:induction false} RunAppend(step: (Geometry, string, int) -> Outcome, g: Geometry,
                                     a: seq<string>, b: seq<string>, lineNum: int)
    ensures Run(step, g, a + b, lineNum) ==
      (var r := Run(step, g, a, lineNum);
       if r.error.Some? then r else Run(step, r.state, b, lineNum + |a|))
    decreases |a|
  {
    if a == [] {
      assert a + b == b;
    } else {
      assert (a + b)[0] == a[0];
      assert (a + b)[1..] == a[1..] + b;
      var r := step(g, a[0], lineNum);
      if r.error.None? {
        RunAppend(step, r.state, a[1..], b, lineNum + 1);
      }
    }
  }

  lemma LoadAppend(g: Geometry, a: seq<string>, b: seq<string>, lineNum: int)
    ensures Load(g, a + b, lineNum) ==
      (var r := Load(g, a, lineNum);
       if r.error.Some? then r else Load(r.state, b, lineNum + |a|))
  {
    RunAppend(Step, g, a, b, lineNum);
  }

  /** A run that fails fails at some line k: the lines before it all succeed, and the
      outcome is that of line k, handled with line number lineNum + k. */
  lemma {:induction false} RunFailingLine(step: (Geometry, string, int) -> Outcome, g: Geometry,
                                          lines: seq<string>, lineNum: int) returns (k: nat)
    requires Run(step, g, lines, lineNum).error.Some?
    ensures k < |lines|
    ensures Run(step, g, lines[..k], lineNum).error.None?
    ensures Run(step, g, lines, lineNum) == step(Run(step, g, lines[..k], lineNum).state, lines[k], lineNum + k)
    decreases |lines|
  {
    var r := step(g, lines[0], lineNum);
    if r.error.Some? {
      k := 0;
      assert lines[..0] == [];
    } else {
      var j := RunFailingLine(step, r.state, lines[1..], lineNum + 1);
      k := j + 1;
      assert lines[..k][0] == lines[0];
      assert lines[..k][1..] == lines[1..][..j];
    }
  }

  lemma FailingLine(g: Geometry, lines: seq<string>, lineNum: int) returns (k: nat)
    requires Load(g, lines, lineNum).error.Some?
    ensures k < |lines|
    ensures Load(g, lines[..k], lineNum).error.None?
    ensures Load(g, lines, lineNum) == Step(Load(g, lines[..k], lineNum).state, lines[k], lineNum + k)
  {
    k := RunFailingLine(Step, g, lines, lineNum);
  }

  /** A diagnosed error names a line of the file by its 1-based number and reports that
      line's raw text; every line before it was handled without error. */
  lemma ExitReportsItsLine(g: Geometry, lines: seq<string>)
    requires Load(g, lines, 1).error.Some? && Load(g, lines, 1).error.value.Exit?
    ensures 1 <= Load(g, lines, 1).error.value.lineNum <= |lines|
    ensures Load(g, lines, 1).error.value.line == lines[Load(g, lines, 1).error.value.lineNum - 1]
    ensures Load(g, lines[..Load(g, lines, 1).error.value.lineNum - 1], 1).error.None?
  {
    var k := FailingLine(g, lines, 1);
  }

  /** A run in which every line that fails `ok` is an error accepts only lines satisfying `ok`. */
  lemma {:induction false} RunNeedsAll(step: (Geometry, string, int) -> Outcome, ok: string -> bool,
                                       g: Geometry, lines: seq<string>, lineNum: int)
    requires forall h, line, n :: !ok(line) ==> step(h, line, n).error.Some?
    requires Run(step, g, lines, lineNum).error.None?
    ensures forall k :: 0 <= k < |lines| ==> ok(lines[k])
    decreases |lines|
  {
    if lines != [] {
      var r := step(g, lines[0], lineNum);
      RunNeedsAll(step, ok, r.state, lines[1..], lineNum + 1);
      forall k | 0 <= k < |lines| ensures ok(lines[k]) {
        if k > 0 {
          assert lines[k] == lines[1..][k - 1];
        }
      }
    }
  }

  /** The keywords loadObj knows. */
  predicate Known(line: string) {
    Keyword(line) in {"v", "vn", "vt", "f"}
  }

  /** A file loads without error only if every line starts with v, vn, vt or f: a blank
      or comment-only line anywhere stops the load. */
  lemma LoadAcceptsOnlyKnownKeywords(g: Geometry, lines: seq<string>, lineNum: int)
    requires Load(g, lines, lineNum).error.None?
    ensures forall k :: 0 <= k < |lines| ==> Keyword(lines[k]) in {"v", "vn", "vt", "f"}
  {
    forall h, line, n | !Known(line) ensures Step(h, line, n).error.Some? {
      OtherKeywordLine(h, line, n);
    }
    RunNeedsAll(Step, Known, g, lines, lineNum);
    assert forall k :: 0 <= k < |lines| ==> Known(lines[k]);
  }

  /** The number of lines with keyword `keyword`. */
  function Count(lines: seq<string>, keyword: string): nat {
    if lines == [] then 0
    else (if Keyword(lines[0]) == keyword then 1 else 0) + Count(lines[1..], keyword)
  }

  /** After a load without error there are three floats per v, vn and vt line, and one
      face element per f line. */
  lemma {:induction false} LoadCounts(g: Geometry, lines: seq<string>, lineNum: int)
    requires Load(g, lines, lineNum).error.None?
    ensures |Load(g, lines, lineNum).state.vertices| == |g.vertices| + 3 * Count(lines, "v")
    ensures |Load(g, lines, lineNum).state.normals| == |g.normals| + 3 * Count(lines, "vn")
    ensures |Load(g, lines, lineNum).state.texCoords| == |g.texCoords| + 3 * Count(lines, "vt")
    ensures |Load(g, lines, lineNum).state.elements| == |g.elements| + Count(lines, "f")
    decreases |lines|
  {
    if lines != [] {
      var line := lines[0];
      var r := Step(g, line, lineNum);
      if Keyword(line) == "v" {
        VertexLine(g, line, lineNum);
      } else if Keyword(line) == "vn" {
        NormalLine(g, line, lineNum);
      } else if Keyword(line) == "vt" {
        TexCoordLine(g, line, lineNum);
      } else if Keyword(line) == "f" {
        FaceLine(g, line, lineNum);
      }
      LoadCounts(r.state, lines[1..], lineNum + 1);
    }
  }

  /** Loading only ever appends: whatever the outcome, each container of the starting
      state is a prefix of the same container afterwards. */
  lemma {:induction false} LoadOnlyAppends(g: Geometry, lines: seq<string>, lineNum: int)
    ensures g.vertices <= Load(g, lines, lineNum).state.vertices
    ensures g.normals <= Load(g, lines, lineNum).state.normals
    ensures g.texCoords <= Load(g, lines, lineNum).state.texCoords
    ensures g.elements <= Load(g, lines, lineNum).state.elements
    decreases |lines|
  {
    if lines != [] {
      var r := Step(g, lines[0], lineNum);
      if r.error.None? {
        LoadOnlyAppends(r.state, lines[1..], lineNum + 1);
      }
    }
  }

  /** The float containers hold whole triples. */
  predicate WholeTriples(g: Geometry) {
    |g.vertices| % 3 == 0 && |g.normals| % 3 == 0 && |g.texCoords| % 3 == 0
  }

  /** Each float container that grows by none or by one triple stays in whole triples. */
  lemma TriplesAppended(g: Geometry, h: Geometry)
    requires WholeTriples(g)
    requires |h.vertices| == |g.vertices| || |h.vertices| == |g.vertices| + 3
    requires |h.normals| == |g.normals| || |h.normals| == |g.normals| + 3
    requires |h.texCoords| == |g.texCoords| || |h.texCoords| == |g.texCoords| + 3
    ensures WholeTriples(h)
  {
  }

  lemma VertexLineKeepsWholeTriples(g: Geometry, line: string, lineNum: int)
    requires WholeTriples(g) && Keyword(line) == "v"
    ensures Step(g, line, lineNum).error.None? ==> WholeTriples(Step(g, line, lineNum).state)
  {
    var r := PushUntilFailure(ComponentResults([Arg(line, 1), Arg(line, 2), Arg(line, 3)]));
    var o := Step(g, line, lineNum);
    assert o.state == g.(vertices := g.vertices + r.0);
    assert o.error.None? ==> !r.1;
    if o.error.None? {
      TriplesAppended(g, o.state);
    }
  }

  lemma NormalLineKeepsWholeTriples(g: Geometry, line: string, lineNum: int)
    requires WholeTriples(g) && Keyword(line) == "vn"
    ensures Step(g, line, lineNum).error.None? ==> WholeTriples(Step(g, line, lineNum).state)
  {
    var r := PushUntilFailure(ComponentResults([Arg(line, 1), Arg(line, 2), Arg(line, 3)]));
    var o := Step(g, line, lineNum);
    assert o.state == g.(normals := g.normals + r.0);
    assert o.error.None? ==> !r.1;
    if o.error.None? {
      TriplesAppended(g, o.state);
    }
  }

  lemma TexCoordLineKeepsWholeTriples(g: Geometry, line: string, lineNum: int)
    requires WholeTriples(g) && Keyword(line) == "vt"
    ensures Step(g, line, lineNum).error.None? ==> WholeTriples(Step(g, line, lineNum).state)
  {
    var r := PushUntilFailure(TexCoordResults([Arg(line, 1), Arg(line, 2), Arg(line, 3)]));
    var o := Step(g, line, lineNum);
    assert o.state == g.(texCoords := g.texCoords + r.0);
    assert o.error.None? ==> !r.1;
    if o.error.None? {
      TriplesAppended(g, o.state);
    }
  }

  /** A line handled without error, or from which an exception escapes, keeps the float
      containers in whole triples. Only a face line raises an escaping exception here:
      the overflow of std::stof is not part of this model. */
  lemma StepKeepsWholeTriples(g: Geometry, line: string, lineNum: int)
    requires WholeTriples(g)
    ensures Step(g, line, lineNum).error.None? || Step(g, line, lineNum).error.value.Throw? ==>
      WholeTriples(Step(g, line, lineNum).state)
  {
    var k := Keyword(line);
    if k == "v" {
      VertexLine(g, line, lineNum);
      VertexLineKeepsWholeTriples(g, line, lineNum);
    } else if k == "vn" {
      NormalLine(g, line, lineNum);
      NormalLineKeepsWholeTriples(g, line, lineNum);
    } else if k == "vt" {
      TexCoordLine(g, line, lineNum);
      TexCoordLineKeepsWholeTriples(g, line, lineNum);
    } else if k == "f" {
      FaceLine(g, line, lineNum);
    } else {
      OtherKeywordLine(g, line, lineNum);
    }
  }

  /** A load that ends without error, or with an exception escaping from a face line,
      leaves the float containers in whole triples; only a diagnosed component error can
      leave a partial triple behind (the overflow of std::stof is not part of this
      model). */
  lemma {:induction false} LoadKeepsWholeTriples(g: Geometry, lines: seq<string>, lineNum: int)
    requires WholeTriples(g)
    requires Load(g, lines, lineNum).error.None? || Load(g, lines, lineNum).error.value.Throw?
    ensures WholeTriples(Load(g, lines, lineNum).state)
    decreases |lines|
  {
    if lines != [] {
      var r := Step(g, lines[0], lineNum);
      assert Load(g, lines, lineNum) ==
        (if r.error.Some? then r else Load(r.state, lines[1..], lineNum + 1));
      StepKeepsWholeTriples(g, lines[0], lineNum);
      if r.error.None? {
        LoadKeepsWholeTriples(r.state, lines[1..], lineNum + 1);
      }
    }
  }
}
