/** Worked examples: single lines and small files run through the model. Each example on
    literal text is proved in two steps, first the words of each literal line, then the
    outcome for any line with those words. */
module LoaderExamples {
  import opened Wrappers
  import opened Text
  import opened Numeric
  import opened Face
  import opened Lines
  import opened Loader
  import opened LoaderProperties

  /** The words of a line with no '#' that joins words by single spaces. */
  lemma WordsOfJoin(words: seq<string>)
    requires forall k :: 0 <= k < |words| ==> words[k] != "" && NoSpace(words[k])
    requires '#' !in Join(words)
    ensures Words(Join(words)) == words
  {
    StripCommentNone(Join(words));
    TokensJoin(words);
  }

  /** A natural number written in decimal reads back as itself. */
  lemma ParseFloatNatural(n: nat)
    ensures ParseFloat(DecimalString(n)) == Some(n as real)
  {
    var fs := FloatSyntax("", "", DecimalString(n), false, "", None);
    assert fs.Render() == DecimalString(n);
    assert DecimalString(n) + "" == DecimalString(n);
    DecimalStringRoundTrip(n);
    ParseFloatComplete(fs);
  }

  lemma FullReferenceExample()
    ensures ParseFaceElement("1/2/3") == Ok(FaceElement(1, 2, 3))
  {
    assert Format(FaceRef(1, Some(2), Some(3))) == "1/2/3";
    FormatRoundTrip(FaceRef(1, Some(2), Some(3)));
  }

  lemma NoTextureReferenceExample()
    ensures ParseFaceElement("4//6") == Ok(FaceElement(4, ABSENT, 6))
  {
    assert Format(FaceRef(4, None, Some(6))) == "4//6";
    FormatRoundTrip(FaceRef(4, None, Some(6)));
  }

  lemma PositionOnlyReferenceExamples()
    ensures ParseFaceElement("1") == Ok(FaceElement(1, ABSENT, ABSENT))
    ensures ParseFaceElement("2") == Ok(FaceElement(2, ABSENT, ABSENT))
    ensures ParseFaceElement("3") == Ok(FaceElement(3, ABSENT, ABSENT))
  {
    assert Format(FaceRef(1, None, None)) == "1";
    FormatRoundTrip(FaceRef(1, None, None));
    assert Format(FaceRef(2, None, None)) == "2";
    FormatRoundTrip(FaceRef(2, None, None));
    ReferenceExamplePositionOnly();
  }

  /** Two lines run one after the other: the second from the state the first leaves. */
  lemma RunTwoLines(step: (Geometry, string, int) -> Outcome, g: Geometry, l1: string, l2: string,
                    lineNum: int, g1: Geometry, o: Outcome)
    requires step(g, l1, lineNum) == Outcome(g1, None)
    requires step(g1, l2, lineNum + 1) == o
    ensures Run(step, g, [l1, l2], lineNum) == o
  {
    assert [l1, l2][1..] == [l2];
    assert [l2][1..] == [];
    assert Run(step, g, [l1, l2], lineNum) == Run(step, g1, [l2], lineNum + 1);
  }

  /** A file of two lines: the first handled without error, then the second. */
  lemma LoadTwoLines(g: Geometry, l1: string, l2: string, lineNum: int, g1: Geometry, o: Outcome)
    requires Step(g, l1, lineNum) == Outcome(g1, None)
    requires Step(g1, l2, lineNum + 1) == o
    ensures Load(g, [l1, l2], lineNum) == o
  {
    RunTwoLines(Step, g, l1, l2, lineNum, g1, o);
  }

  /** A file in two parts: the first handled without error, then the second. */
  lemma LoadSplit(g: Geometry, a: seq<string>, b: seq<string>, lineNum: int, g1: Geometry, o: Outcome)
    requires Load(g, a, lineNum) == Outcome(g1, None)
    requires Load(g1, b, lineNum + |a|) == o
    ensures Load(g, a + b, lineNum) == o
  {
    LoadAppend(g, a, b, lineNum);
  }

  // ---------------------------------------------------------------------------------
  // Face lines and the one-directional check
  // ---------------------------------------------------------------------------------

  /** An `f` line whose three references read as e1, e2 and e3 appends e1 and fails
      exactly when e2 or e3 omits an index e1 gives as positive. */
  lemma FaceLineOf(g: Geometry, line: string, lineNum: int, r1: string, r2: string, r3: string,
                   e1: FaceElement, e2: FaceElement, e3: FaceElement)
    requires Words(line) == ["f", r1, r2, r3]
    requires ParseFaceElement(r1) == Ok(e1) && ParseFaceElement(r2) == Ok(e2) && ParseFaceElement(r3) == Ok(e3)
    ensures Step(g, line, lineNum).state == g.(elements := g.elements + [e1])
    ensures Step(g, line, lineNum).error ==
      if Inconsistent(e2, e1) || Inconsistent(e3, e1) then Some(Exit(FaceComponent, lineNum, line)) else None
  {
    FourWords(line, "f", r1, r2, r3);
    FaceLine(g, line, lineNum);
    FaceLineErrors(g, line, lineNum);
  }

  /** The keyword and arguments of a line of four words. */
  lemma FourWords(line: string, w0: string, w1: string, w2: string, w3: string)
    requires Words(line) == [w0, w1, w2, w3]
    ensures Keyword(line) == w0 && Arg(line, 1) == w1 && Arg(line, 2) == w2 && Arg(line, 3) == w3
  {
  }

  lemma WordsOfInconsistentFace()
    ensures Words("f 1/2/3 4//6 1/2/3") == ["f", "1/2/3", "4//6", "1/2/3"]
  {
    var words := ["f", "1/2/3", "4//6", "1/2/3"];
    assert Join(words) == "f 1/2/3 4//6 1/2/3";
    WordsOfJoin(words);
  }

  lemma InconsistentFaceLine(g: Geometry, line: string, lineNum: int)
    requires Words(line) == ["f", "1/2/3", "4//6", "1/2/3"]
    ensures Step(g, line, lineNum) ==
      Outcome(g.(elements := g.elements + [FaceElement(1, 2, 3)]), Some(Exit(FaceComponent, lineNum, line)))
  {
    FullReferenceExample();
    NoTextureReferenceExample();
    FaceLineOf(g, line, lineNum, "1/2/3", "4//6", "1/2/3",
               FaceElement(1, 2, 3), FaceElement(4, ABSENT, 6), FaceElement(1, 2, 3));
  }

  /** A face whose later reference drops the texture index the first one gives fails with
      the face diagnostic, after the first element was pushed. */
  lemma InconsistentFaceExample(g: Geometry, lineNum: int)
    ensures Step(g, "f 1/2/3 4//6 1/2/3", lineNum) ==
      Outcome(g.(elements := g.elements + [FaceElement(1, 2, 3)]),
              Some(Exit(FaceComponent, lineNum, "f 1/2/3 4//6 1/2/3")))
  {
    WordsOfInconsistentFace();
    InconsistentFaceLine(g, "f 1/2/3 4//6 1/2/3", lineNum);
  }

  lemma WordsOfOneDirectionalFace()
    ensures Words("f 4//6 1/2/3 1/2/3") == ["f", "4//6", "1/2/3", "1/2/3"]
  {
    var words := ["f", "4//6", "1/2/3", "1/2/3"];
    assert Join(words) == "f 4//6 1/2/3 1/2/3";
    WordsOfJoin(words);
  }

  lemma OneDirectionalFaceLine(g: Geometry, line: string, lineNum: int)
    requires Words(line) == ["f", "4//6", "1/2/3", "1/2/3"]
    ensures Step(g, line, lineNum) == Outcome(g.(elements := g.elements + [FaceElement(4, ABSENT, 6)]), None)
  {
    FullReferenceExample();
    NoTextureReferenceExample();
    FaceLineOf(g, line, lineNum, "4//6", "1/2/3", "1/2/3",
               FaceElement(4, ABSENT, 6), FaceElement(1, 2, 3), FaceElement(1, 2, 3));
  }

  /** The check looks one way only: a later reference may give an index the first one
      omits. */
  lemma OneDirectionalExample(g: Geometry, lineNum: int)
    ensures Step(g, "f 4//6 1/2/3 1/2/3", lineNum) ==
      Outcome(g.(elements := g.elements + [FaceElement(4, ABSENT, 6)]), None)
  {
    WordsOfOneDirectionalFace();
    OneDirectionalFaceLine(g, "f 4//6 1/2/3 1/2/3", lineNum);
  }

  // ---------------------------------------------------------------------------------
  // Whole files
  // ---------------------------------------------------------------------------------

  /** A `v` line of three natural numbers appends them. */
  lemma NaturalVertexLine(g: Geometry, line: string, lineNum: int, x: nat, y: nat, z: nat)
    requires Words(line) == ["v", DecimalString(x), DecimalString(y), DecimalString(z)]
    ensures Step(g, line, lineNum) ==
      Outcome(g.(vertices := g.vertices + [x as real, y as real, z as real]), None)
  {
    ParseFloatNatural(x);
    ParseFloatNatural(y);
    ParseFloatNatural(z);
    VertexLine(g, line, lineNum);
  }

  lemma WordsOfOrigin()
    ensures Words("v 0 0 0") == ["v", DecimalString(0), DecimalString(0), DecimalString(0)]
  {
    var words := ["v", "0", "0", "0"];
    assert Join(words) == "v 0 0 0";
    WordsOfJoin(words);
  }

  lemma WordsOfUnitX()
    ensures Words("v 1 0 0") == ["v", DecimalString(1), DecimalString(0), DecimalString(0)]
  {
    var words := ["v", "1", "0", "0"];
    assert Join(words) == "v 1 0 0";
    WordsOfJoin(words);
  }

  lemma WordsOfUnitY()
    ensures Words("v 0 1 0") == ["v", DecimalString(0), DecimalString(1), DecimalString(0)]
  {
    var words := ["v", "0", "1", "0"];
    assert Join(words) == "v 0 1 0";
    WordsOfJoin(words);
  }

  lemma WordsOfTriangleFace()
    ensures Words("f 1 2 3") == ["f", "1", "2", "3"]
  {
    var words := ["f", "1", "2", "3"];
    assert Join(words) == "f 1 2 3";
    WordsOfJoin(words);
  }

  /** Two `v` lines of natural numbers, each appending its three numbers. */
  lemma TwoVertexSteps(g: Geometry, l1: string, l2: string, lineNum: int,
                       x1: nat, y1: nat, z1: nat, x2: nat, y2: nat, z2: nat)
    requires Words(l1) == ["v", DecimalString(x1), DecimalString(y1), DecimalString(z1)]
    requires Words(l2) == ["v", DecimalString(x2), DecimalString(y2), DecimalString(z2)]
    ensures Step(g, l1, lineNum) == Outcome(g.(vertices := g.vertices + [x1 as real, y1 as real, z1 as real]), None)
    ensures Step(g.(vertices := g.vertices + [x1 as real, y1 as real, z1 as real]), l2, lineNum + 1) ==
      Outcome(g.(vertices := g.vertices + [x1 as real, y1 as real, z1 as real] +
                             [x2 as real, y2 as real, z2 as real]), None)
  {
    NaturalVertexLine(g, l1, lineNum, x1, y1, z1);
    NaturalVertexLine(g.(vertices := g.vertices + [x1 as real, y1 as real, z1 as real]), l2, lineNum + 1,
                      x2, y2, z2);
  }

  /** A file of two `v` lines of natural numbers appends their six numbers. */
  lemma TwoVertexLines(g: Geometry, l1: string, l2: string, lineNum: int,
                       x1: nat, y1: nat, z1: nat, x2: nat, y2: nat, z2: nat)
    requires Words(l1) == ["v", DecimalString(x1), DecimalString(y1), DecimalString(z1)]
    requires Words(l2) == ["v", DecimalString(x2), DecimalString(y2), DecimalString(z2)]
    ensures Load(g, [l1, l2], lineNum) ==
      Outcome(g.(vertices := g.vertices + [x1 as real, y1 as real, z1 as real] +
                             [x2 as real, y2 as real, z2 as real]), None)
  {
    TwoVertexSteps(g, l1, l2, lineNum, x1, y1, z1, x2, y2, z2);
    LoadTwoLines(g, l1, l2, lineNum, g.(vertices := g.vertices + [x1 as real, y1 as real, z1 as real]),
      Outcome(g.(vertices := g.vertices + [x1 as real, y1 as real, z1 as real] +
                             [x2 as real, y2 as real, z2 as real]), None));
  }

  /** A `v` line of natural numbers, then the face `f 1 2 3`. */
  lemma VertexThenTriangleFaceSteps(g: Geometry, l1: string, l2: string, lineNum: int, x: nat, y: nat, z: nat)
    requires Words(l1) == ["v", DecimalString(x), DecimalString(y), DecimalString(z)]
    requires Words(l2) == ["f", "1", "2", "3"]
    ensures Step(g, l1, lineNum) == Outcome(g.(vertices := g.vertices + [x as real, y as real, z as real]), None)
    ensures Step(g.(vertices := g.vertices + [x as real, y as real, z as real]), l2, lineNum + 1) ==
      Outcome(g.(vertices := g.vertices + [x as real, y as real, z as real],
                 elements := g.elements + [FaceElement(1, ABSENT, ABSENT)]), None)
  {
    NaturalVertexLine(g, l1, lineNum, x, y, z);
    PositionOnlyReferenceExamples();
    FaceLineOf(g.(vertices := g.vertices + [x as real, y as real, z as real]), l2, lineNum + 1, "1", "2", "3",
               FaceElement(1, ABSENT, ABSENT), FaceElement(2, ABSENT, ABSENT), FaceElement(3, ABSENT, ABSENT));
  }

  /** A `v` line of natural numbers, then the face `f 1 2 3`, which stores its first
      reference only. */
  lemma VertexThenTriangleFace(g: Geometry, l1: string, l2: string, lineNum: int, x: nat, y: nat, z: nat)
    requires Words(l1) == ["v", DecimalString(x), DecimalString(y), DecimalString(z)]
    requires Words(l2) == ["f", "1", "2", "3"]
    ensures Load(g, [l1, l2], lineNum) ==
      Outcome(g.(vertices := g.vertices + [x as real, y as real, z as real],
                 elements := g.elements + [FaceElement(1, ABSENT, ABSENT)]), None)
  {
    VertexThenTriangleFaceSteps(g, l1, l2, lineNum, x, y, z);
    LoadTwoLines(g, l1, l2, lineNum, g.(vertices := g.vertices + [x as real, y as real, z as real]),
      Outcome(g.(vertices := g.vertices + [x as real, y as real, z as real],
                 elements := g.elements + [FaceElement(1, ABSENT, ABSENT)]), None));
  }

  lemma TriangleFirstHalf(l1: string, l2: string)
    requires Words(l1) == ["v", DecimalString(0), DecimalString(0), DecimalString(0)]
    requires Words(l2) == ["v", DecimalString(1), DecimalString(0), DecimalString(0)]
    ensures Load(EMPTY, [l1, l2], 1) == Outcome(EMPTY.(vertices := [0.0, 0.0, 0.0, 1.0, 0.0, 0.0]), None)
  {
    TwoVertexLines(EMPTY, l1, l2, 1, 0, 0, 0, 1, 0, 0);
    TriangleFirstVertices();
  }

  /** The first six floats of the triangle, three by three. */
  lemma TriangleFirstVertices()
    ensures EMPTY.vertices + [0 as real, 0 as real, 0 as real] + [1 as real, 0 as real, 0 as real] ==
      [0.0, 0.0, 0.0, 1.0, 0.0, 0.0]
  {
  }

  lemma TriangleSecondHalf(l3: string, l4: string)
    requires Words(l3) == ["v", DecimalString(0), DecimalString(1), DecimalString(0)]
    requires Words(l4) == ["f", "1", "2", "3"]
    ensures Load(EMPTY.(vertices := [0.0, 0.0, 0.0, 1.0, 0.0, 0.0]), [l3, l4], 3) ==
      Outcome(Geometry([0.0, 0.0, 0.0, 1.0, 0.0, 0.0, 0.0, 1.0, 0.0], [], [],
                       [FaceElement(1, ABSENT, ABSENT)]), None)
  {
    VertexThenTriangleFace(EMPTY.(vertices := [0.0, 0.0, 0.0, 1.0, 0.0, 0.0]), l3, l4, 3, 0, 1, 0);
    TriangleVertices();
  }

  /** The nine floats of the triangle, three by three. */
  lemma TriangleVertices()
    ensures [0.0, 0.0, 0.0, 1.0, 0.0, 0.0] + [0 as real, 1 as real, 0 as real] ==
      [0.0, 0.0, 0.0, 1.0, 0.0, 0.0, 0.0, 1.0, 0.0]
  {
  }

  lemma TriangleLines(l1: string, l2: string, l3: string, l4: string)
    requires Words(l1) == ["v", DecimalString(0), DecimalString(0), DecimalString(0)]
    requires Words(l2) == ["v", DecimalString(1), DecimalString(0), DecimalString(0)]
    requires Words(l3) == ["v", DecimalString(0), DecimalString(1), DecimalString(0)]
    requires Words(l4) == ["f", "1", "2", "3"]
    ensures Load(EMPTY, [l1, l2, l3, l4], 1) ==
      Outcome(Geometry([0.0, 0.0, 0.0, 1.0, 0.0, 0.0, 0.0, 1.0, 0.0], [], [],
                       [FaceElement(1, ABSENT, ABSENT)]), None)
  {
    TriangleFirstHalf(l1, l2);
    TriangleSecondHalf(l3, l4);
    assert [l1, l2, l3, l4] == [l1, l2] + [l3, l4];
    LoadSplit(EMPTY, [l1, l2], [l3, l4], 1, EMPTY.(vertices := [0.0, 0.0, 0.0, 1.0, 0.0, 0.0]),
      Outcome(Geometry([0.0, 0.0, 0.0, 1.0, 0.0, 0.0, 0.0, 1.0, 0.0], [], [],
                       [FaceElement(1, ABSENT, ABSENT)]), None));
  }

  /** A three-vertex triangle: nine floats, and one stored element for its face, the first
      reference only. */
  lemma TriangleExample()
    ensures Load(EMPTY, ["v 0 0 0", "v 1 0 0", "v 0 1 0", "f 1 2 3"], 1) ==
      Outcome(Geometry([0.0, 0.0, 0.0, 1.0, 0.0, 0.0, 0.0, 1.0, 0.0], [], [],
                       [FaceElement(1, ABSENT, ABSENT)]), None)
  {
    WordsOfOrigin();
    WordsOfUnitX();
    WordsOfUnitY();
    WordsOfTriangleFace();
    TriangleLines("v 0 0 0", "v 1 0 0", "v 0 1 0", "f 1 2 3");
  }

  lemma WordsOfGroup()
    ensures Words("g mygroup") == ["g", "mygroup"]
  {
    var words := ["g", "mygroup"];
    assert Join(words) == "g mygroup";
    WordsOfJoin(words);
  }

  lemma UnknownKeywordSteps(l1: string, l2: string)
    requires Words(l1) == ["v", DecimalString(0), DecimalString(0), DecimalString(0)]
    requires Words(l2) == ["g", "mygroup"]
    ensures Step(EMPTY, l1, 1) == Outcome(EMPTY.(vertices := [0.0, 0.0, 0.0]), None)
    ensures Step(EMPTY.(vertices := [0.0, 0.0, 0.0]), l2, 2) ==
      Outcome(EMPTY.(vertices := [0.0, 0.0, 0.0]), Some(Exit(UnknownKeyword("g"), 2, l2)))
  {
    NaturalVertexLine(EMPTY, l1, 1, 0, 0, 0);
    assert EMPTY.vertices + [0 as real, 0 as real, 0 as real] == [0.0, 0.0, 0.0];
    OtherKeywordLine(EMPTY.(vertices := [0.0, 0.0, 0.0]), l2, 2);
  }

  lemma UnknownKeywordLines(l1: string, l2: string)
    requires Words(l1) == ["v", DecimalString(0), DecimalString(0), DecimalString(0)]
    requires Words(l2) == ["g", "mygroup"]
    ensures Load(EMPTY, [l1, l2], 1) ==
      Outcome(EMPTY.(vertices := [0.0, 0.0, 0.0]), Some(Exit(UnknownKeyword("g"), 2, l2)))
  {
    UnknownKeywordSteps(l1, l2);
    LoadTwoLines(EMPTY, l1, l2, 1, EMPTY.(vertices := [0.0, 0.0, 0.0]),
      Outcome(EMPTY.(vertices := [0.0, 0.0, 0.0]), Some(Exit(UnknownKeyword("g"), 2, l2))));
  }

  /** A group line is an unknown keyword, reported with its own line number. */
  lemma UnknownKeywordExample()
    ensures Load(EMPTY, ["v 0 0 0", "g mygroup"], 1) ==
      Outcome(Geometry([0.0, 0.0, 0.0], [], [], []), Some(Exit(UnknownKeyword("g"), 2, "g mygroup")))
  {
    WordsOfOrigin();
    WordsOfGroup();
    UnknownKeywordLines("v 0 0 0", "g mygroup");
  }

  lemma WordsOfComment()
    ensures Words("# the second vertex") == []
  {
    StripCommentAppend("", " the second vertex");
    assert "" + "#" + " the second vertex" == "# the second vertex";
  }

  lemma CommentSteps(l1: string, l2: string)
    requires Words(l1) == ["v", DecimalString(0), DecimalString(0), DecimalString(0)]
    requires Words(l2) == []
    ensures Step(EMPTY, l1, 1) == Outcome(EMPTY.(vertices := [0.0, 0.0, 0.0]), None)
    ensures Step(EMPTY.(vertices := [0.0, 0.0, 0.0]), l2, 2) ==
      Outcome(EMPTY.(vertices := [0.0, 0.0, 0.0]), Some(Exit(UnknownKeyword(""), 2, l2)))
  {
    NaturalVertexLine(EMPTY, l1, 1, 0, 0, 0);
    assert EMPTY.vertices + [0 as real, 0 as real, 0 as real] == [0.0, 0.0, 0.0];
    BlankLine(EMPTY.(vertices := [0.0, 0.0, 0.0]), l2, 2);
  }

  lemma CommentLines(l1: string, l2: string, l3: string)
    requires Words(l1) == ["v", DecimalString(0), DecimalString(0), DecimalString(0)]
    requires Words(l2) == []
    ensures Load(EMPTY, [l1, l2, l3], 1) ==
      Outcome(EMPTY.(vertices := [0.0, 0.0, 0.0]), Some(Exit(UnknownKeyword(""), 2, l2)))
  {
    CommentSteps(l1, l2);
    LoadTwoLines(EMPTY, l1, l2, 1, EMPTY.(vertices := [0.0, 0.0, 0.0]),
      Outcome(EMPTY.(vertices := [0.0, 0.0, 0.0]), Some(Exit(UnknownKeyword(""), 2, l2))));
    assert [l1, l2, l3] == [l1, l2] + [l3];
    LoadAppend(EMPTY, [l1, l2], [l3], 1);
  }

  /** A comment line between directives is not skipped: it stops the load at its own line. */
  lemma CommentLineExample()
    ensures Load(EMPTY, ["v 0 0 0", "# the second vertex", "v 1 0 0"], 1) ==
      Outcome(Geometry([0.0, 0.0, 0.0], [], [], []),
              Some(Exit(UnknownKeyword(""), 2, "# the second vertex")))
  {
    WordsOfOrigin();
    WordsOfComment();
    CommentLines("v 0 0 0", "# the second vertex", "v 1 0 0");
  }
}
