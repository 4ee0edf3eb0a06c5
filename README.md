# A verified model of a Wavefront OBJ loader

This project models `ObjLoader`, a small C++ reader for Wavefront OBJ geometry, and
proves properties of the model in Dafny. The loader reads a text file line by line. It
cuts each line at its first `#`, splits what is left into whitespace-separated words and
dispatches on the first word:

- `v x y z` appends three floats to the positions;
- `vn i j k` appends three floats to the normals;
- `vt u [v] [w]` appends three floats to the texture coordinates, with a missing `v` or
  `w` read as 0;
- `f a b c` parses three face references of the shape `p`, `p/t`, `p//n` or `p/t/n`,
  checks the later two against the first, and stores the first;
- any other word is an error.

Numbers are read with `std::stof` and `std::stoul`, and a token is accepted only when the
conversion reads all of it.

The model follows the code's own structure, one module per part:

| file | module | what it holds |
|---|---|---|
| `wrappers.dfy` | `Wrappers` | `Option` and `Result` |
| `text.dfy` | `Text` | character classes, `find`, the whitespace and digit scans of the C++ library |
| `numeric.dfy` | `Numeric` | `parseInt` (`std::stoul` with its 64-bit wrap-around and the narrowing to `int`) and `parseFloat` (the decimal grammar of `std::stof`, valued exactly as a real) |
| `face.dfy` | `Face` | `FaceElement`, with -1 for an absent index, and `parseFaceElement` |
| `lines.dfy` | `Lines` | removing the comment, and reading words as `operator>>` does |
| `loader.dfy` | `Loader` | the `ObjLoader` class with its four `seq` fields and `loadObj` as a method with a loop over the lines; also `Step`, `Run` and `Load`, the functions that state what one line and a whole file do |
| `loader_properties.dfy` | `LoaderProperties` | what each kind of line does, and what a whole load does |
| `loader_examples.dfy` | `LoaderExamples` | whole lines and small files run through the model |

The file is given as its sequence of lines, numbered from 1. A diagnostic printed before
`exit(EXIT_FAILURE)` becomes the error `Exit(diagnostic, lineNum, line)`. It carries the
line number and the raw line, comment included. Two exceptions that `loadObj` does not
catch (it catches only `std::invalid_argument`) become `Throw(exception)`, which
carries neither: the `std::out_of_range` of `std::stoul` for a face index of 2^64 or
more, and the string thrown at loader.cpp:59. The containers are modelled exactly after an error as well, including
the components pushed before the failing one. An escaping exception leaves the object
intact for the caller to read.

In several places the code does not do what a reader of the OBJ format might expect.
The model follows the code:

- A blank or comment-only line has the empty keyword. It is reported as an unknown
  keyword and stops the load (loader.cpp:155-158); it is not skipped.
- From a face line only the first reference is stored (loader.cpp:140). The later two
  are parsed and checked, then dropped. `elements.back()`, which the check reads, is
  therefore always this line's first reference.
- A later reference is checked against the first reference, not against the one before
  it.
- The check goes one way (loader.cpp:144-145). A later reference may give a texture or
  normal index that the first one lacks.
- Extra words after the first four are ignored. The code does not demand exactly three
  arguments.
- An out-of-range integer and a reference with a third `/` are not caught, in any of the
  three references of a face. They escape `loadObj` without a line number.
- A failing line leaves in place the values pushed before it failed.

## Model

| member | source | states |
|---|---|---|
| `Text.Find` | loader.cpp:36 | `find` gives the first position at or after the start that holds the character, or none when no later position holds it |
| `Text.SkipSpace` | loader.cpp:84 | the whitespace skipped before a word or a number: every skipped character is whitespace and the one after is not |
| `Text.WordEnd` | loader.cpp:84 | a word ends at the first whitespace character or at the end of the text |
| `Text.DigitRun` | loader.cpp:23 | the longest run of decimal digits from a position: all digits, followed by a non-digit or the end |
| `Lines.StripComment` | loader.cpp:80 | the longest prefix of the line without `#`: it holds no `#`, and the character after it, if any, is `#` |
| `Lines.StripCommentAppend` | loader.cpp:80 | everything after the first `#` is dropped |
| `Lines.StripCommentNone` | loader.cpp:80 | a line without `#` is kept whole |
| `Lines.Tokens` | loader.cpp:81-84 | every word read is non-empty and contains no whitespace |
| `Lines.WordExtraction` | loader.cpp:84-88 | the extractions from a text: all give "" when only whitespace is left; otherwise the first gives the characters from the first non-whitespace one up to the next whitespace, and each later one reads on from the end of that word |
| `Lines.TokensAfterSpace` | loader.cpp:84 | whitespace before the words does not change them |
| `Lines.TokensOfWord` | loader.cpp:84 | a word followed by whitespace is read first, then the rest |
| `Lines.TokensJoin` | loader.cpp:81-88 | reading words back from words joined by single spaces gives exactly those words |
| `Numeric.UnsignedLong` | loader.cpp:23 | the `unsigned long` from `std::stoul` is below 2^64 and congruent to the signed magnitude modulo 2^64 |
| `Numeric.ToInt32` | loader.cpp:23 | the conversion to `int` gives the 32-bit value congruent to the unsigned one modulo 2^32 |
| `Numeric.ParseIntSound` | loader.cpp:21-29 | when parseInt accepts a string, the whole string is one integer token (leading whitespace, an optional sign, at least one digit) whose magnitude is below 2^64, and the result is that value wrapped and narrowed |
| `Numeric.AcceptedIntScan` | loader.cpp:21-29 | when parseInt accepts a string, the digits run to its end, and the result is the signed magnitude wrapped and narrowed |
| `Numeric.ParseIntComplete` | loader.cpp:21-29 | a well-formed integer token is accepted exactly when its magnitude is below 2^64, and is out of range exactly when it is not |
| `Numeric.ParseIntRejectsTrailing` | loader.cpp:24-26 | an integer token followed by a non-digit (`"3abc"`) is rejected as malformed, never truncated |
| `Numeric.ParseIntSmall` | loader.cpp:21-29 | a token whose magnitude is below 2^31 reads back as its signed value |
| `Numeric.NarrowSmall` | loader.cpp:23 | a magnitude below 2^31 survives the wrap-around and the narrowing, with its sign |
| `Numeric.ParseIntDecimal` | loader.cpp:21-29 | the decimal spelling of any index below 2^31 reads back as that index |
| `Numeric.ScanExponent` | loader.cpp:13 | the exponent scan stays within the string and gives 0 when it takes nothing (that what it takes is a whole exponent is `ScanExponentSyntax`) |
| `Numeric.MantissaLandmarks` | loader.cpp:13 | the scan of a mantissa lies in order within the string, and its whole and fraction parts are digits |
| `Numeric.ScanFloat` | loader.cpp:13 | what the scan of `std::stof` reads as the whole and fraction parts are digit strings |
| `Numeric.ScanExponentRender` | loader.cpp:13 | a well-formed exponent followed by a non-digit is read whole, with its value |
| `Numeric.ScanExponentSyntax` | loader.cpp:13 | what the exponent scan takes spells a well-formed exponent with the value it gives |
| `Numeric.ScanFloatRender` | loader.cpp:13 | a well-formed decimal token followed by a character that cannot extend it is read exactly to its end, with its sign, digits and exponent |
| `Numeric.ScannedFloatSyntax` | loader.cpp:13 | the characters the scan takes spell a well-formed decimal token whose value is what the scan read |
| `Numeric.ParseFloatSound` | loader.cpp:11-19 | when parseFloat accepts a string, the whole string is one decimal token, and the result is that token's value |
| `Numeric.ParseFloatWitness` | loader.cpp:11-19 | the token that an accepted string spells, with the value parseFloat returns |
| `Numeric.ParseFloatAt` | loader.cpp:11-16 | at the positions where the mantissa scan stops, parseFloat accepts exactly when the mantissa has a digit and the exponent scan reaches the end of the string, and then gives the value of what was scanned |
| `Numeric.AcceptedFloatScan` | loader.cpp:11-19 | when parseFloat accepts a string, the scan reaches its end |
| `Numeric.ParseFloatComplete` | loader.cpp:11-19 | every well-formed decimal token is accepted with its exact value |
| `Numeric.ParseFloatRejectsTrailing` | loader.cpp:14-16 | a decimal token followed by a character that cannot extend it (`"1.0x"`) is rejected, never truncated |
| `Numeric.EmptyTokenRejected` | loader.cpp:11-29 | the empty token is rejected by both parsers |
| `Face.SplitOne` | loader.cpp:36-41 | a reference without `/` is the position field alone |
| `Face.SplitTwo` | loader.cpp:43-52 | `p/t` is cut into the position and texture fields |
| `Face.SplitThree` | loader.cpp:55-64 | `p/t/n` is cut into its three fields |
| `Face.SplitFour` | loader.cpp:55-60 | a reference with a third `/` is always found to have too many fields |
| `Face.ParsePositionOnly` | loader.cpp:36-41 | a reference without `/` is parsed whole as the position index, with the texture and normal indices left at -1; an unreadable one gives the integer error |
| `Face.ParsePositionTexture` | loader.cpp:43-52 | `p/t` is accepted exactly when parseInt accepts `p` and `t` is empty or accepted by parseInt; it sets the position and the texture (-1 when `t` is empty), and leaves the normal at -1 |
| `Face.ParseThreeFields` | loader.cpp:55-66 | `p/t/n` and `p//n` are accepted exactly when parseInt accepts `p` and each of `t` and `n` is empty or accepted by parseInt; the texture or normal index is -1 when its field is empty and the parsed integer otherwise |
| `Face.ParseFourFields` | loader.cpp:55-60 | a reference with a third `/` is never accepted; it fails with too many fields once parseInt accepts the first field and the second is empty or accepted |
| `Face.EmptyPositionFails` | loader.cpp:38 | an empty position field, as in `"/5"` or `""`, is malformed |
| `Face.FormatRoundTrip` | loader.cpp:31-67 | parsing the canonical spelling of any reference whose indices fit an `int` gives back that reference, with -1 for each index it omits |
| `Face.ReferenceExampleFull` | loader.cpp:31-67 | `"3/5/9"` reads as (3, 5, 9) |
| `Face.ReferenceExampleNoTexture` | loader.cpp:31-67 | `"3//9"` reads as (3, -1, 9) |
| `Face.ReferenceExampleNoNormal` | loader.cpp:31-67 | `"3/5"` reads as (3, 5, -1) |
| `Face.ReferenceExamplePositionOnly` | loader.cpp:31-67 | `"3"` reads as (3, -1, -1) |
| `Loader.PushUntilFailure` | loader.cpp:91-94 | a loop that pushes parsed values until one fails pushes each success in order, all of them when none failed, and stops at the first failure |
| `Loader.PushUntilFailureStop` | loader.cpp:91-94 | a loop that stops at the k-th value has pushed exactly the values before it |
| `Loader.PushUntilFailureNext` | loader.cpp:91-94 | a loop that reads a good k-th value pushes it and goes on |
| `Loader.FirstFailure` | loader.cpp:142-149 | a loop of checks finds no failure exactly when every check passes |
| `Loader.FirstFailureStop` | loader.cpp:142-149 | a loop of checks that first fails at the k-th reports the k-th failure |
| `Loader.FaceFailureKind` | loader.cpp:150-154 | an error in a face line is caught and diagnosed exactly when it is a malformed number or an inconsistent reference; the other two escape |
| `Loader.FaceBranch` | loader.cpp:139-149 | a face line stores at most one element, after those already stored, and changes no other container |
| `Loader.Dispatch` | loader.cpp:85-159 | every branch only appends to the containers |
| `Loader.Report` | loader.cpp:96-98 | a line fails exactly when its branch failed; a diagnostic reports the line number and the raw line |
| `Loader.Step` | loader.cpp:79-160 | one line only appends to the containers, and its diagnostic reports its line number and raw text |
| `Loader.ObjLoader.constructor` | loader.cpp:9 | a new loader holds four empty containers |
| `Loader.ObjLoader.LoadObj` | loader.cpp:69-163 | the lines are handled in order from line number 1, and the first error stops the load; the containers and the error are those the function `Load` gives from the old contents |
| `Loader.ObjLoader.HandleLine` | loader.cpp:79-159 | one pass of the loop changes the containers and fails as `Step` says |
| `Loader.ObjLoader.PushVertexComponents` | loader.cpp:87-99 | the positions gain the components that parse, up to the first that does not; the other containers are unchanged |
| `Loader.ObjLoader.PushNormalComponents` | loader.cpp:101-113 | the normals gain the components that parse, up to the first that does not; the other containers are unchanged |
| `Loader.ObjLoader.PushTexCoordComponents` | loader.cpp:115-133 | the texture coordinates gain the required first component, then each later one (0 for an empty word), up to the first that fails; the other containers are unchanged |
| `Loader.ObjLoader.PushFace` | loader.cpp:136-154 | the `f` branch stores and fails as `FaceBranch` says |
| `Loader.ObjLoader.CheckLaterReferences` | loader.cpp:142-149 | the loop over the later two references reports the first that fails to parse or omits an index the last stored element gives as positive |
| `Loader.ObjLoader.GetVertices` | loader.cpp:165-167 | a copy of the positions |
| `Loader.ObjLoader.GetNormals` | loader.cpp:169-171 | a copy of the normals |
| `Loader.ObjLoader.GetTexCoords` | loader.cpp:173-175 | a copy of the texture coordinates |
| `Loader.ObjLoader.GetElements` | loader.cpp:176-178 | a copy of the stored face elements |
| `LoaderProperties.ThreeResults` | loader.cpp:91-94 | a loop over three parse results pushes all three, in order, exactly when all three succeed |
| `LoaderProperties.VertexLine` | loader.cpp:85-99 | a `v` line succeeds exactly when its three components parse, and then appends exactly those three floats to the positions; on failure it reports the vertex diagnostic, keeps fewer than three new floats and changes no other container; a missing component makes it fail |
| `LoaderProperties.NormalLine` | loader.cpp:100-113 | the same for a `vn` line, on the normals |
| `LoaderProperties.TexCoordLine` | loader.cpp:114-133 | a `vt` line succeeds exactly when its first component parses and each later one is missing or parses; it then appends exactly three floats, with 0 for each missing one |
| `LoaderProperties.FirstFailureOfTwo` | loader.cpp:142-149 | of the two later checks, the first failure is reported |
| `LoaderProperties.FaceBranchAccepts` | loader.cpp:139-149 | the `f` branch succeeds exactly when the first reference parses and both later ones pass the check against it |
| `LoaderProperties.FaceLine` | loader.cpp:134-154 | an `f` line succeeds exactly when its three references parse and neither later one omits an index the first gives as positive; the first reference, when it parses, is the one element stored, even when the line then fails |
| `LoaderProperties.FaceLineErrors` | loader.cpp:138-154 | a diagnosed face failure is the face diagnostic; a first reference out of range or with too many fields lets its exception escape instead |
| `LoaderProperties.FaceLineSecondErrors` | loader.cpp:142-154 | when the first reference parses and the second fails, the second decides the error: out of range or a third `/` escapes as its exception, a malformed or inconsistent reference gives the face diagnostic with the line |
| `LoaderProperties.FaceLineThirdErrors` | loader.cpp:142-154 | the same for the third reference once the second has passed its check |
| `LoaderProperties.OtherKeywordLine` | loader.cpp:155-158 | any keyword other than v, vn, vt and f stops the load with that keyword, its line number and its raw line, and changes nothing |
| `LoaderProperties.BlankLine` | loader.cpp:155-158 | a line without words has the empty keyword and is an unknown-keyword error |
| `LoaderProperties.BlankLineExamples` | loader.cpp:80-84 | an empty line and a comment-only line are both errors |
| `LoaderProperties.FirstFourWords` | loader.cpp:84-137 | two lines with the same first four words are handled alike; any further words are ignored |
| `LoaderProperties.CommentIgnored` | loader.cpp:80 | appending a comment changes nothing but the raw line an error reports |
| `LoaderProperties.RunAppend` | loader.cpp:78-161 | the loop over two parts of a file is the loop over the first part, then, if that succeeds, over the second from the next line number |
| `LoaderProperties.LoadAppend` | loader.cpp:78-161 | the same for `Load` |
| `LoaderProperties.RunFailingLine` | loader.cpp:78-161 | a failing loop fails at some line k: the lines before it succeed, and line k, numbered from the start plus k, fails from their state |
| `LoaderProperties.FailingLine` | loader.cpp:77-161 | the same for `Load` |
| `LoaderProperties.ExitReportsItsLine` | loader.cpp:77-160 | a diagnosed error names a line of the file by its 1-based number, reports that line's raw text, and every earlier line loads without error |
| `LoaderProperties.RunNeedsAll` | loader.cpp:78-161 | a loop in which every line that fails a test is an error succeeds only when every line passes the test |
| `LoaderProperties.LoadAcceptsOnlyKnownKeywords` | loader.cpp:85-158 | a file loads without error only if every line's keyword is v, vn, vt or f, so it has no blank or comment-only line |
| `LoaderProperties.LoadCounts` | loader.cpp:85-154 | after a load without error there are three new floats per v, vn and vt line, and one new element per f line |
| `LoaderProperties.LoadOnlyAppends` | loader.cpp:69-163 | whatever the outcome, each container starts with what it held before the load |
| `LoaderProperties.VertexLineKeepsWholeTriples` | loader.cpp:85-99 | a successful `v` line keeps the float containers in whole triples |
| `LoaderProperties.NormalLineKeepsWholeTriples` | loader.cpp:100-113 | a successful `vn` line keeps them in whole triples |
| `LoaderProperties.TexCoordLineKeepsWholeTriples` | loader.cpp:114-133 | a successful `vt` line keeps them in whole triples |
| `LoaderProperties.StepKeepsWholeTriples` | loader.cpp:79-160 | a line that succeeds, or from which an exception escapes (in the model only a face line raises one), keeps the float containers in whole triples |
| `LoaderProperties.LoadKeepsWholeTriples` | loader.cpp:69-163 | a load that ends without error, or with an exception escaping from a face line, leaves whole triples; in the model only a diagnosed component error can leave a partial one |
| `LoaderExamples.WordsOfJoin` | loader.cpp:80-84 | a line of words joined by single spaces, without `#`, reads as exactly those words |
| `LoaderExamples.ParseFloatNatural` | loader.cpp:11-19 | the decimal spelling of a natural number reads as that number |
| `LoaderExamples.FullReferenceExample` | loader.cpp:31-67 | `"1/2/3"` reads as (1, 2, 3) |
| `LoaderExamples.NoTextureReferenceExample` | loader.cpp:31-67 | `"4//6"` reads as (4, -1, 6) |
| `LoaderExamples.PositionOnlyReferenceExamples` | loader.cpp:36-41 | `"1"`, `"2"` and `"3"` read as bare positions |
| `LoaderExamples.FaceLineOf` | loader.cpp:134-154 | an `f` line of three readable references stores the first and fails exactly when a later one omits an index the first gives as positive |
| `LoaderExamples.InconsistentFaceLine` | loader.cpp:142-149 | `f 1/2/3 4//6 1/2/3` stores (1, 2, 3) and then fails with the face diagnostic |
| `LoaderExamples.InconsistentFaceExample` | loader.cpp:144-146 | the literal line `f 1/2/3 4//6 1/2/3` fails after pushing its first element |
| `LoaderExamples.OneDirectionalFaceLine` | loader.cpp:144-145 | `f 4//6 1/2/3 1/2/3` is accepted and stores (4, -1, 6) |
| `LoaderExamples.OneDirectionalExample` | loader.cpp:144-145 | the literal line `f 4//6 1/2/3 1/2/3` is accepted: the check goes one way only |
| `LoaderExamples.NaturalVertexLine` | loader.cpp:85-99 | a `v` line of three natural numbers appends them |
| `LoaderExamples.TwoVertexLines` | loader.cpp:85-99 | a file of two such `v` lines appends their six numbers |
| `LoaderExamples.VertexThenTriangleFace` | loader.cpp:85-154 | a `v` line then `f 1 2 3` appends three floats and the one element (1, -1, -1) |
| `LoaderExamples.TriangleLines` | loader.cpp:69-163 | three `v` lines and `f 1 2 3` give nine floats and one stored element |
| `LoaderExamples.TriangleExample` | loader.cpp:69-163 | the literal triangle file gives nine floats and stores only its face's first reference |
| `LoaderExamples.UnknownKeywordLines` | loader.cpp:155-158 | a `v` line then a `g` line fails at line 2, with the vertex kept |
| `LoaderExamples.UnknownKeywordExample` | loader.cpp:155-158 | the literal file `v 0 0 0`, `g mygroup` fails with the unknown keyword `g` at line 2 |
| `LoaderExamples.CommentLines` | loader.cpp:155-160 | a comment-only second line stops the load at line 2; the third line is not read |
| `LoaderExamples.CommentLineExample` | loader.cpp:155-160 | in the literal file `v 0 0 0`, `# the second vertex`, `v 1 0 0` the comment line is an error at line 2 |

## Left out

- Opening the file, `std::ifstream` and the `runtime_error` for a file that cannot be
  opened (loader.cpp:70-74): the model starts from the lines already read.
- `std::getline` (loader.cpp:78): the lines are given as a sequence without their line
  terminators. A carriage return left by a CRLF file is whitespace to the model, as it
  is to `operator>>`.
- The text printed to `std::cerr` and the call to `exit` (loader.cpp:96-98 and the
  similar blocks): an `Exit` error carries the diagnostic kind, the line number and the
  raw line instead.
- Exceptions are values, not control flow: the uncaught `std::out_of_range` of
  `std::stoul` and the string thrown at loader.cpp:59 are `Throw` errors.
- Numeric.ParseFloat: floats are exact reals. The model leaves out the rounding to
  `float`, and the `out_of_range` that `std::stof` throws on overflow or underflow. It
  also leaves out the hexadecimal, `inf` and `nan` forms. A token in one of those forms
  is rejected by the model, while `std::stof` would accept it.
- LoaderProperties.StepKeepsWholeTriples, LoaderProperties.LoadKeepsWholeTriples: these
  hold for every escaping exception only because the `std::out_of_range` of `std::stof`
  is not modelled. In the program a `v`, `vn` or `vt` line with a component that
  overflows or underflows `float` (such as `v 1 1e39 0`) lets that exception escape
  `loadObj` after its earlier components were pushed (loader.cpp:91-95, 105-109,
  119-129), which leaves a partial triple.
- Numeric.ParseInt: `unsigned long` is taken as 64 bits and `int` as 32 bits (an LP64
  platform). Only base 10 is modelled, which is what `std::stoul` uses here.
- The line counter `lineNum` is an unbounded integer. The overflow of the C++ `int`
  after 2^31 - 1 lines is not modelled.
- Locales: whitespace and digits are those of the "C" locale.
