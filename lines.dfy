/** How loadObj cuts a line before dispatching on it (loader.cpp): everything from the
    first '#' is dropped, and the rest is read word by word with `operator>>`, which skips
    whitespace and extracts a maximal run of non-whitespace characters. */
module Lines {
  import opened Wrappers
  import opened Text

  /** `strInput.substr(0, strInput.find("#"))`: the longest prefix without a '#'. */
  function StripComment(line: string): (r: string)
    ensures '#' !in r
    ensures r <= line
    ensures |r| < |line| ==> line[|r|] == '#'
  {
    match Find(line, '#', 0)
    case None => line
    case Some(k) => line[..k]
  }

  /** The words of `s`, in order: what successive extractions `ss >> word` produce. */
  function Tokens(s: string): (r: seq<string>)
    ensures forall k :: 0 <= k < |r| ==> r[k] != "" && NoSpace(r[k])
    decreases |s|
  {
    var i := SkipSpace(s, 0);
    if i == |s| then []
    else
      var j := WordEnd(s, i);
      var w := s[i..j];
      assert NoSpace(w) by {
        forall k | 0 <= k < |w| ensures !IsSpace(w[k]) {
          assert w[k] == s[i + k];
        }
      }
      [w] + Tokens(s[j..])
  }

  /** The k-th extraction, counting from 0: once the words run out, the extraction fails
      and leaves the (empty) string it was given unchanged. */
  function Word(words: seq<string>, k: nat): (w: string)
    ensures k < |words| ==> w == words[k]
    ensures k >= |words| ==> w == ""
  {
    if k < |words| then words[k] else ""
  }

  /** Words separated by single spaces. */
  function Join(words: seq<string>): string {
    if |words| == 0 then ""
    else if |words| == 1 then words[0]
    else words[0] + (" " + Join(words[1..]))
  }

  /** One extraction: the first word, then the words of what follows it. */
  lemma TokensFirst(s: string, i: nat, j: nat)
    requires i == SkipSpace(s, 0) && i < |s| && j == WordEnd(s, i)
    ensures Tokens(s) == [s[i..j]] + Tokens(s[j..])
  {
  }

  /** Leading whitespace does not change the words. */
  lemma TokensAfterSpace(s: string)
    requires |s| > 0 && IsSpace(s[0])
    ensures Tokens(s) == Tokens(s[1..])
  {
    var x := s[1..];
    var i := SkipSpace(x, 0);
    SkipSpaceTail(s, 0);
    if i < |x| {
      TokensAfterSpaceWord(s, i, WordEnd(x, i));
    }
  }

  /** The case of TokensAfterSpace where a word follows: both texts read the same first
      word, at positions shifted by one, and the same text after it. */
  lemma TokensAfterSpaceWord(s: string, i: nat, j: nat)
    requires 0 < |s| && i < |s| - 1
    requires SkipSpace(s[1..], 0) == i && SkipSpace(s, 0) == i + 1
    requires j == WordEnd(s[1..], i)
    ensures Tokens(s) == Tokens(s[1..])
  {
    WordEndTail(s, i);
    TailSlices(s, i, j);
    TokensFirst(s[1..], i, j);
    TokensFirst(s, i + 1, j + 1);
  }

  /** A word followed by a space and more text: the word comes first. */
  lemma TokensOfWord(w: string, rest: string)
    requires w != "" && NoSpace(w)
    requires rest == [] || IsSpace(rest[0])
    ensures Tokens(w + rest) == [w] + Tokens(rest)
  {
    var s := w + rest;
    SkipSpaceAt(s, 0, 0);
    WordEndAt(s, 0, |w|);
    assert s[0..|w|] == w;
    assert s[|w|..] == rest;
  }

  /** A word, a space, then more text: the word, then the words of the text. */
  lemma TokensOfWordSpace(w: string, rest: string)
    requires w != "" && NoSpace(w)
    ensures Tokens(w + (" " + rest)) == [w] + Tokens(rest)
  {
    var t := " " + rest;
    assert t[1..] == rest;
    TokensOfWord(w, t);
    TokensAfterSpace(t);
  }

  /** Tokenising is the inverse of joining words with single spaces. */
  lemma {:induction false} TokensJoin(words: seq<string>)
    requires forall k :: 0 <= k < |words| ==> words[k] != "" && NoSpace(words[k])
    ensures Tokens(Join(words)) == words
  {
    if |words| == 1 {
      TokensOfWord(words[0], "");
      assert words[0] + "" == words[0];
    } else if |words| > 1 {
      TokensOfWordSpace(words[0], Join(words[1..]));
      TokensJoin(words[1..]);
    }
  }

  /** The extractions `>>` performs on a text: with nothing but whitespace left, every
      extraction gives ""; otherwise the first skips the whitespace and takes the
      characters up to the next whitespace, and each later one reads on from there. */
  lemma WordExtraction(s: string, k: nat)
    ensures SkipSpace(s, 0) == |s| ==> Word(Tokens(s), k) == ""
    ensures SkipSpace(s, 0) < |s| ==>
      Word(Tokens(s), 0) == s[SkipSpace(s, 0)..WordEnd(s, SkipSpace(s, 0))] &&
      Word(Tokens(s), k + 1) == Word(Tokens(s[WordEnd(s, SkipSpace(s, 0))..]), k)
  {
    var i := SkipSpace(s, 0);
    if i < |s| {
      WordsAfterFirst(s, i, WordEnd(s, i), k);
    }
  }

  /** WordExtraction once the first word is known to lie between `i` and `j`. */
  lemma WordsAfterFirst(s: string, i: nat, j: nat, k: nat)
    requires i == SkipSpace(s, 0) && i < |s| && j == WordEnd(s, i)
    ensures Word(Tokens(s), 0) == s[i..j]
    ensures Word(Tokens(s), k + 1) == Word(Tokens(s[j..]), k)
  {
    TokensFirst(s, i, j);
    var rest := Tokens(s[j..]);
    assert Tokens(s) == [s[i..j]] + rest;
    assert k + 1 < |Tokens(s)| ==> Tokens(s)[k + 1] == rest[k];
  }

  /** A comment does not change what is left of the line. */
  lemma StripCommentAppend(a: string, c: string)
    ensures StripComment(a + "#" + c) == StripComment(a)
  {
    var s := a + "#" + c;
    match Find(a, '#', 0)
    case None =>
      FindAt(s, '#', 0, |a|);
      assert s[..|a|] == a;
    case Some(k) =>
      FindAt(s, '#', 0, k);
      assert s[..k] == a[..k];
  }

  /** A line without '#' is kept whole. */
  lemma StripCommentNone(line: string)
    requires '#' !in line
    ensures StripComment(line) == line
  {
  }
}
