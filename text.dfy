/** Character classes and the scanning primitives that the loader borrows from the C++
    library: `std::string::find`, the whitespace skipping of `operator>>` and of the
    numeric conversions, and runs of decimal digits. */
module Text {
  import opened Wrappers

  /** `isspace` in the "C" locale: space, and tab through carriage return (9..13). */
  predicate IsSpace(c: char) {
    c == ' ' || ('\t' <= c <= '\r')
  }

  predicate IsDigit(c: char) {
    '0' <= c <= '9'
  }

  predicate IsSign(c: char) {
    c == '+' || c == '-'
  }

  predicate AllDigits(s: string) {
    forall k :: 0 <= k < |s| ==> IsDigit(s[k])
  }

  predicate AllSpace(s: string) {
    forall k :: 0 <= k < |s| ==> IsSpace(s[k])
  }

  predicate NoSpace(s: string) {
    forall k :: 0 <= k < |s| ==> !IsSpace(s[k])
  }

  function DigitValue(c: char): (d: nat)
    requires IsDigit(c)
    ensures d < 10
  {
    (c as int - '0' as int) as nat
  }

  function Digit(d: nat): (c: char)
    requires d < 10
    ensures IsDigit(c) && DigitValue(c) == d
  {
    ('0' as int + d) as char
  }

  /** The value of a string of decimal digits, most significant first ("" is 0). */
  function DigitsValue(s: string): nat
    requires AllDigits(s)
  {
    if s == [] then 0 else 10 * DigitsValue(s[..|s| - 1]) + DigitValue(s[|s| - 1])
  }

  /** The canonical decimal spelling of a natural number: no sign, no leading zero. */
  function DecimalString(n: nat): (s: string)
    ensures |s| > 0 && AllDigits(s)
  {
    if n < 10 then [Digit(n)] else DecimalString(n / 10) + [Digit(n % 10)]
  }

  lemma {:induction false} DecimalStringRoundTrip(n: nat)
    ensures DigitsValue(DecimalString(n)) == n
  {
    if n >= 10 {
      var s := DecimalString(n);
      assert s[..|s| - 1] == DecimalString(n / 10);
      DecimalStringRoundTrip(n / 10);
    }
  }

  /** `s.find(c, from)`: the first position at or after `from` holding `c`, or None for
      `std::string::npos`. */
  function Find(s: string, c: char, from: nat): (r: Option<nat>)
    ensures r.Some? ==> from <= r.value < |s| && s[r.value] == c
    ensures r.Some? ==> forall j :: from <= j < r.value ==> s[j] != c
    ensures r.None? ==> forall j :: from <= j < |s| ==> s[j] != c
    decreases |s| - from
  {
    if from >= |s| then None
    else if s[from] == c then Some(from)
    else Find(s, c, from + 1)
  }

  /** The first position at or after `from` that does not hold whitespace (or |s|). */
  function SkipSpace(s: string, from: nat): (r: nat)
    requires from <= |s|
    ensures from <= r <= |s|
    ensures forall j :: from <= j < r ==> IsSpace(s[j])
    ensures r < |s| ==> !IsSpace(s[r])
    decreases |s| - from
  {
    if from == |s| || !IsSpace(s[from]) then from else SkipSpace(s, from + 1)
  }

  /** The first position at or after `from` that holds whitespace (or |s|): the end of a word. */
  function WordEnd(s: string, from: nat): (r: nat)
    requires from <= |s|
    ensures from <= r <= |s|
    ensures forall j :: from <= j < r ==> !IsSpace(s[j])
    ensures r < |s| ==> IsSpace(s[r])
    decreases |s| - from
  {
    if from == |s| || IsSpace(s[from]) then from else WordEnd(s, from + 1)
  }

  /** The end of the longest run of decimal digits starting at `from`. */
  function DigitRun(s: string, from: nat): (r: nat)
    requires from <= |s|
    ensures from <= r <= |s|
    ensures AllDigits(s[from..r])
    ensures r < |s| ==> !IsDigit(s[r])
    decreases |s| - from
  {
    if from == |s| || !IsDigit(s[from]) then from
    else
      var r := DigitRun(s, from + 1);
      assert s[from..r] == [s[from]] + s[from + 1..r];
      r
  }

  /** Any position that ends a run of digits from `from` is the one DigitRun finds. */
  lemma {:induction false} DigitRunAt(s: string, from: nat, to: nat)
    requires from <= to <= |s|
    requires AllDigits(s[from..to])
    requires to < |s| ==> !IsDigit(s[to])
    ensures DigitRun(s, from) == to
    decreases |s| - from
  {
    if from < to {
      var run := s[from..to];
      assert IsDigit(run[0]);
      assert s[from + 1..to] == run[1..];
      DigitRunAt(s, from + 1, to);
    }
  }

  /** Any position that ends a run of whitespace from `from` is the one SkipSpace finds. */
  lemma {:induction false} SkipSpaceAt(s: string, from: nat, to: nat)
    requires from <= to <= |s|
    requires forall j :: from <= j < to ==> IsSpace(s[j])
    requires to < |s| ==> !IsSpace(s[to])
    ensures SkipSpace(s, from) == to
    decreases |s| - from
  {
    if from < to {
      SkipSpaceAt(s, from + 1, to);
    }
  }

  /** Any position that ends a word from `from` is the one WordEnd finds. */
  lemma {:induction false} WordEndAt(s: string, from: nat, to: nat)
    requires from <= to <= |s|
    requires forall j :: from <= j < to ==> !IsSpace(s[j])
    requires to < |s| ==> IsSpace(s[to])
    ensures WordEnd(s, from) == to
    decreases |s| - from
  {
    if from < to {
      WordEndAt(s, from + 1, to);
    }
  }

  /** Dropping the first character shifts the end of a whitespace run by one. */
  lemma {:induction false} SkipSpaceTail(s: string, from: nat)
    requires from < |s|
    ensures SkipSpace(s[1..], from) + 1 == SkipSpace(s, from + 1)
    decreases |s| - from
  {
    if from + 1 < |s| {
      assert s[1..][from] == s[from + 1];
      if IsSpace(s[from + 1]) {
        SkipSpaceTail(s, from + 1);
      }
    }
  }

  /** Dropping the first character shifts the end of a word by one. */
  lemma {:induction false} WordEndTail(s: string, from: nat)
    requires from < |s|
    ensures WordEnd(s[1..], from) + 1 == WordEnd(s, from + 1)
    decreases |s| - from
  {
    if from + 1 < |s| {
      assert s[1..][from] == s[from + 1];
      if !IsSpace(s[from + 1]) {
        WordEndTail(s, from + 1);
      }
    }
  }

  /** Slices of `s` from 1 on are the slices of `s[1..]`, shifted by one. */
  lemma TailSlices(s: string, a: nat, b: nat)
    requires a <= b < |s|
    ensures s[a + 1..b + 1] == s[1..][a..b]
    ensures s[b + 1..] == s[1..][b..]
  {
    var x := s[1..];
    forall k | 0 <= k < b - a ensures s[a + 1..b + 1][k] == x[a..b][k] {
      assert s[a + 1..b + 1][k] == s[a + 1 + k];
      assert x[a..b][k] == x[a + k];
    }
    forall k | 0 <= k < |x| - b ensures s[b + 1..][k] == x[b..][k] {
      assert x[b..][k] == x[b + k];
    }
  }

  /** Find locates the first occurrence, wherever it is. */
  lemma {:induction false} FindAt(s: string, c: char, from: nat, at: nat)
    requires from <= at < |s| && s[at] == c
    requires forall j :: from <= j < at ==> s[j] != c
    ensures Find(s, c, from) == Some(at)
    decreases |s| - from
  {
    if from < at {
      FindAt(s, c, from + 1, at);
    }
  }

  /** Where each of seven concatenated pieces lies in the concatenation; the last two
      together make its suffix. */
  lemma ConcatSlices(a: string, b: string, c: string, d: string, e: string, f: string, g: string,
                     s: string)
    requires s == a + b + c + d + e + f + g
    ensures s[..|a|] == a && s[|a|..|a| + |b|] == b && s[|a| + |b|..|a| + |b| + |c|] == c
    ensures s[|a| + |b| + |c|..|a| + |b| + |c| + |d|] == d
    ensures s[|a| + |b| + |c| + |d|..|a| + |b| + |c| + |d| + |e|] == e
    ensures s[|a| + |b| + |c| + |d| + |e|..] == f + g
  {
    var p := a + b + c + d + e;
    assert s == p + (f + g);
  }

  /** Consecutive slices put back together give the prefix they cover. */
  lemma SlicesConcat(s: string, a: nat, b: nat, c: nat, d: nat, e: nat)
    requires a <= b <= c <= d <= e <= |s|
    ensures s[..e] == s[..a] + s[a..b] + s[b..c] + s[c..d] + s[d..e]
  {
    PrefixExtends(s, a, b);
    PrefixExtends(s, b, c);
    PrefixExtends(s, c, d);
    PrefixExtends(s, d, e);
  }

  lemma PrefixExtends(s: string, a: nat, b: nat)
    requires a <= b <= |s|
    ensures s[..b] == s[..a] + s[a..b]
  {
  }
}
