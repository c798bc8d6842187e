/** String helpers standing in for the handful of `str` methods and regular-expression
    classes the parsers use: `str.strip`, `str.split('\n')`, `'\n'.join`, `in` on strings,
    `str.upper`/`str.lower`, and the classes `\s`, `\d` and `\w` behind `\b`. */
module Text {
  import opened Wrappers

  type String = seq<char>

  /** Python's `str.isspace` (and the `\s` class of `re` on `str` patterns). */
  predicate IsSpace(c: char) {
    c == ' ' || '\t' <= c <= '\r' || '\U{1C}' <= c <= '\U{1F}' || c == '\U{85}' || c == '\U{A0}'
    || c == '\U{1680}' || '\U{2000}' <= c <= '\U{200A}' || c == '\U{2028}' || c == '\U{2029}'
    || c == '\U{202F}' || c == '\U{205F}' || c == '\U{3000}'
  }

  /** `\d`, restricted to the ASCII digits. */
  predicate IsDigit(c: char) { '0' <= c <= '9' }

  function DigitValue(c: char): (d: nat)
    requires IsDigit(c)
    ensures d < 10
  {
    (c as int - '0' as int) as nat
  }

  function DigitChar(d: nat): (c: char)
    requires d < 10
    ensures IsDigit(c) && DigitValue(c) == d
  {
    (d + '0' as int) as char
  }

  /** `\w` (the characters a `\b` boundary separates from the rest), restricted to ASCII. */
  predicate IsWordChar(c: char) {
    'a' <= c <= 'z' || 'A' <= c <= 'Z' || IsDigit(c) || c == '_'
  }

  predicate AllDigits(s: String) {
    forall i :: 0 <= i < |s| ==> IsDigit(s[i])
  }

  // ---------------------------------------------------------------------------
  // strip

  /** The first position at or after `i` that does not hold white space (or `|s|`). */
  function SpaceEnd(s: String, i: nat): (k: nat)
    requires i <= |s|
    ensures i <= k <= |s|
    ensures forall j :: i <= j < k ==> IsSpace(s[j])
    ensures k < |s| ==> !IsSpace(s[k])
    decreases |s| - i
  {
    if i < |s| && IsSpace(s[i]) then SpaceEnd(s, i + 1) else i
  }

  /** The position just after the last character before `j` that is not white space
      (or 0). */
  function SpaceStart(s: String, j: nat): (k: nat)
    requires j <= |s|
    ensures k <= j
    ensures forall i :: k <= i < j ==> IsSpace(s[i])
    ensures k > 0 ==> !IsSpace(s[k - 1])
  {
    if j > 0 && IsSpace(s[j - 1]) then SpaceStart(s, j - 1) else j
  }

  /** The white-space run that starts at `i` ends at the first other character. */
  lemma {:induction false} SpaceEndAt(s: String, i: nat, k: nat)
    requires i <= k <= |s|
    requires forall j :: i <= j < k ==> IsSpace(s[j])
    requires k < |s| ==> !IsSpace(s[k])
    ensures SpaceEnd(s, i) == k
    decreases |s| - i
  {
    if i < k {
      SpaceEndAt(s, i + 1, k);
    }
  }

  /** The white-space run that ends at `j` starts after the last other character. */
  lemma {:induction false} SpaceStartAt(s: String, j: nat, k: nat)
    requires k <= j <= |s|
    requires forall i :: k <= i < j ==> IsSpace(s[i])
    requires k > 0 ==> !IsSpace(s[k - 1])
    ensures SpaceStart(s, j) == k
  {
    if k < j {
      SpaceStartAt(s, j - 1, k);
    }
  }

  /** `s.lstrip()`. */
  function TrimStart(s: String): String {
    s[SpaceEnd(s, 0)..]
  }

  /** `s.strip()`: the piece between the leading and the trailing white space. */
  function Strip(s: String): String {
    var a := SpaceEnd(s, 0);
    var b := SpaceStart(s, |s|);
    if b <= a then [] else seq(b - a, i requires 0 <= i < b - a => s[a + i])
  }

  /** What `strip()` keeps is a contiguous piece of its input, with no white space at
      either end, and everything it drops is white space. */
  lemma {:induction false} StripIsSlice(s: String) returns (a: nat)
    ensures a + |Strip(s)| <= |s| && Strip(s) == s[a..a + |Strip(s)|]
    ensures Strip(s) == [] || (!IsSpace(Strip(s)[0]) && !IsSpace(Strip(s)[|Strip(s)| - 1]))
    ensures forall i :: 0 <= i < a ==> IsSpace(s[i])
    ensures forall i :: a + |Strip(s)| <= i < |s| ==> IsSpace(s[i])
  {
    a := SpaceEnd(s, 0);
    var b := SpaceStart(s, |s|);
    if b <= a {
      AllSpace(s, a, b);
      a := |s|;
    } else {
      KeptEnds(s, a, b);
    }
  }

  /** When something is kept, it runs from the first to the last character that is not
      white space. */
  lemma {:induction false} KeptEnds(s: String, a: nat, b: nat)
    requires a < b <= |s| && SpaceEnd(s, 0) == a && SpaceStart(s, |s|) == b
    ensures a + |Strip(s)| == b && Strip(s) == s[a..b]
    ensures !IsSpace(Strip(s)[0]) && !IsSpace(Strip(s)[|Strip(s)| - 1])
  {
    StripBetween(s, a, b);
    var t := s[a..b];
    assert t[0] == s[a] && t[|t| - 1] == s[b - 1];
  }

  /** `strip()` keeps exactly the piece between white-space ends. */
  lemma {:induction false} StripAt(s: String, a: nat, b: nat)
    requires a < b <= |s|
    requires forall i :: 0 <= i < a ==> IsSpace(s[i])
    requires forall i :: b <= i < |s| ==> IsSpace(s[i])
    requires !IsSpace(s[a]) && !IsSpace(s[b - 1])
    ensures Strip(s) == s[a..b]
  {
    SpaceEndAt(s, 0, a);
    SpaceStartAt(s, |s|, b);
    StripBetween(s, a, b);
  }

  /** When the white space read from the front meets that read from the back, all of
      `s` is white space and nothing is kept. */
  lemma {:induction false} AllSpace(s: String, a: nat, b: nat)
    requires a == SpaceEnd(s, 0) && b == SpaceStart(s, |s|) && b <= a
    ensures Strip(s) == [] && forall i :: 0 <= i < |s| ==> IsSpace(s[i])
  {
  }

  lemma {:induction false} StripBetween(s: String, a: nat, b: nat)
    requires a < b <= |s| && SpaceEnd(s, 0) == a && SpaceStart(s, |s|) == b
    ensures Strip(s) == s[a..b]
  {
    var t := Strip(s);
    assert |t| == b - a;
    forall i | 0 <= i < b - a
      ensures t[i] == s[a..b][i]
    {
    }
  }

  /** A string with no white space at either end is its own `strip()`. */
  lemma {:induction false} StripKeeps(s: String)
    requires s != [] && !IsSpace(s[0]) && !IsSpace(s[|s| - 1])
    ensures Strip(s) == s
  {
    StripAt(s, 0, |s|);
  }

  // ---------------------------------------------------------------------------
  // upper and lower case

  function UpperChar(c: char): char {
    if 'a' <= c <= 'z' then (c as int - 32) as char else c
  }

  function LowerChar(c: char): char {
    if 'A' <= c <= 'Z' then (c as int + 32) as char else c
  }

  /** `s.upper()` on the ASCII letters; every other character is kept. */
  function Upper(s: String): (r: String)
    ensures |r| == |s|
    ensures forall i :: 0 <= i < |s| ==> r[i] == UpperChar(s[i])
  {
    seq(|s|, i requires 0 <= i < |s| => UpperChar(s[i]))
  }

  /** `s.lower()` on the ASCII letters; every other character is kept. */
  function Lower(s: String): (r: String)
    ensures |r| == |s|
    ensures forall i :: 0 <= i < |s| ==> r[i] == LowerChar(s[i])
  {
    seq(|s|, i requires 0 <= i < |s| => LowerChar(s[i]))
  }

  // ---------------------------------------------------------------------------
  // substring search (`t in s`)

  /** `t` occurs in `s` at position `j`. */
  predicate OccursAt(s: String, t: String, j: nat) {
    j + |t| <= |s| && s[j..j + |t|] == t
  }

  /** The first position at or after `i` where `t` occurs in `s` (`s.find(t, i)`), or
      None. */
  function FindFrom(s: String, t: String, i: nat): (r: Option<nat>)
    ensures r.Some? ==> i <= r.value && OccursAt(s, t, r.value)
    ensures r.Some? ==> forall j: nat :: i <= j < r.value ==> !OccursAt(s, t, j)
    ensures r.None? ==> forall j: nat :: i <= j ==> !OccursAt(s, t, j)
    decreases |s| - i
  {
    if i + |t| > |s| then None
    else if OccursAt(s, t, i) then Some(i)
    else FindFrom(s, t, i + 1)
  }

  /** Python's `t in s` for strings. */
  predicate Contains(s: String, t: String) {
    FindFrom(s, t, 0).Some?
  }

  // ---------------------------------------------------------------------------
  // whole-word search (`re.search(r'\bW\b', s)` for a word W of word characters)

  predicate WordAt(s: String, w: String, k: nat) {
    && OccursAt(s, w, k)
    && (k == 0 || !IsWordChar(s[k - 1]))
    && (k + |w| == |s| || !IsWordChar(s[k + |w|]))
  }

  predicate HasWord(s: String, w: String) {
    exists k: nat :: k <= |s| && WordAt(s, w, k)
  }

  // ---------------------------------------------------------------------------
  // split and join on one separator character

  /** The first position at or after `i` holding `c` (or `|s|`). */
  function IndexFrom(s: String, c: char, i: nat): (k: nat)
    requires i <= |s|
    ensures i <= k <= |s|
    ensures k < |s| ==> s[k] == c
    ensures forall j :: i <= j < k ==> s[j] != c
    decreases |s| - i
  {
    if i == |s| || s[i] == c then i else IndexFrom(s, c, i + 1)
  }

  /** The pieces of `s[i..]` between occurrences of `sep`. */
  function SplitFrom(s: String, sep: char, i: nat): (parts: seq<String>)
    requires i <= |s|
    ensures |parts| >= 1
    decreases |s| - i
  {
    var k := IndexFrom(s, sep, i);
    if k == |s| then [s[i..]] else [s[i..k]] + SplitFrom(s, sep, k + 1)
  }

  /** `s.split(sep)` for a one-character separator. */
  function Split(s: String, sep: char): (parts: seq<String>)
    ensures |parts| >= 1
  {
    SplitFrom(s, sep, 0)
  }

  /** `sep.join(parts)`. */
  function Join(parts: seq<String>, sep: char): String {
    if parts == [] then []
    else if |parts| == 1 then parts[0]
    else parts[0] + [sep] + Join(parts[1..], sep)
  }

  lemma {:induction false} JoinSplitFrom(s: String, sep: char, i: nat)
    requires i <= |s|
    ensures Join(SplitFrom(s, sep, i), sep) == s[i..]
    decreases |s| - i
  {
    var k := IndexFrom(s, sep, i);
    if k < |s| {
      var rest := SplitFrom(s, sep, k + 1);
      calc {
        Join(SplitFrom(s, sep, i), sep);
        { SplitFromCons(s, sep, i); }
        Join([s[i..k]] + rest, sep);
        { JoinCons(s[i..k], rest, sep); }
        s[i..k] + [sep] + Join(rest, sep);
        { JoinSplitFrom(s, sep, k + 1); }
        s[i..k] + [sep] + s[k + 1..];
        { SliceAround(s, i, k); }
        s[i..];
      }
    } else {
      JoinOne(s[i..], sep);
    }
  }

  lemma {:induction false} SplitFromCons(s: String, sep: char, i: nat)
    requires i <= |s| && IndexFrom(s, sep, i) < |s|
    ensures SplitFrom(s, sep, i) == [s[i..IndexFrom(s, sep, i)]] + SplitFrom(s, sep, IndexFrom(s, sep, i) + 1)
  {
  }

  lemma {:induction false} JoinOne(x: String, sep: char)
    ensures Join([x], sep) == x
  {
  }

  lemma {:induction false} SliceAround(s: String, i: nat, k: nat)
    requires i <= k < |s|
    ensures s[i..] == s[i..k] + [s[k]] + s[k + 1..]
  {
  }

  lemma {:induction false} JoinCons(x: String, rest: seq<String>, sep: char)
    requires |rest| >= 1
    ensures Join([x] + rest, sep) == x + [sep] + Join(rest, sep)
  {
    assert ([x] + rest)[1..] == rest;
  }

  /** Joining the pieces of a split gives the text back. */
  lemma {:induction false} JoinSplit(s: String, sep: char)
    ensures Join(Split(s, sep), sep) == s
  {
    JoinSplitFrom(s, sep, 0);
  }

  lemma {:induction false} SplitFromJoin(s: String, i: nat, parts: seq<String>, sep: char)
    requires i <= |s| && s[i..] == Join(parts, sep)
    requires |parts| >= 1
    requires forall p :: 0 <= p < |parts| ==> sep !in parts[p]
    ensures SplitFrom(s, sep, i) == parts
    decreases |parts|
  {
    var n := |parts[0]|;
    var k := IndexFrom(s, sep, i);
    if |parts| > 1 {
      var rest := Join(parts[1..], sep);
      assert s[i..] == parts[0] + [sep] + rest;
      assert s[i + n] == sep;
      forall j | i <= j < i + n
        ensures s[j] != sep
      {
        assert s[j] == parts[0][j - i];
      }
      assert k == i + n;
      assert s[i..k] == parts[0];
      assert s[k + 1..] == rest;
      SplitFromJoin(s, k + 1, parts[1..], sep);
    } else {
      assert s[i..] == parts[0];
      forall j | i <= j < |s|
        ensures s[j] != sep
      {
        assert s[j] == parts[0][j - i];
      }
      assert k == |s|;
    }
  }

  /** Splitting a join of separator-free pieces gives the pieces back. */
  lemma {:induction false} SplitJoin(parts: seq<String>, sep: char)
    requires |parts| >= 1
    requires forall i :: 0 <= i < |parts| ==> sep !in parts[i]
    ensures Split(Join(parts, sep), sep) == parts
  {
    SplitFromJoin(Join(parts, sep), 0, parts, sep);
  }

  /** Joining the first `k` pieces and the rest separately gives the same text. */
  lemma {:induction false} JoinAppend(parts: seq<String>, k: nat, sep: char)
    requires 0 < k < |parts|
    ensures Join(parts, sep) == Join(parts[..k], sep) + [sep] + Join(parts[k..], sep)
    decreases k
  {
    if k > 1 {
      JoinAppend(parts[1..], k - 1, sep);
      assert parts[1..][..k - 1] == parts[..k][1..];
      assert parts[1..][k - 1..] == parts[k..];
    } else {
      assert parts[..1] == [parts[0]];
    }
  }

  lemma {:induction false} SliceOfSuffix(s: String, o: nat, n: nat)
    requires o + n <= |s|
    ensures s[o..][..n] == s[o..o + n]
  {
  }

  /** A join starts with its first piece, followed by the separator when more follow. */
  lemma {:induction false} JoinHead(parts: seq<String>, sep: char)
    requires |parts| >= 1
    ensures |parts[0]| <= |Join(parts, sep)| && Join(parts, sep)[..|parts[0]|] == parts[0]
    ensures |parts| == 1 ==> Join(parts, sep) == parts[0]
    ensures |parts| > 1 ==> |parts[0]| < |Join(parts, sep)| && Join(parts, sep)[|parts[0]|] == sep
  {
    if |parts| > 1 {
      var s := Join(parts, sep);
      assert s == parts[0] + [sep] + Join(parts[1..], sep);
      assert s[..|parts[0]|] == parts[0];
    }
  }

  /** The join of the pieces from `j` on is the end of the whole join, just after a
      separator. */
  lemma {:induction false} JoinSuffix(parts: seq<String>, j: nat, sep: char) returns (o: nat)
    requires j < |parts|
    ensures o <= |Join(parts, sep)| && Join(parts, sep)[o..] == Join(parts[j..], sep)
    ensures o == 0 || Join(parts, sep)[o - 1] == sep
  {
    if j == 0 {
      o := 0;
      assert parts[0..] == parts;
    } else {
      JoinAppend(parts, j, sep);
      o := |Join(parts[..j], sep)| + 1;
    }
  }

  /** Piece `j` sits in the join at some offset `o`, preceded by the separator (or the
      start) and followed by the separator (or the end). */
  lemma {:induction false} JoinPiece(parts: seq<String>, j: nat, sep: char) returns (o: nat)
    requires j < |parts|
    ensures o + |parts[j]| <= |Join(parts, sep)| && Join(parts, sep)[o..o + |parts[j]|] == parts[j]
    ensures o == 0 || Join(parts, sep)[o - 1] == sep
    ensures o + |parts[j]| == |Join(parts, sep)| || Join(parts, sep)[o + |parts[j]|] == sep
  {
    var s := Join(parts, sep);
    var p := parts[j];
    o := JoinSuffix(parts, j, sep);
    var tail := Join(parts[j..], sep);
    JoinHead(parts[j..], sep);
    SliceOfSuffix(s, o, |p|);
    if |parts[j..]| > 1 {
      assert s[o + |p|] == tail[|p|];
    }
  }

  /** The first character of a join is that of the first piece, the last that of the
      last piece. */
  lemma {:induction false} JoinEnds(parts: seq<String>, sep: char)
    requires |parts| >= 1
    requires forall i :: 0 <= i < |parts| ==> parts[i] != []
    ensures |Join(parts, sep)| >= 1
    ensures Join(parts, sep)[0] == parts[0][0]
    ensures Join(parts, sep)[|Join(parts, sep)| - 1] == parts[|parts| - 1][|parts[|parts| - 1]| - 1]
    decreases |parts|
  {
    if |parts| > 1 {
      var rest := Join(parts[1..], sep);
      JoinEnds(parts[1..], sep);
      assert Join(parts, sep) == parts[0] + [sep] + rest;
      assert parts[1..][|parts| - 2] == parts[|parts| - 1];
    }
  }

  /** Pieces whose outer ends are not white space join into a text `strip()` keeps. */
  lemma {:induction false} JoinStripped(parts: seq<String>, sep: char)
    requires |parts| >= 1
    requires forall i :: 0 <= i < |parts| ==> parts[i] != []
    requires !IsSpace(parts[0][0]) && !IsSpace(parts[|parts| - 1][|parts[|parts| - 1]| - 1])
    ensures Join(parts, sep) != [] && Strip(Join(parts, sep)) == Join(parts, sep)
  {
    JoinEnds(parts, sep);
    StripKeeps(Join(parts, sep));
  }

  /** `min(a, b)`, also what `xs[:a]` keeps of a list of length `b`. */
  function Min(a: nat, b: nat): nat {
    if a <= b then a else b
  }

  // ---------------------------------------------------------------------------
  // decimal numerals

  /** `str(n)` for a natural number. */
  function NatToString(n: nat): (s: String)
    ensures |s| >= 1 && AllDigits(s)
  {
    if n < 10 then [DigitChar(n)] else NatToString(n / 10) + [DigitChar(n % 10)]
  }

  /** `str(i)` for an integer. */
  function IntToString(i: int): String {
    if i < 0 then "-" + NatToString(-i) else NatToString(i)
  }

  /** The value of a string of decimal digits. */
  function DecimalValue(s: String): nat
    requires AllDigits(s)
  {
    if s == [] then 0 else 10 * DecimalValue(s[..|s| - 1]) + DigitValue(s[|s| - 1])
  }

  lemma {:induction false} DecimalRoundTrip(n: nat)
    ensures DecimalValue(NatToString(n)) == n
  {
    if n >= 10 {
      DecimalRoundTrip(n / 10);
      var s := NatToString(n);
      assert s[..|s| - 1] == NatToString(n / 10);
    }
  }

  /** The first position at or after `i` that does not hold an ASCII digit (or `|s|`). */
  function DigitEnd(s: String, i: nat): (k: nat)
    requires i <= |s|
    ensures i <= k <= |s|
    ensures forall j :: i <= j < k ==> IsDigit(s[j])
    ensures k < |s| ==> !IsDigit(s[k])
    decreases |s| - i
  {
    if i < |s| && IsDigit(s[i]) then DigitEnd(s, i + 1) else i
  }

  /** The digit run that starts at `i` ends at the first non-digit. */
  lemma {:induction false} DigitEndAt(s: String, i: nat, k: nat)
    requires i <= k <= |s|
    requires forall j :: i <= j < k ==> IsDigit(s[j])
    requires k < |s| ==> !IsDigit(s[k])
    ensures DigitEnd(s, i) == k
  {
  }
}
