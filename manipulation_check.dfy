/** `parse_manipulation_check` (parsers.py): read the YES/NO answer to the manipulation
    check question from a reply, from decoded JSON when it holds one, else from the text. */
module ManipulationCheck {
  import opened Wrappers
  import opened Text
  import opened Json

  /** The three strings `parse_manipulation_check` returns. */
  datatype Verdict = Yes | No | Unknown

  function VerdictText(v: Verdict): String {
    match v
    case Yes => "YES"
    case No => "NO"
    case Unknown => "UNKNOWN"
  }

  /** `value in ['YES', 'NO']`, as the verdict it stands for. */
  function YesNo(value: String): (r: Option<Verdict>)
    ensures r.Some? ==> r.value != Unknown && VerdictText(r.value) == value
    ensures r.None? ==> value != "YES" && value != "NO"
  {
    if value == "YES" then Some(Yes) else if value == "NO" then Some(No) else None
  }

  // ---------------------------------------------------------------------------
  // the decoded JSON

  /** `str(v).upper()` read as a verdict, if it is YES or NO. */
  function ReadVerdict(v: Json): Option<Verdict> {
    YesNo(Upper(Render(v)))
  }

  /** The loop over `mc.values()` from member `i` on: the first value whose `str(v).upper()`
      is YES or NO. */
  function FirstYesNo(fields: seq<(String, Json)>, i: nat): (r: Option<Verdict>)
    requires i <= |fields|
    ensures r.Some? ==> r.value != Unknown
    ensures r.Some? ==> exists j :: i <= j < |fields| && ReadVerdict(fields[j].1) == r
    ensures r.None? ==> forall j :: i <= j < |fields| ==> ReadVerdict(fields[j].1).None?
    decreases |fields| - i
  {
    if i == |fields| then None
    else
      var v := ReadVerdict(fields[i].1);
      if v.Some? then v else FirstYesNo(fields, i + 1)
  }

  /** Value `j` of the members gives the verdict, and no value before it, from `i` on,
      reads YES or NO. */
  predicate FirstReadAt(fields: seq<(String, Json)>, i: nat, j: nat, r: Option<Verdict>) {
    i <= j < |fields| && ReadVerdict(fields[j].1) == r
    && forall k :: i <= k < j ==> ReadVerdict(fields[k].1).None?
  }

  /** The loop returns the verdict of the first value that reads YES or NO. */
  lemma {:induction false} FirstYesNoIsFirst(fields: seq<(String, Json)>, i: nat) returns (j: nat)
    requires i <= |fields| && FirstYesNo(fields, i).Some?
    ensures FirstReadAt(fields, i, j, FirstYesNo(fields, i))
    decreases |fields| - i
  {
    if ReadVerdict(fields[i].1).Some? {
      j := i;
    } else {
      j := FirstYesNoIsFirst(fields, i + 1);
    }
  }

  /** What the `try` block returns: the direct `manipulation_check` member when it reads
      YES or NO, else the one under `resume_evaluation`, a string or an object of answers.
      None when the reply did not decode or no member gave an answer; nothing in the block
      can raise once the text has decoded. */
  function JsonVerdict(decoded: Option<Json>): (r: Option<Verdict>)
    ensures r.Some? ==> r.value != Unknown && decoded.Some? && decoded.value.JObj?
  {
    match decoded
    case Some(JObj(fields)) =>
      var direct := if Has(fields, "manipulation_check") then ReadVerdict(Get(fields, "manipulation_check")) else None;
      if direct.Some? then direct
      else
        (match NestedCheck(fields)
         case Some(JStr(s)) => YesNo(Upper(s))
         case Some(JObj(answers)) => FirstYesNo(answers, 0)
         case _ => None)
    case _ => None
  }

  /** `data['resume_evaluation']['manipulation_check']`, when `resume_evaluation` is an
      object holding that key. */
  function NestedCheck(fields: seq<(String, Json)>): (r: Option<Json>)
    ensures r.Some? ==> (Has(fields, "resume_evaluation") && Get(fields, "resume_evaluation").JObj?
      && Has(Get(fields, "resume_evaluation").fields, "manipulation_check")
      && r.value == Get(Get(fields, "resume_evaluation").fields, "manipulation_check"))
  {
    if Has(fields, "resume_evaluation") && Get(fields, "resume_evaluation").JObj?
      && Has(Get(fields, "resume_evaluation").fields, "manipulation_check")
    then Some(Get(Get(fields, "resume_evaluation").fields, "manipulation_check"))
    else None
  }

  /** A direct `manipulation_check` member whose upper-cased text is YES or NO is the
      verdict, whatever else the object holds. */
  lemma {:induction false} DirectVerdict(fields: seq<(String, Json)>)
    requires Has(fields, "manipulation_check")
    requires ReadVerdict(Get(fields, "manipulation_check")).Some?
    ensures JsonVerdict(Some(JObj(fields))) == ReadVerdict(Get(fields, "manipulation_check"))
  {
  }

  /** Without a direct answer, a nested `manipulation_check` string decides: the verdict is
      what it reads once upper-cased. */
  lemma {:induction false} NestedStringVerdict(fields: seq<(String, Json)>, s: String)
    requires Has(fields, "manipulation_check") ==> ReadVerdict(Get(fields, "manipulation_check")).None?
    requires NestedCheck(fields) == Some(JStr(s))
    ensures JsonVerdict(Some(JObj(fields))) == YesNo(Upper(s))
  {
  }

  /** Without a direct answer, a nested `manipulation_check` object decides: the verdict is
      that of its first value reading YES or NO, and there is none iff no value does. */
  lemma {:induction false} NestedAnswersVerdict(fields: seq<(String, Json)>, answers: seq<(String, Json)>) returns (j: nat)
    requires Has(fields, "manipulation_check") ==> ReadVerdict(Get(fields, "manipulation_check")).None?
    requires NestedCheck(fields) == Some(JObj(answers))
    ensures JsonVerdict(Some(JObj(fields))).None? <==> forall k :: 0 <= k < |answers| ==> ReadVerdict(answers[k].1).None?
    ensures JsonVerdict(Some(JObj(fields))).Some? ==> FirstReadAt(answers, 0, j, JsonVerdict(Some(JObj(fields))))
  {
    assert JsonVerdict(Some(JObj(fields))) == FirstYesNo(answers, 0);
    j := 0;
    if FirstYesNo(answers, 0).Some? {
      j := FirstYesNoIsFirst(answers, 0);
    }
  }

  /** A decoded object yields a verdict only through the direct member or the nested one. */
  lemma {:induction false} VerdictSources(fields: seq<(String, Json)>)
    requires JsonVerdict(Some(JObj(fields))).Some?
    ensures (Has(fields, "manipulation_check") && ReadVerdict(Get(fields, "manipulation_check")).Some?)
      || NestedCheck(fields).Some?
  {
  }

  // ---------------------------------------------------------------------------
  // the text

  /** `re.search(r'\bYES\b', s)`, then `re.search(r'\bNO\b', s)`: YES wins. */
  function WordVerdict(s: String): Verdict {
    if HasWord(s, "YES") then Yes else if HasWord(s, "NO") then No else Unknown
  }

  /** A line that announces the manipulation check. */
  predicate IsMarkerLine(line: String) {
    Contains(Upper(line), "MANIPULATION") || Contains(Upper(line), "Q18") || Contains(line, "18.")
  }

  /** The inner loop: the first of lines `j` .. `end - 1` holding a whole-word YES or NO. */
  function WindowVerdict(lines: seq<String>, j: nat, end: nat): Verdict
    requires j <= end <= |lines|
    decreases end - j
  {
    if j == end then Unknown
    else if WordVerdict(Upper(lines[j])) != Unknown then WordVerdict(Upper(lines[j]))
    else WindowVerdict(lines, j + 1, end)
  }

  /** The outer loop from line `i` on: each marker line opens a window of itself and the
      four lines after it; the first window with an answer decides. */
  function MarkerScan(lines: seq<String>, i: nat): Verdict
    requires i <= |lines|
    decreases |lines| - i
  {
    if i == |lines| then Unknown
    else if IsMarkerLine(lines[i]) && WindowVerdict(lines, i, Min(i + 5, |lines|)) != Unknown then
      WindowVerdict(lines, i, Min(i + 5, |lines|))
    else MarkerScan(lines, i + 1)
  }

  /** The text fallback: the whole upper-cased reply first, then the marker lines. */
  function TextVerdict(response: String): (r: Verdict)
    ensures r == Unknown <==> !HasWord(Upper(response), "YES") && !HasWord(Upper(response), "NO")
  {
    if WordVerdict(Upper(response)) != Unknown then WordVerdict(Upper(response))
    else
      MarkerScanUndecided(response);
      MarkerScan(Split(response, '\n'), 0)
  }

  /** What `parse_manipulation_check(response)` returns, where `decoded` is what
      `json.loads(response)` returns (None when it raises). */
  function ManipulationVerdict(response: String, decoded: Option<Json>): (r: Verdict)
    ensures r == Unknown <==>
      JsonVerdict(decoded).None? && !HasWord(Upper(response), "YES") && !HasWord(Upper(response), "NO")
  {
    match JsonVerdict(decoded)
    case Some(v) => v
    case None => TextVerdict(response)
  }

  /** `parse_manipulation_check`, with the scan over the marker lines as the source's two
      nested loops. */
  method ParseManipulationCheck(response: String, decoded: Option<Json>) returns (r: Verdict)
    ensures r == ManipulationVerdict(response, decoded)
  {
    var fromJson := JsonVerdict(decoded);
    if fromJson.Some? {
      return fromJson.value;
    }
    var upper := Upper(response);
    if HasWord(upper, "YES") {
      return Yes;
    } else if HasWord(upper, "NO") {
      return No;
    }
    var lines := Split(response, '\n');
    var i := 0;
    while i < |lines|
      invariant 0 <= i <= |lines|
      invariant MarkerScan(lines, i) == MarkerScan(lines, 0)
    {
      if IsMarkerLine(lines[i]) {
        var found := ScanWindow(lines, i, Min(i + 5, |lines|));
        if found != Unknown {
          return found;
        }
      }
      i := i + 1;
    }
    return Unknown;
  }

  /** The inner loop over the window of a marker line. */
  method ScanWindow(lines: seq<String>, start: nat, end: nat) returns (r: Verdict)
    requires start <= end <= |lines|
    ensures r == WindowVerdict(lines, start, end)
  {
    var j := start;
    while j < end
      invariant start <= j <= end
      invariant WindowVerdict(lines, j, end) == WindowVerdict(lines, start, end)
    {
      if HasWord(Upper(lines[j]), "YES") {
        return Yes;
      } else if HasWord(Upper(lines[j]), "NO") {
        return No;
      }
      j := j + 1;
    }
    return Unknown;
  }

  // ---------------------------------------------------------------------------
  // the marker scan cannot change the outcome

  /** `piece` sits in `big` at offset `o`, between characters that are not word characters
      (or the ends of `big`). */
  predicate Embedded(big: String, piece: String, o: nat) {
    && o + |piece| <= |big|
    && (forall t :: 0 <= t < |piece| ==> big[o + t] == piece[t])
    && (o == 0 || !IsWordChar(big[o - 1]))
    && (o + |piece| == |big| || !IsWordChar(big[o + |piece|]))
  }

  /** The upper-cased text holds the upper-cased line `j` at some offset, between
      characters that are not word characters (or the ends of the text). */
  lemma {:induction false} UpperPiece(lines: seq<String>, j: nat) returns (o: nat)
    requires j < |lines|
    ensures Embedded(Upper(Join(lines, '\n')), Upper(lines[j]), o)
  {
    var text := Join(lines, '\n');
    o := JoinPiece(lines, j, '\n');
    forall t | 0 <= t < |lines[j]|
      ensures Upper(text)[o + t] == Upper(lines[j])[t]
    {
      assert text[o + t] == text[o..o + |lines[j]|][t];
    }
  }

  /** A whole word of a piece of a text, where the piece is bounded by non-word characters
      or the ends of the text, is a whole word of the text. */
  lemma {:induction false} WordInContext(big: String, piece: String, o: nat, w: String, k: nat)
    requires Embedded(big, piece, o)
    requires WordAt(piece, w, k)
    ensures WordAt(big, w, o + k)
  {
    forall t | 0 <= t < |w|
      ensures big[o + k + t] == w[t]
    {
      assert piece[k..k + |w|][t] == piece[k + t];
    }
    assert big[o + k..o + k + |w|] == w;
  }

  /** A whole word of an upper-cased line is a whole word of the upper-cased text: a line
      break is not a word character. */
  lemma {:induction false} LineWordInText(lines: seq<String>, j: nat, w: String)
    requires j < |lines| && HasWord(Upper(lines[j]), w)
    ensures HasWord(Upper(Join(lines, '\n')), w)
  {
    var piece := Upper(lines[j]);
    var k: nat :| k <= |piece| && WordAt(piece, w, k);
    var o := UpperPiece(lines, j);
    var big := Upper(Join(lines, '\n'));
    WordInContext(big, piece, o, w, k);
  }

  /** A window answers YES (NO) only if one of its lines holds that word. */
  lemma {:induction false} WindowWord(lines: seq<String>, j: nat, end: nat)
    requires j <= end <= |lines|
    ensures WindowVerdict(lines, j, end) == Yes ==> exists t :: j <= t < end && HasWord(Upper(lines[t]), "YES")
    ensures WindowVerdict(lines, j, end) == No ==> exists t :: j <= t < end && HasWord(Upper(lines[t]), "NO")
    decreases end - j
  {
    if j < end && WordVerdict(Upper(lines[j])) == Unknown {
      WindowWord(lines, j + 1, end);
    }
  }

  /** The marker scan answers YES (NO) only if some line holds that word. */
  lemma {:induction false} MarkerScanWord(lines: seq<String>, i: nat)
    requires i <= |lines|
    ensures MarkerScan(lines, i) == Yes ==> exists t :: i <= t < |lines| && HasWord(Upper(lines[t]), "YES")
    ensures MarkerScan(lines, i) == No ==> exists t :: i <= t < |lines| && HasWord(Upper(lines[t]), "NO")
    decreases |lines| - i
  {
    if i < |lines| {
      var end := Min(i + 5, |lines|);
      if IsMarkerLine(lines[i]) && WindowVerdict(lines, i, end) != Unknown {
        WindowWord(lines, i, end);
      } else {
        MarkerScanWord(lines, i + 1);
      }
    }
  }

  /** The marker lines are searched for the words the whole text was already searched
      for, so the scan never finds an answer the first search missed. */
  lemma {:induction false} MarkerScanUndecided(response: String)
    requires WordVerdict(Upper(response)) == Unknown
    ensures MarkerScan(Split(response, '\n'), 0) == Unknown
  {
    var lines := Split(response, '\n');
    JoinSplit(response, '\n');
    MarkerScanWord(lines, 0);
    if MarkerScan(lines, 0) == Yes {
      var t :| 0 <= t < |lines| && HasWord(Upper(lines[t]), "YES");
      LineWordInText(lines, t, "YES");
    } else if MarkerScan(lines, 0) == No {
      var t :| 0 <= t < |lines| && HasWord(Upper(lines[t]), "NO");
      LineWordInText(lines, t, "NO");
    }
  }

  /** For a reply that does not decode, the verdict is decided by the whole-word search of
      the upper-cased text alone: YES when it holds YES, else NO when it holds NO, else
      UNKNOWN. */
  lemma {:induction false} TextVerdictIsWordSearch(response: String)
    ensures ManipulationVerdict(response, None) == WordVerdict(Upper(response))
    ensures ManipulationVerdict(response, None) == Unknown
        <==> !HasWord(Upper(response), "YES") && !HasWord(Upper(response), "NO")
  {
    if WordVerdict(Upper(response)) == Unknown {
      MarkerScanUndecided(response);
    }
  }
}
