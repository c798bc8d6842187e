/** `parse_thought_process` (parsers.py): pull the free-text explanation out of a reply,
    from decoded JSON when it holds one, else from the lines after a marker line, else from
    the last long section of the text. */
module ThoughtProcess {
  import opened Wrappers
  import opened Text
  import opened Json

  // ---------------------------------------------------------------------------
  // the decoded JSON

  /** `extract_text(obj)`: a string, stripped; for an object its `text` member, else what
      its `response` member yields, else the first member value that yields a non-empty
      text; None for anything else. */
  function ExtractText(v: Json): (r: Option<String>)
    ensures r.Some? ==> v.JStr? || v.JObj?
    ensures v.JStr? ==> r == Some(Strip(v.s))
    ensures v.JObj? && Has(v.fields, "text") ==> r == Some(Strip(Render(Get(v.fields, "text"))))
    ensures v.JObj? && !Has(v.fields, "text") && Has(v.fields, "response") ==> r == ExtractText(Get(v.fields, "response"))
    ensures v.JObj? && !Has(v.fields, "text") && !Has(v.fields, "response") ==> r == ExtractFromMembers(v, 0)
    decreases v, 1
  {
    match v
    case JStr(s) => Some(Strip(s))
    case JObj(fields) =>
      if Has(fields, "text") then Some(Strip(Render(Get(fields, "text"))))
      else if Has(fields, "response") then ExtractText(fields[KeyIndex(fields, "response").value].1)
      else ExtractFromMembers(v, 0)
    case _ => None
  }

  /** A result `if result:` accepts: a non-empty text. */
  predicate NonEmpty(r: Option<String>) {
    r.Some? && r.value != []
  }

  /** The loop over `obj.values()` from member `i` on: the first member value that yields a
      non-empty text, and what it yields. */
  function ExtractFromMembers(v: Json, i: nat): (r: Option<String>)
    requires v.JObj? && i <= |v.fields|
    ensures r.Some? ==> r.value != []
    ensures r.Some? ==> exists j :: (i <= j < |v.fields| && ExtractText(v.fields[j].1) == r
      && forall k :: i <= k < j ==> !NonEmpty(ExtractText(v.fields[k].1)))
    ensures r.None? ==> forall k :: i <= k < |v.fields| ==> !NonEmpty(ExtractText(v.fields[k].1))
    decreases v, 0, |v.fields| - i
  {
    if i == |v.fields| then None
    else
      var r := ExtractText(v.fields[i].1);
      if NonEmpty(r) then r else ExtractFromMembers(v, i + 1)
  }

  /** What the `try` block returns: `thought_process`, else under `resume_evaluation` its
      `thought_process`, else its `thought_process_analysis` (a string, an object's
      `response` or `formatted` string, or what `extract_text` finds in it). None when the
      reply did not decode or nothing was found; nothing in the block can raise once the
      text has decoded. */
  function JsonThought(decoded: Option<Json>): (r: Option<String>)
    ensures r.Some? ==> decoded.Some? && decoded.value.JObj?
    ensures decoded.Some? && decoded.value.JObj? && Has(decoded.value.fields, "thought_process") ==>
      r == Some(Strip(Render(Get(decoded.value.fields, "thought_process"))))
  {
    match decoded
    case Some(JObj(fields)) =>
      if Has(fields, "thought_process") then Some(Strip(Render(Get(fields, "thought_process"))))
      else if Has(fields, "resume_evaluation") && Get(fields, "resume_evaluation").JObj? then
        var nested := Get(fields, "resume_evaluation").fields;
        if Has(nested, "thought_process") then Some(Strip(Render(Get(nested, "thought_process"))))
        else if Has(nested, "thought_process_analysis") then
          var tp := Get(nested, "thought_process_analysis");
          match tp
          case JStr(s) => Some(Strip(s))
          case JObj(tpFields) =>
            if Has(tpFields, "response") && Get(tpFields, "response").JStr? then
              Some(Strip(Get(tpFields, "response").s))
            else if Has(tpFields, "formatted") && Get(tpFields, "formatted").JStr? then
              Some(Strip(Get(tpFields, "formatted").s))
            else
              var r := ExtractText(tp);
              if r.Some? && r.value != [] then r else None
          case _ => None
        else None
      else None
    case _ => None
  }

  // ---------------------------------------------------------------------------
  // `re.sub(r'\s+(YES|NO)\s*$', '', t, flags=re.IGNORECASE)`

  /** The length of a YES or NO, in any case, that ends at `e`, or 0. */
  function VerdictWordBefore(t: String, e: nat): (w: nat)
    requires e <= |t|
    ensures w == 0 || w == 2 || w == 3
    ensures w <= e
  {
    if e >= 3 && LowerChar(t[e - 3]) == 'y' && LowerChar(t[e - 2]) == 'e' && LowerChar(t[e - 1]) == 's' then 3
    else if e >= 2 && LowerChar(t[e - 2]) == 'n' && LowerChar(t[e - 1]) == 'o' then 2
    else 0
  }

  /** Where the substitution cuts `t`: at the start of the white space before a YES or NO
      that only white space follows, or at the end of `t` when there is no such word. The
      leftmost match starts where that white-space run starts. */
  function VerdictCut(t: String): (c: nat)
    ensures c <= |t|
  {
    var e := SpaceStart(t, |t|);
    var w := VerdictWordBefore(t, e);
    if w == 0 then |t|
    else
      var a := SpaceStart(t, e - w);
      if a < e - w then a else |t|
  }

  function StripVerdict(t: String): (r: String)
    ensures |r| <= |t| && r == t[..|r|]
  {
    t[..VerdictCut(t)]
  }

  /** YES or NO in some case. */
  predicate IsVerdictWord(w: String) {
    Lower(w) == "yes" || Lower(w) == "no"
  }

  /** A letter is not white space. */
  lemma {:induction false} LetterNotSpace(c: char)
    requires 'a' <= LowerChar(c) <= 'z'
    ensures !IsSpace(c)
  {
  }

  /** A closing word found by `VerdictWordBefore` is YES or NO, with no white space at its
      ends. */
  lemma {:induction false} VerdictWordShape(t: String, e: nat)
    requires e <= |t| && VerdictWordBefore(t, e) != 0
    ensures IsVerdictWord(t[e - VerdictWordBefore(t, e)..e])
    ensures !IsSpace(t[e - VerdictWordBefore(t, e)]) && !IsSpace(t[e - 1])
  {
    var w := VerdictWordBefore(t, e);
    var word := t[e - w..e];
    LetterNotSpace(t[e - w]);
    LetterNotSpace(t[e - 1]);
    if w == 3 {
      assert Lower(word)[0] == 'y' && Lower(word)[1] == 'e' && Lower(word)[2] == 's';
      assert Lower(word) == "yes";
    } else {
      assert Lower(word)[0] == 'n' && Lower(word)[1] == 'o';
      assert Lower(word) == "no";
    }
  }

  /** What the substitution removes is white space, then YES or NO in some case, then white
      space; and the text it leaves does not end in white space. */
  lemma {:induction false} StripVerdictTail(t: String)
    ensures VerdictCut(t) < |t| ==>
      && IsSpace(t[VerdictCut(t)])
      && IsVerdictWord(Strip(t[VerdictCut(t)..]))
      && (VerdictCut(t) == 0 || !IsSpace(t[VerdictCut(t) - 1]))
  {
    var e := SpaceStart(t, |t|);
    var w := VerdictWordBefore(t, e);
    if w != 0 {
      var a := SpaceStart(t, e - w);
      if a < e - w {
        assert VerdictCut(t) == a;
        VerdictWordShape(t, e);
        StripOfTail(t, a, e - w, e);
      }
    }
  }

  /** A tail of white space, a word with no white space at its ends, and white space strips
      down to the word. */
  lemma {:induction false} StripOfTail(t: String, a: nat, b: nat, e: nat)
    requires a <= b < e <= |t|
    requires forall i :: a <= i < b ==> IsSpace(t[i])
    requires forall i :: e <= i < |t| ==> IsSpace(t[i])
    requires !IsSpace(t[b]) && !IsSpace(t[e - 1])
    ensures Strip(t[a..]) == t[b..e]
  {
    var tail := t[a..];
    forall i | 0 <= i < b - a
      ensures IsSpace(tail[i])
    {
      assert tail[i] == t[a + i];
    }
    forall i | e - a <= i < |tail|
      ensures IsSpace(tail[i])
    {
      assert tail[i] == t[a + i];
    }
    assert tail[b - a] == t[b] && tail[e - a - 1] == t[e - 1];
    StripAt(tail, b - a, e - a);
    assert tail[b - a..e - a] == t[b..e];
  }

  // ---------------------------------------------------------------------------
  // the marker lines

  /** A line that names the explanation question, compared in lower case. */
  predicate IsThoughtMarker(line: String) {
    var lower := Lower(line);
    || Contains(lower, "19.")
    || Contains(lower, "q19")
    || Contains(lower, "thought process")
    || Contains(lower, "explain your thought")
    || Contains(lower, "step-by-step")
    || Contains(lower, "reasoning")
  }

  /** The first marker line at or after `i`. */
  function FirstMarker(lines: seq<String>, i: nat): (r: Option<nat>)
    requires i <= |lines|
    ensures r.Some? ==> i <= r.value < |lines| && IsThoughtMarker(lines[r.value])
    ensures r.Some? ==> forall j :: i <= j < r.value ==> !IsThoughtMarker(lines[j])
    ensures r.None? ==> forall j :: i <= j < |lines| ==> !IsThoughtMarker(lines[j])
    decreases |lines| - i
  {
    if i == |lines| then None
    else if IsThoughtMarker(lines[i]) then Some(i)
    else FirstMarker(lines, i + 1)
  }

  /** The text after the first marker line: the later lines joined, stripped, with a closing
      YES or NO removed. */
  function AfterMarker(lines: seq<String>, start: nat): String
    requires start <= |lines|
  {
    StripVerdict(Strip(Join(lines[start..], '\n')))
  }

  // ---------------------------------------------------------------------------
  // `re.split(r'\n\s*---\s*\n|\n\s*\n\s*\n', response)`

  /** The last line break in `s[lo..hi]`, if any. */
  function LastNewline(s: String, lo: nat, hi: nat): (r: Option<nat>)
    requires lo <= hi <= |s|
    ensures r.Some? ==> lo <= r.value < hi && s[r.value] == '\n'
    ensures r.Some? ==> forall i :: r.value < i < hi ==> s[i] != '\n'
    ensures r.None? ==> forall i :: lo <= i < hi ==> s[i] != '\n'
    decreases hi - lo
  {
    if lo == hi then None
    else if s[hi - 1] == '\n' then Some(hi - 1)
    else LastNewline(s, lo, hi - 1)
  }

  /** Where a separator that starts at `p` ends, if one does: a line break, white space,
      `---`, white space ending in a line break; or, failing that, a line break and white
      space holding two more line breaks. The ends are the ones the greedy `\s*` with
      backtracking settles on: the last line break of the white-space run. */
  function SeparatorAt(s: String, p: nat): (r: Option<nat>)
    requires p < |s|
    ensures r.Some? ==> p < r.value <= |s|
  {
    if s[p] != '\n' then None
    else
      var a := SpaceEnd(s, p + 1);
      var dashes := a + 3 <= |s| && s[a] == '-' && s[a + 1] == '-' && s[a + 2] == '-';
      var afterDashes := if dashes then LastNewline(s, a + 3, SpaceEnd(s, a + 3)) else None;
      if afterDashes.Some? then Some(afterDashes.value + 1)
      else
        match LastNewline(s, p + 1, a)
        case Some(q2) => if LastNewline(s, p + 1, q2).Some? then Some(q2 + 1) else None
        case None => None
  }

  /** `re.split` from position `p` on, the current section having started at `start`: the
      leftmost separator closes the section and the search goes on after it. */
  function SectionsFrom(s: String, start: nat, p: nat): (r: seq<String>)
    requires start <= p <= |s|
    ensures |r| >= 1
    decreases |s| - p
  {
    if p == |s| then [s[start..]]
    else
      match SeparatorAt(s, p)
      case Some(e) => [s[start..p]] + SectionsFrom(s, e, e)
      case None => SectionsFrom(s, start, p + 1)
  }

  function Sections(s: String): seq<String> {
    SectionsFrom(s, 0, 0)
  }

  /** `section.strip()` for each section, as the loop computes it. */
  function StripAll(sections: seq<String>): seq<String> {
    seq(|sections|, i requires 0 <= i < |sections| => Strip(sections[i]))
  }

  /** The loop over the stripped sections from `k - 1` down: the first (so the last in
      text order) longer than 100 characters. */
  function LastLong(stripped: seq<String>, k: nat): (r: Option<nat>)
    requires k <= |stripped|
    ensures r.Some? ==> r.value < k && |stripped[r.value]| > 100
    ensures r.Some? ==> forall i :: r.value < i < k ==> |stripped[i]| <= 100
    ensures r.None? ==> forall i :: 0 <= i < k ==> |stripped[i]| <= 100
  {
    if k == 0 then None
    else if |stripped[k - 1]| > 100 then Some(k - 1)
    else LastLong(stripped, k - 1)
  }

  /** What the walk over the sections returns: the last long one, stripped of a closing
      YES or NO, or the empty string. */
  function LongSection(sections: seq<String>): String {
    var stripped := StripAll(sections);
    match LastLong(stripped, |stripped|)
    case Some(j) => StripVerdict(stripped[j])
    case None => []
  }

  // ---------------------------------------------------------------------------
  // parse_thought_process

  /** The text fallback: the marker lines first, then the sections when there are several,
      else the empty string. */
  function TextThought(response: String): (r: String)
    ensures r != [] ==> FirstMarker(Split(response, '\n'), 0).Some? || |Sections(response)| > 1
  {
    var lines := Split(response, '\n');
    var marker := FirstMarker(lines, 0);
    var fromMarker := if marker.Some? then AfterMarker(lines, marker.value + 1) else [];
    if fromMarker != [] then fromMarker
    else
      var sections := Sections(response);
      if |sections| > 1 then
        LongSection(sections)
      else []
  }

  /** What `parse_thought_process(response)` returns, where `decoded` is what
      `json.loads(response)` returns (None when it raises). It never raises. */
  function Thought(response: String, decoded: Option<Json>): (r: String)
    ensures JsonThought(decoded).None? && r != [] ==>
      FirstMarker(Split(response, '\n'), 0).Some? || |Sections(response)| > 1
  {
    match JsonThought(decoded)
    case Some(t) => t
    case None => TextThought(response)
  }

  /** A decoded object with a `thought_process` member yields that member's text, stripped,
      even when it is empty. */
  lemma {:induction false} DirectThought(response: String, fields: seq<(String, Json)>)
    requires Has(fields, "thought_process")
    ensures Thought(response, Some(JObj(fields))) == Strip(Render(Get(fields, "thought_process")))
  {
  }

  /** `parse_thought_process`, with its search for the marker line and its walk back over
      the sections as loops. */
  method ParseThoughtProcess(response: String, decoded: Option<Json>) returns (r: String)
    ensures r == Thought(response, decoded)
  {
    var fromJson := JsonThought(decoded);
    if fromJson.Some? {
      return fromJson.value;
    }
    r := ParseText(response);
  }

  /** The text fallback of `parse_thought_process`. */
  method ParseText(response: String) returns (r: String)
    ensures r == TextThought(response)
  {
    var lines := Split(response, '\n');
    var startIdx := FindMarker(lines);
    var fromMarker := if startIdx > 0 then AfterMarker(lines, startIdx) else [];
    assert fromMarker == if FirstMarker(lines, 0).Some? then AfterMarker(lines, FirstMarker(lines, 0).value + 1) else [];
    if fromMarker != [] {
      return fromMarker;
    }
    var sections := Sections(response);
    if |sections| > 1 {
      r := ScanSections(sections);
    } else {
      r := [];
    }
  }

  /** The search for the first marker line: one past it, or -1 when there is none. */
  method FindMarker(lines: seq<String>) returns (startIdx: int)
    ensures FirstMarker(lines, 0).None? ==> startIdx == -1
    ensures FirstMarker(lines, 0).Some? ==> startIdx == FirstMarker(lines, 0).value + 1
  {
    startIdx := -1;
    var i := 0;
    while i < |lines|
      invariant 0 <= i <= |lines|
      invariant FirstMarker(lines, 0) == FirstMarker(lines, i)
    {
      if IsThoughtMarker(lines[i]) {
        startIdx := i + 1;
        return;
      }
      i := i + 1;
    }
  }

  /** The walk back over the sections. */
  method ScanSections(sections: seq<String>) returns (r: String)
    ensures r == LongSection(sections)
  {
    ghost var stripped := StripAll(sections);
    var k := |sections|;
    while k > 0
      invariant 0 <= k <= |sections|
      invariant LastLong(stripped, k) == LastLong(stripped, |stripped|)
    {
      var section := StripSection(sections, k - 1);
      LastLongStep(stripped, k);
      if |section| > 100 {
        return StripVerdict(section);
      }
      k := k - 1;
    }
    return [];
  }

  /** `section.strip()` of section `i`. */
  method StripSection(sections: seq<String>, i: nat) returns (section: String)
    requires i < |sections|
    ensures section == StripAll(sections)[i]
  {
    section := Strip(sections[i]);
  }

  /** One step of the walk: a long section ends it, a short one passes it on. */
  lemma {:induction false} LastLongStep(stripped: seq<String>, k: nat)
    requires 0 < k <= |stripped|
    ensures |stripped[k - 1]| > 100 ==> LastLong(stripped, k) == Some(k - 1)
    ensures |stripped[k - 1]| <= 100 ==> LastLong(stripped, k) == LastLong(stripped, k - 1)
  {
  }

  // ---------------------------------------------------------------------------
  // properties

  /** `strip()` of a stripped text changes nothing. */
  lemma {:induction false} StripIdempotent(s: String)
    ensures Strip(Strip(s)) == Strip(s)
  {
    var a := StripIsSlice(s);
    if Strip(s) != [] {
      StripKeeps(Strip(s));
    }
  }

  /** Removing the closing verdict from a stripped text leaves a stripped text. */
  lemma {:induction false} StripVerdictStripped(t: String)
    requires Strip(t) == t
    ensures Strip(StripVerdict(t)) == StripVerdict(t)
  {
    var c := VerdictCut(t);
    if c == |t| {
      assert StripVerdict(t) == t;
    } else if c > 0 {
      StripVerdictTail(t);
      StrippedPrefix(t, c);
    }
  }

  /** A prefix of a stripped text that ends in a character other than white space is
      stripped. */
  lemma {:induction false} StrippedPrefix(t: String, c: nat)
    requires Strip(t) == t && 0 < c <= |t| && !IsSpace(t[c - 1])
    ensures Strip(t[..c]) == t[..c]
  {
    var a := StripIsSlice(t);
    var p := t[..c];
    assert p[0] == t[0] && p[c - 1] == t[c - 1];
    StripKeeps(p);
  }

  /** The explanation never has white space at either end, whichever way it was found. */
  lemma {:induction false} ThoughtStripped(response: String, decoded: Option<Json>)
    ensures Strip(Thought(response, decoded)) == Thought(response, decoded)
  {
    if JsonThought(decoded).Some? {
      JsonThoughtStripped(decoded);
    } else {
      TextThoughtStripped(response);
    }
  }

  lemma {:induction false} TextThoughtStripped(response: String)
    ensures Strip(TextThought(response)) == TextThought(response)
  {
    var lines := Split(response, '\n');
    var marker := FirstMarker(lines, 0);
    var fromMarker := if marker.Some? then AfterMarker(lines, marker.value + 1) else [];
    if fromMarker != [] {
      assert TextThought(response) == AfterMarker(lines, marker.value + 1);
      AfterMarkerStripped(lines, marker.value + 1);
    } else if |Sections(response)| > 1 {
      assert TextThought(response) == LongSection(Sections(response));
      LongSectionStripped(Sections(response));
    } else {
      assert TextThought(response) == [];
    }
  }

  lemma {:induction false} AfterMarkerStripped(lines: seq<String>, start: nat)
    requires start <= |lines|
    ensures Strip(AfterMarker(lines, start)) == AfterMarker(lines, start)
  {
    var x := Join(lines[start..], '\n');
    StripIdempotent(x);
    StripVerdictStripped(Strip(x));
  }

  lemma {:induction false} LongSectionStripped(sections: seq<String>)
    ensures Strip(LongSection(sections)) == LongSection(sections)
  {
    var stripped := StripAll(sections);
    var last := LastLong(stripped, |stripped|);
    if last.Some? {
      var j := last.value;
      assert stripped[j] == Strip(sections[j]);
      StripIdempotent(sections[j]);
      StripVerdictStripped(stripped[j]);
    }
  }

  /** Every text `extract_text` yields is stripped. */
  lemma {:induction false} ExtractTextStripped(v: Json)
    ensures ExtractText(v).Some? ==> Strip(ExtractText(v).value) == ExtractText(v).value
    decreases v, 1
  {
    match v
    case JStr(s) => StripIdempotent(s);
    case JObj(fields) =>
      if Has(fields, "text") {
        StripIdempotent(Render(Get(fields, "text")));
      } else if Has(fields, "response") {
        ExtractTextStripped(fields[KeyIndex(fields, "response").value].1);
      } else {
        ExtractFromMembersStripped(v, 0);
      }
    case _ =>
  }

  lemma {:induction false} ExtractFromMembersStripped(v: Json, i: nat)
    requires v.JObj? && i <= |v.fields|
    ensures ExtractFromMembers(v, i).Some? ==> Strip(ExtractFromMembers(v, i).value) == ExtractFromMembers(v, i).value
    decreases v, 0, |v.fields| - i
  {
    if i < |v.fields| {
      ExtractTextStripped(v.fields[i].1);
      ExtractFromMembersStripped(v, i + 1);
    }
  }

  /** Every text found in the decoded JSON is stripped. */
  lemma {:induction false} JsonThoughtStripped(decoded: Option<Json>)
    requires JsonThought(decoded).Some?
    ensures Strip(JsonThought(decoded).value) == JsonThought(decoded).value
  {
    var fields := decoded.value.fields;
    if Has(fields, "thought_process") {
      StripIdempotent(Render(Get(fields, "thought_process")));
    } else {
      var nested := Get(fields, "resume_evaluation").fields;
      if Has(nested, "thought_process") {
        StripIdempotent(Render(Get(nested, "thought_process")));
      } else {
        var tp := Get(nested, "thought_process_analysis");
        match tp
        case JStr(s) => StripIdempotent(s);
        case JObj(tpFields) =>
          if Has(tpFields, "response") && Get(tpFields, "response").JStr? {
            StripIdempotent(Get(tpFields, "response").s);
          } else if Has(tpFields, "formatted") && Get(tpFields, "formatted").JStr? {
            StripIdempotent(Get(tpFields, "formatted").s);
          } else {
            ExtractTextStripped(tp);
          }
      }
    }
  }

  // ---------------------------------------------------------------------------
  // the split is lossless, and the text fallback only quotes the reply

  /** The separators `re.split` removed, in order. */
  function SeparatorsFrom(s: String, start: nat, p: nat): seq<String>
    requires start <= p <= |s|
    decreases |s| - p
  {
    if p == |s| then []
    else
      match SeparatorAt(s, p)
      case Some(e) => [s[p..e]] + SeparatorsFrom(s, e, e)
      case None => SeparatorsFrom(s, start, p + 1)
  }

  /** The sections with the separators put back between them. */
  function Weave(sections: seq<String>, seps: seq<String>): String
    requires |sections| == |seps| + 1
  {
    if seps == [] then sections[0]
    else sections[0] + seps[0] + Weave(sections[1..], seps[1..])
  }

  /** A separator at `p` closes the current section. */
  lemma {:induction false} SectionsFromCons(s: String, start: nat, p: nat, e: nat)
    requires start <= p < |s| && SeparatorAt(s, p) == Some(e)
    ensures SectionsFrom(s, start, p) == [s[start..p]] + SectionsFrom(s, e, e)
    ensures SeparatorsFrom(s, start, p) == [s[p..e]] + SeparatorsFrom(s, e, e)
  {
  }

  lemma {:induction false} WeaveCons(x: String, sections: seq<String>, y: String, seps: seq<String>)
    requires |sections| == |seps| + 1
    ensures Weave([x] + sections, [y] + seps) == x + y + Weave(sections, seps)
  {
    assert ([x] + sections)[1..] == sections && ([y] + seps)[1..] == seps;
  }

  /** Putting the separators back between the sections gives the text back: nothing is
      lost but the separators. */
  lemma {:induction false} SectionsWeave(s: String, start: nat, p: nat)
    requires start <= p <= |s|
    ensures |SectionsFrom(s, start, p)| == |SeparatorsFrom(s, start, p)| + 1
    ensures Weave(SectionsFrom(s, start, p), SeparatorsFrom(s, start, p)) == s[start..]
    decreases |s| - p
  {
    if p < |s| {
      var sep := SeparatorAt(s, p);
      if sep.Some? {
        var e := sep.value;
        SectionsWeave(s, e, e);
        SectionsFromCons(s, start, p, e);
        calc {
          Weave(SectionsFrom(s, start, p), SeparatorsFrom(s, start, p));
          Weave([s[start..p]] + SectionsFrom(s, e, e), [s[p..e]] + SeparatorsFrom(s, e, e));
          { WeaveCons(s[start..p], SectionsFrom(s, e, e), s[p..e], SeparatorsFrom(s, e, e)); }
          s[start..p] + s[p..e] + s[e..];
          { SliceThree(s, start, p, e); }
          s[start..];
        }
      } else {
        SectionsWeave(s, start, p + 1);
      }
    }
  }

  lemma {:induction false} SliceThree(s: String, a: nat, b: nat, c: nat)
    requires a <= b <= c <= |s|
    ensures s[a..b] + s[b..c] + s[c..] == s[a..]
  {
  }

  lemma {:induction false} SplitWeave(s: String)
    ensures |Sections(s)| == |SeparatorsFrom(s, 0, 0)| + 1
    ensures Weave(Sections(s), SeparatorsFrom(s, 0, 0)) == s
  {
    SectionsWeave(s, 0, 0);
  }

  /** `piece` occurs in `s` at offset `a`. */
  predicate SliceAt(s: String, piece: String, a: nat) {
    a + |piece| <= |s| && forall i :: 0 <= i < |piece| ==> s[a + i] == piece[i]
  }

  lemma {:induction false} SliceOfSliceAt(s: String, x: String, a: nat, y: String, c: nat)
    requires SliceAt(s, x, a) && SliceAt(x, y, c)
    ensures SliceAt(s, y, a + c)
  {
    forall i | 0 <= i < |y|
      ensures s[a + c + i] == y[i]
    {
      assert x[c + i] == y[i];
    }
  }

  /** Each section is a piece of the text. */
  lemma {:induction false} SectionSlice(s: String, start: nat, p: nat, j: nat) returns (a: nat)
    requires start <= p <= |s| && j < |SectionsFrom(s, start, p)|
    ensures SliceAt(s, SectionsFrom(s, start, p)[j], a)
    decreases |s| - p
  {
    if p == |s| {
      a := start;
    } else {
      match SeparatorAt(s, p)
      case Some(e) =>
        if j == 0 {
          a := start;
        } else {
          assert SectionsFrom(s, start, p)[j] == SectionsFrom(s, e, e)[j - 1];
          a := SectionSlice(s, e, e, j - 1);
        }
      case None =>
        a := SectionSlice(s, start, p + 1, j);
    }
  }

  /** What the substitution leaves is the start of its input, and what `strip()` leaves
      a piece of it; so both, applied to a piece of a text, leave a piece of that text. */
  lemma {:induction false} QuotedPiece(s: String, x: String, o: nat) returns (a: nat)
    requires SliceAt(s, x, o)
    ensures SliceAt(s, StripVerdict(Strip(x)), a)
  {
    var c := StripIsSlice(x);
    var y := Strip(x);
    assert SliceAt(y, StripVerdict(y), 0);
    SliceOfSliceAt(x, y, c, StripVerdict(y), 0);
    SliceOfSliceAt(s, x, o, StripVerdict(y), c);
    a := o + c;
  }

  /** The text after the marker is a piece of the reply. */
  lemma {:induction false} AfterMarkerQuotes(response: String, start: nat) returns (a: nat)
    requires start < |Split(response, '\n')|
    ensures SliceAt(response, AfterMarker(Split(response, '\n'), start), a)
  {
    var lines := Split(response, '\n');
    var o := JoinSuffix(lines, start, '\n');
    JoinSplit(response, '\n');
    var x := Join(lines[start..], '\n');
    assert SliceAt(response, x, o) by {
      assert response[o..o + |x|] == response[o..];
    }
    a := QuotedPiece(response, x, o);
  }

  /** A section, stripped and without its closing verdict, is a piece of the reply. */
  lemma {:induction false} SectionQuotes(response: String, j: nat) returns (a: nat)
    requires j < |Sections(response)|
    ensures SliceAt(response, StripVerdict(Strip(Sections(response)[j])), a)
  {
    var o := SectionSlice(response, 0, 0, j);
    a := QuotedPiece(response, Sections(response)[j], o);
  }

  /** When the reply is not JSON, the explanation is a piece of the reply itself: the text
      fallback quotes, it never composes. */
  lemma {:induction false} ThoughtQuotes(response: String) returns (a: nat)
    ensures SliceAt(response, Thought(response, None), a)
  {
    assert JsonThought(None) == None;
    a := TextThoughtQuotes(response);
  }

  lemma {:induction false} TextThoughtQuotes(response: String) returns (a: nat)
    ensures SliceAt(response, TextThought(response), a)
  {
    var lines := Split(response, '\n');
    var marker := FirstMarker(lines, 0);
    var fromMarker := if marker.Some? then AfterMarker(lines, marker.value + 1) else [];
    if fromMarker != [] {
      a := MarkerQuotes(response, marker.value);
    } else if |Sections(response)| > 1 {
      a := LongSectionQuotes(response);
    } else {
      a := 0;
    }
  }

  /** A non-empty text after a marker line is a piece of the reply. */
  lemma {:induction false} MarkerQuotes(response: String, m: nat) returns (a: nat)
    requires m < |Split(response, '\n')|
    requires AfterMarker(Split(response, '\n'), m + 1) != []
    ensures SliceAt(response, AfterMarker(Split(response, '\n'), m + 1), a)
  {
    if m + 1 < |Split(response, '\n')| {
      a := AfterMarkerQuotes(response, m + 1);
    } else {
      assert false;
    }
  }

  /** The last long section, without its verdict, is a piece of the reply. */
  lemma {:induction false} LongSectionQuotes(response: String) returns (a: nat)
    ensures SliceAt(response, LongSection(Sections(response)), a)
  {
    var sections := Sections(response);
    var stripped := StripAll(sections);
    var last := LastLong(stripped, |stripped|);
    if last.Some? {
      assert stripped[last.value] == Strip(sections[last.value]);
      a := SectionQuotes(response, last.value);
    } else {
      a := 0;
    }
  }
}
