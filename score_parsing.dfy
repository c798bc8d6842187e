/** `parse_scores` (parsers.py): turn one raw reply into the list of N answers, trying the
    decoded JSON in several shapes first, then one standalone digit 1-7 per line, then
    reconciling the count with a scan of the whole text. */
module ScoreParsing {
  import opened Wrappers
  import opened Text
  import opened Json

  /** The ValueErrors `parse_scores` raises. */
  datatype ParseError =
    | EmptyResponse             // "Empty response from model"
    | TooFewScores(found: nat)  // "Could not extract N valid scores. Found k numbers"

  // ---------------------------------------------------------------------------
  // `\b([1-7])\b`

  /** A digit 1-7 at `k` with a word boundary on both sides. */
  predicate ScoreDigitAt(s: String, k: nat) {
    && k < |s| && '1' <= s[k] <= '7'
    && (k == 0 || !IsWordChar(s[k - 1]))
    && (k + 1 == |s| || !IsWordChar(s[k + 1]))
  }

  /** `re.findall(r'\b([1-7])\b', s[k..])` in the context of `s`, as integers. */
  function ScoreDigitsFrom(s: String, k: nat): (r: seq<int>)
    ensures forall i :: 0 <= i < |r| ==> 1 <= r[i] <= 7
    decreases |s| - k
  {
    if k >= |s| then []
    else (if ScoreDigitAt(s, k) then [DigitValue(s[k]) as int] else []) + ScoreDigitsFrom(s, k + 1)
  }

  function ScoreDigits(s: String): seq<int> {
    ScoreDigitsFrom(s, 0)
  }

  /** `re.search(r'\b([1-7])\b', s[k..])` in the context of `s`: the leftmost match. */
  function FirstScoreDigitFrom(s: String, k: nat): (r: Option<int>)
    ensures r.Some? ==> 1 <= r.value <= 7
    decreases |s| - k
  {
    if k >= |s| then None
    else if ScoreDigitAt(s, k) then Some(DigitValue(s[k]) as int)
    else FirstScoreDigitFrom(s, k + 1)
  }

  function FirstScoreDigit(s: String): Option<int> {
    FirstScoreDigitFrom(s, 0)
  }

  /** `re.search` finds exactly the first of the matches `re.findall` lists. */
  lemma {:induction false} SearchIsFirstOfFindall(s: String, k: nat)
    ensures FirstScoreDigitFrom(s, k) == if ScoreDigitsFrom(s, k) == [] then None else Some(ScoreDigitsFrom(s, k)[0])
    decreases |s| - k
  {
    if k < |s| && !ScoreDigitAt(s, k) {
      SearchIsFirstOfFindall(s, k + 1);
    }
  }

  // ---------------------------------------------------------------------------
  // the line fallback

  /** `re.sub(r'^[Qq]\d+[:\-\.]?\s*', '', line)`. */
  function StripQLabel(line: String): (r: String)
    ensures |r| <= |line| && r == line[|line| - |r|..]
  {
    if |line| >= 2 && (line[0] == 'Q' || line[0] == 'q') && IsDigit(line[1]) then
      TrimStart(DropLabelMark(line[DigitEnd(line, 1)..]))
    else line
  }

  /** The optional `[:\-\.]` after the label's digits. */
  function DropLabelMark(rest: String): (r: String)
    ensures |r| <= |rest| && r == rest[|rest| - |r|..]
  {
    if rest != [] && (rest[0] == ':' || rest[0] == '-' || rest[0] == '.') then rest[1..] else rest
  }

  /** `re.sub(r'^\d+[\.\)]\s*', '', line)`. */
  function StripNumberLabel(line: String): (r: String)
    ensures |r| <= |line| && r == line[|line| - |r|..]
  {
    var d := DigitEnd(line, 0);
    if 1 <= d < |line| && (line[d] == '.' || line[d] == ')') then TrimStart(line[d + 1..]) else line
  }

  /** What one line contributes: nothing for a blank line, else the first standalone
      digit 1-7 once one `Q<n>` label and one `<n>.`/`<n>)` label are removed. */
  function LineScore(line: String): (r: Option<int>)
    ensures r.Some? ==> 1 <= r.value <= 7
  {
    var t := Strip(line);
    if t == [] then None else FirstScoreDigit(StripNumberLabel(StripQLabel(t)))
  }

  /** The values of the entries that are present, in order. */
  function Somes(ms: seq<Option<int>>): (r: seq<int>)
    ensures |r| <= |ms|
  {
    if ms == [] then []
    else Somes(ms[..|ms| - 1]) + (if ms[|ms| - 1].Some? then [ms[|ms| - 1].value] else [])
  }

  lemma {:induction false} SomesInRange(ms: seq<Option<int>>, lo: int, hi: int)
    requires forall j :: 0 <= j < |ms| && ms[j].Some? ==> lo <= ms[j].value <= hi
    ensures forall i :: 0 <= i < |Somes(ms)| ==> lo <= Somes(ms)[i] <= hi
    decreases |ms|
  {
    if ms != [] {
      SomesInRange(ms[..|ms| - 1], lo, hi);
    }
  }

  /** What each line contributes. */
  function LineResults(lines: seq<String>): (ms: seq<Option<int>>)
    ensures |ms| == |lines|
    ensures forall i :: 0 <= i < |lines| ==> ms[i] == LineScore(lines[i])
  {
    seq(|lines|, i requires 0 <= i < |lines| => LineScore(lines[i]))
  }

  /** The numbers the line loop collects, in line order, at most one per line. */
  function LineScores(lines: seq<String>): (r: seq<int>)
    ensures |r| <= |lines|
  {
    Somes(LineResults(lines))
  }

  /** Every number the line loop collects is in 1..7. */
  lemma {:induction false} LineScoresInRange(lines: seq<String>)
    ensures forall i :: 0 <= i < |LineScores(lines)| ==> 1 <= LineScores(lines)[i] <= 7
  {
    SomesInRange(LineResults(lines), 1, 7);
  }

  lemma {:induction false} SomesStep(ms: seq<Option<int>>, m: Option<int>)
    ensures Somes(ms + [m]) == Somes(ms) + (if m.Some? then [m.value] else [])
  {
    assert (ms + [m])[..|ms|] == ms;
  }

  lemma {:induction false} LineScoresStep(lines: seq<String>, i: nat)
    requires i < |lines|
    ensures LineScores(lines[..i + 1]) == LineScores(lines[..i]) + (if LineScore(lines[i]).Some? then [LineScore(lines[i]).value] else [])
  {
    assert LineResults(lines[..i + 1]) == LineResults(lines[..i]) + [LineScore(lines[i])];
    SomesStep(LineResults(lines[..i]), LineScore(lines[i]));
  }

  /** The reconciliation of the line count with N. */
  function Reconcile(numbers: seq<int>, text: String, n: nat): (r: Result<seq<int>, ParseError>)
    ensures r.Ok? ==> |r.value| == n
  {
    if |numbers| == n then Ok(numbers)
    else if |numbers| > n then Ok(numbers[..n])
    else if |ScoreDigits(text)| >= n then Ok(ScoreDigits(text)[..n])
    else Err(TooFewScores(|numbers|))
  }

  // ---------------------------------------------------------------------------
  // the JSON shapes

  /** How one JSON strategy ends: with the answers, by falling through to the next
      strategy, or by raising, which abandons the JSON strategies altogether. */
  datatype Attempt = Found(nums: seq<int>) | Next | Raised

  function QKey(i: nat): String {
    "q" + NatToString(i)
  }

  /** The values of `q<i>`, `q<i+1>`, ... up to `q<n>`, stopping before the first missing
      key; None when a present value does not convert. */
  function QValuesFrom(fields: seq<(String, Json)>, i: nat, n: nat): (r: Option<seq<int>>)
    requires 1 <= i <= n + 1
    ensures r.Some? ==> |r.value| <= n + 1 - i
    decreases n + 1 - i
  {
    if i > n || !Has(fields, QKey(i)) then Some([])
    else
      match PyInt(Get(fields, QKey(i)))
      case None => None
      case Some(x) =>
        match QValuesFrom(fields, i + 1, n)
        case None => None
        case Some(rest) => Some([x] + rest)
  }

  /** Entry `j - i` of what the loop collects is the converted value of key `q<j>`. */
  lemma {:induction false} QValueAt(fields: seq<(String, Json)>, i: nat, n: nat, j: nat)
    requires 1 <= i <= n + 1
    requires QValuesFrom(fields, i, n).Some?
    requires i <= j < i + |QValuesFrom(fields, i, n).value|
    ensures Has(fields, QKey(j)) && PyInt(Get(fields, QKey(j))) == Some(QValuesFrom(fields, i, n).value[j - i])
    decreases n + 1 - i
  {
    var rest := QValuesFrom(fields, i + 1, n);
    if j > i {
      QValueAt(fields, i + 1, n, j);
      assert QValuesFrom(fields, i, n).value[j - i] == rest.value[j - (i + 1)];
    }
  }

  /** The loop stops early only at a missing key. */
  lemma {:induction false} QValuesStop(fields: seq<(String, Json)>, i: nat, n: nat)
    requires 1 <= i <= n + 1
    requires QValuesFrom(fields, i, n).Some?
    ensures |QValuesFrom(fields, i, n).value| < n + 1 - i ==> !Has(fields, QKey(i + |QValuesFrom(fields, i, n).value|))
    decreases n + 1 - i
  {
    if i <= n && Has(fields, QKey(i)) {
      QValuesStop(fields, i + 1, n);
    }
  }

  /** The `q1`..`qN` keys: tried only when both `q1` and `q17` are present. */
  function QKeysAttempt(fields: seq<(String, Json)>, n: nat): (r: Attempt)
    ensures r.Found? ==> |r.nums| == n
    ensures !r.Next? ==> Has(fields, "q1") && Has(fields, "q17")
  {
    if Has(fields, "q1") && Has(fields, "q17") then
      match QValuesFrom(fields, 1, n)
      case None => Raised
      case Some(nums) => if |nums| == n then Found(nums) else Next
    else Next
  }

  /** `[int(x) for x in data['scores']]`, kept when it has N entries. */
  function ScoresAttempt(fields: seq<(String, Json)>, n: nat): (r: Attempt)
    ensures r.Found? ==> |r.nums| == n
    ensures !r.Next? ==> Has(fields, "scores")
    ensures r.Raised? <==> (Has(fields, "scores") && (Iterate(Get(fields, "scores")).None?
      || ConvertAll(Iterate(Get(fields, "scores")).value).None?))
    ensures r.Found? <==> (Has(fields, "scores") && Iterate(Get(fields, "scores")).Some?
      && ConvertAll(Iterate(Get(fields, "scores")).value).Some?
      && |ConvertAll(Iterate(Get(fields, "scores")).value).value| == n)
    ensures r.Found? ==> r.nums == ConvertAll(Iterate(Get(fields, "scores")).value).value
  {
    if Has(fields, "scores") then
      match Iterate(Get(fields, "scores"))
      case None => Raised
      case Some(items) =>
        match ConvertAll(items)
        case None => Raised
        case Some(nums) => if |nums| == n then Found(nums) else Next
    else Next
  }

  /** The items of `data['resume_evaluation']['questions']` when `resume_evaluation` is an
      object whose `questions` member is a list; None otherwise. */
  function NestedQuestions(fields: seq<(String, Json)>): (r: Option<seq<Json>>)
    ensures r.Some? ==> (Has(fields, "resume_evaluation") && Get(fields, "resume_evaluation").JObj?
      && Has(Get(fields, "resume_evaluation").fields, "questions")
      && Get(Get(fields, "resume_evaluation").fields, "questions") == JArr(r.value))
  {
    if Has(fields, "resume_evaluation") && Get(fields, "resume_evaluation").JObj?
      && Has(Get(fields, "resume_evaluation").fields, "questions")
      && Get(Get(fields, "resume_evaluation").fields, "questions").JArr?
    then Some(Get(Get(fields, "resume_evaluation").fields, "questions").items)
    else None
  }

  /** `[int(x) for x in data['resume_evaluation']['questions']]`, kept when it has N
      entries; tried only when that member is a list inside an object. */
  function NestedAttempt(fields: seq<(String, Json)>, n: nat): (r: Attempt)
    ensures r.Found? ==> |r.nums| == n
    ensures !r.Next? ==> Has(fields, "resume_evaluation") && NestedQuestions(fields).Some?
    ensures r.Raised? <==> NestedQuestions(fields).Some? && ConvertAll(NestedQuestions(fields).value).None?
    ensures r.Found? <==> (NestedQuestions(fields).Some? && ConvertAll(NestedQuestions(fields).value).Some?
      && |ConvertAll(NestedQuestions(fields).value).value| == n)
    ensures r.Found? ==> r.nums == ConvertAll(NestedQuestions(fields).value).value
  {
    match NestedQuestions(fields)
    case None => Next
    case Some(questions) =>
      match ConvertAll(questions)
      case None => Raised
      case Some(nums) => if |nums| == n then Found(nums) else Next
  }

  /** `find_score_array`: the first list (depth first, members in order) whose items are
      all ints or strings and convert to exactly N integers. A failed conversion is
      caught here and the search goes on. */
  function FindScoreArray(v: Json, n: nat): (r: Option<seq<int>>)
    ensures r.Some? ==> |r.value| == n && (v.JArr? || v.JObj?)
    ensures v.JArr? ==> (r.Some? <==>
      && (forall i :: 0 <= i < |v.items| ==> IsIntOrStr(v.items[i]))
      && ConvertAll(v.items).Some? && |ConvertAll(v.items).value| == n)
    ensures v.JArr? && r.Some? ==> r == ConvertAll(v.items)
    decreases v, 1
  {
    match v
    case JArr(items) =>
      if forall i :: 0 <= i < |items| ==> IsIntOrStr(items[i]) then
        (match ConvertAll(items)
         case Some(nums) => if |nums| == n then Some(nums) else None
         case None => None)
      else None
    case JObj(fields) => FindInMembers(v, 0, n)
    case _ => None
  }

  /** A search result `if result:` accepts: a non-empty list. */
  predicate Hit(r: Option<seq<int>>) {
    r.Some? && r.value != []
  }

  /** The loop over `obj.values()` from member `i` on, returning the first non-empty hit. */
  function FindInMembers(v: Json, i: nat, n: nat): (r: Option<seq<int>>)
    requires v.JObj? && i <= |v.fields|
    ensures r.Some? ==> |r.value| == n && r.value != []
    ensures r.Some? ==> exists j :: (i <= j < |v.fields| && FindScoreArray(v.fields[j].1, n) == r
      && forall k :: i <= k < j ==> !Hit(FindScoreArray(v.fields[k].1, n)))
    ensures r.None? ==> forall k :: i <= k < |v.fields| ==> !Hit(FindScoreArray(v.fields[k].1, n))
    decreases v, 0, |v.fields| - i
  {
    if i == |v.fields| then None
    else
      var r := FindScoreArray(v.fields[i].1, n);
      if Hit(r) then r else FindInMembers(v, i + 1, n)
  }

  /** The strategies on a decoded object, in order; a raise ends them all. */
  function ObjectScores(fields: seq<(String, Json)>, n: nat): (r: Option<seq<int>>)
    ensures r.Some? ==> |r.value| == n
  {
    match QKeysAttempt(fields, n)
    case Found(nums) => Some(nums)
    case Raised => None
    case Next =>
      match ScoresAttempt(fields, n)
      case Found(nums) => Some(nums)
      case Raised => None
      case Next =>
        match NestedAttempt(fields, n)
        case Found(nums) => Some(nums)
        case Raised => None
        case Next =>
          var found := FindScoreArray(JObj(fields), n);
          if found.Some? && found.value != [] then found else None
  }

  /** Everything the `try` block around `json.loads` can return; None when it returns
      nothing, because the text did not decode, no shape matched or a conversion raised. */
  function JsonScores(decoded: Option<Json>, n: nat): (r: Option<seq<int>>)
    ensures r.Some? ==> |r.value| == n
  {
    match decoded
    case Some(JObj(fields)) => ObjectScores(fields, n)
    case Some(JArr(items)) =>
      (match ConvertAll(items)
       case Some(nums) => if |nums| == n then Some(nums) else None
       case None => None)
    case _ => None
  }

  // ---------------------------------------------------------------------------
  // parse_scores

  /** What `parse_scores(text)` returns or raises, where `decoded` is what `json.loads(text)`
      returns (None when it raises). Every success has exactly N entries. */
  function ParsedScores(text: String, decoded: Option<Json>, n: nat): (r: Result<seq<int>, ParseError>)
    ensures r.Ok? ==> |r.value| == n
    ensures r == Err(EmptyResponse) <==> Strip(text) == []
  {
    if Strip(text) == [] then Err(EmptyResponse)
    else
      match JsonScores(decoded, n)
      case Some(nums) => Ok(nums)
      case None => Reconcile(LineScores(Split(Strip(text), '\n')), text, n)
  }

  /** The loop over the lines of the reply: strip each line, skip it when blank, remove
      the labels and keep the first standalone digit 1-7. */
  method CollectLineScores(lines: seq<String>) returns (numbers: seq<int>)
    ensures numbers == LineScores(lines)
  {
    numbers := [];
    var i := 0;
    while i < |lines|
      invariant 0 <= i <= |lines|
      invariant numbers == LineScores(lines[..i])
    {
      LineScoresStep(lines, i);
      var line := Strip(lines[i]);
      if line != [] {
        line := StripQLabel(line);
        line := StripNumberLabel(line);
        var m := FirstScoreDigit(line);
        assert m == LineScore(lines[i]);
        if m.Some? {
          numbers := numbers + [m.value];
        }
      } else {
        assert LineScore(lines[i]) == None;
      }
      i := i + 1;
    }
    assert lines[..|lines|] == lines;
  }

  /** `parse_scores`. */
  method ParseScores(text: String, decoded: Option<Json>, n: nat) returns (r: Result<seq<int>, ParseError>)
    ensures r == ParsedScores(text, decoded, n)
  {
    if Strip(text) == [] {
      return Err(EmptyResponse);
    }
    var found := JsonScores(decoded, n);
    if found.Some? {
      return Ok(found.value);
    }
    var numbers := CollectLineScores(Split(Strip(text), '\n'));
    if |numbers| == n {
      return Ok(numbers);
    }
    if |numbers| > n {
      return Ok(numbers[..n]);
    }
    var all := ScoreDigits(text);
    if |all| >= n {
      return Ok(all[..n]);
    }
    return Err(TooFewScores(|numbers|));
  }

  // ---------------------------------------------------------------------------
  // properties

  /** When `q<i>` .. `q<n>` are all present and convert, the loop collects all of them. */
  lemma {:induction false} QValuesAllPresent(fields: seq<(String, Json)>, i: nat, n: nat)
    requires 1 <= i <= n + 1
    requires forall j :: i <= j <= n ==> Has(fields, QKey(j)) && PyInt(Get(fields, QKey(j))).Some?
    ensures QValuesFrom(fields, i, n).Some? && |QValuesFrom(fields, i, n).value| == n + 1 - i
    decreases n + 1 - i
  {
    if i <= n {
      QValuesAllPresent(fields, i + 1, n);
    }
  }

  /** The `q1`..`qN` strategy succeeds exactly when `q1` and `q17` are keys and every
      `q<i>` for i in 1..N is present and converts; it then yields `int(q1)`..`int(qN)`
      in question order. */
  lemma {:induction false} QKeysPath(fields: seq<(String, Json)>, n: nat)
    ensures QKeysAttempt(fields, n).Found? <==>
      && Has(fields, "q1") && Has(fields, "q17")
      && forall i :: 1 <= i <= n ==> Has(fields, QKey(i)) && PyInt(Get(fields, QKey(i))).Some?
    ensures QKeysAttempt(fields, n).Found? ==>
      |QKeysAttempt(fields, n).nums| == n &&
      forall i :: 1 <= i <= n ==> QKeysAttempt(fields, n).nums[i - 1] == PyInt(Get(fields, QKey(i))).value
  {
    if Has(fields, "q1") && Has(fields, "q17")
      && forall i :: 1 <= i <= n ==> Has(fields, QKey(i)) && PyInt(Get(fields, QKey(i))).Some?
    {
      QValuesAllPresent(fields, 1, n);
    }
    if QKeysAttempt(fields, n).Found? {
      var nums := QKeysAttempt(fields, n).nums;
      forall i | 1 <= i <= n
        ensures Has(fields, QKey(i)) && PyInt(Get(fields, QKey(i))) == Some(nums[i - 1])
      {
        QValueAt(fields, 1, n, i);
      }
    }
  }

  /** A list of N threes, as decoded. */
  function Threes(n: nat): seq<Json> {
    seq(n, _ => JNum(3))
  }

  lemma {:induction false} ThreesFound(n: nat)
    requires n >= 1
    ensures FindScoreArray(JArr(Threes(n)), n) == Some(seq(n, _ => 3))
  {
    var good := Threes(n);
    assert forall i :: 0 <= i < |good| ==> IsIntOrStr(good[i]);
    assert ConvertAll(good).Some?;
    assert ConvertAll(good).value == seq(n, _ => 3);
  }

  lemma {:induction false} BadEntryRaises()
    ensures ConvertAll([JStr("x")]) == None
  {
    assert IntOfString("x") == None by {
      StripKeeps("x");
    }
    assert PyInt(JStr("x")) == None;
  }

  /** `find_score_array` passes over a first member whose list does not convert, the
      ValueError being caught, and finds the list of N answers in the second member. */
  lemma {:induction false} BadScoresSearch(fields: seq<(String, Json)>, n: nat, nums: seq<int>)
    requires |fields| >= 2 && fields[0].1.JArr? && ConvertAll(fields[0].1.items).None?
    requires fields[1].1.JArr? && forall i :: 0 <= i < |fields[1].1.items| ==> IsIntOrStr(fields[1].1.items[i])
    requires ConvertAll(fields[1].1.items) == Some(nums) && |nums| == n >= 1
    ensures FindScoreArray(JObj(fields), n) == Some(nums)
  {
    var obj := JObj(fields);
    assert FindScoreArray(obj.fields[0].1, n) == None;
    assert FindScoreArray(obj.fields[1].1, n) == Some(nums);
    assert FindInMembers(obj, 1, n) == Some(nums);
  }

  /** Once a strategy raises inside the `try` (a `q<i>` value, a `scores` entry or a nested
      answer that does not convert), the strategies after it, the recursive search among
      them, are not tried: the `try` block yields nothing, whatever `find_score_array`
      would have found. */
  lemma {:induction false} RaiseSkipsGenericSearch(fields: seq<(String, Json)>, n: nat)
    requires || QKeysAttempt(fields, n).Raised?
             || (QKeysAttempt(fields, n).Next? && ScoresAttempt(fields, n).Raised?)
             || (QKeysAttempt(fields, n).Next? && ScoresAttempt(fields, n).Next? && NestedAttempt(fields, n).Raised?)
    ensures JsonScores(Some(JObj(fields)), n) == None
  {
  }

  /** The object `{"scores": ["x"], "answers": [3, 3, ..., 3]}`. */
  function BadScoresObject(n: nat): seq<(String, Json)> {
    [("scores", JArr([JStr("x")])), ("answers", JArr(Threes(n)))]
  }

  /** On `{"scores": ["x"], "answers": [3, ..., 3]}` the recursive search alone would find
      the N threes, but the `scores` strategy raises first and the `try` block yields
      nothing. */
  lemma {:induction false} BadScoresRaise(n: nat)
    requires n >= 1
    ensures FindScoreArray(JObj(BadScoresObject(n)), n) == Some(seq(n, _ => 3))
    ensures JsonScores(Some(JObj(BadScoresObject(n))), n) == None
  {
    var fields := BadScoresObject(n);
    BadEntryRaises();
    ThreesFound(n);
    BadScoresSearch(fields, n, seq(n, _ => 3));
    assert KeyIndex(fields, "q1") == None;
    assert KeyIndex(fields, "scores") == Some(0);
    assert QKeysAttempt(fields, n) == Next;
    assert Get(fields, "scores") == JArr([JStr("x")]);
    assert ScoresAttempt(fields, n) == Raised;
    RaiseSkipsGenericSearch(fields, n);
  }

  /** The reconciliation: at least N numbers from the lines give the first N of them (all
      of them when there are exactly N); fewer give the first N standalone digits 1-7 of
      the whole reply when it holds N of them, and otherwise the ValueError naming how
      many numbers the lines gave. */
  lemma {:induction false} ReconcileCases(numbers: seq<int>, text: String, n: nat)
    ensures |numbers| >= n ==> Reconcile(numbers, text, n) == Ok(numbers[..n])
    ensures |numbers| < n && |ScoreDigits(text)| >= n ==> Reconcile(numbers, text, n) == Ok(ScoreDigits(text)[..n])
    ensures |numbers| < n && |ScoreDigits(text)| < n ==> Reconcile(numbers, text, n) == Err(TooFewScores(|numbers|))
  {
    if |numbers| == n {
      assert numbers[..n] == numbers;
    }
  }

  /** A reply that does not decode, whose lines give fewer than N numbers, parses to the
      first N standalone digits 1-7 of the whole reply when there are N of them, and
      raises "Could not extract N valid scores" with the line count otherwise. */
  lemma {:induction false} ParsedFromText(text: String, n: nat)
    requires Strip(text) != []
    requires |LineScores(Split(Strip(text), '\n'))| < n
    ensures ParsedScores(text, None, n) ==
      if |ScoreDigits(text)| >= n then Ok(ScoreDigits(text)[..n])
      else Err(TooFewScores(|LineScores(Split(Strip(text), '\n'))|))
  {
    var numbers := LineScores(Split(Strip(text), '\n'));
    assert ParsedScores(text, None, n) == Reconcile(numbers, text, n);
    ReconcileCases(numbers, text, n);
  }

  /** A decoded object on which the `q<i>` strategy falls through, and whose `scores`
      member iterates to entries converting to N integers, parses to those integers. */
  lemma {:induction false} ScoresPath(text: String, fields: seq<(String, Json)>, n: nat, items: seq<Json>, nums: seq<int>)
    requires Strip(text) != []
    requires QKeysAttempt(fields, n).Next?
    requires Has(fields, "scores") && Iterate(Get(fields, "scores")) == Some(items)
    requires ConvertAll(items) == Some(nums) && |nums| == n
    ensures ParsedScores(text, Some(JObj(fields)), n) == Ok(nums)
  {
    assert ScoresAttempt(fields, n) == Found(nums);
    assert ObjectScores(fields, n) == Some(nums);
  }

  /** A decoded object on which the first two strategies fall through, and whose
      `resume_evaluation.questions` list converts to N integers, parses to those integers. */
  lemma {:induction false} NestedPath(text: String, fields: seq<(String, Json)>, n: nat, inner: seq<(String, Json)>, questions: seq<Json>, nums: seq<int>)
    requires Strip(text) != []
    requires QKeysAttempt(fields, n).Next? && ScoresAttempt(fields, n).Next?
    requires Has(fields, "resume_evaluation") && Get(fields, "resume_evaluation") == JObj(inner)
    requires Has(inner, "questions") && Get(inner, "questions") == JArr(questions)
    requires ConvertAll(questions) == Some(nums) && |nums| == n
    ensures ParsedScores(text, Some(JObj(fields)), n) == Ok(nums)
  {
    assert NestedQuestions(fields) == Some(questions);
    assert NestedAttempt(fields, n) == Found(nums);
    assert ObjectScores(fields, n) == Some(nums);
  }

  /** A decoded object on which the three named strategies fall through parses to what
      `find_score_array` finds in it. */
  lemma {:induction false} SearchPath(text: String, fields: seq<(String, Json)>, n: nat, nums: seq<int>)
    requires Strip(text) != []
    requires QKeysAttempt(fields, n).Next? && ScoresAttempt(fields, n).Next? && NestedAttempt(fields, n).Next?
    requires FindScoreArray(JObj(fields), n) == Some(nums)
    ensures ParsedScores(text, Some(JObj(fields)), n) == Ok(nums)
  {
    assert ObjectScores(fields, n) == Some(nums);
  }

  /** A decoded top-level list whose items convert to N integers parses to those integers. */
  lemma {:induction false} ListPath(text: String, items: seq<Json>, n: nat, nums: seq<int>)
    requires Strip(text) != []
    requires ConvertAll(items) == Some(nums) && |nums| == n
    ensures ParsedScores(text, Some(JArr(items)), n) == Ok(nums)
  {
    assert JsonScores(Some(JArr(items)), n) == Some(nums);
  }

  /** When a named strategy raises, the reply is parsed as though it had not decoded: the
      line scan and the reconciliation decide. */
  lemma {:induction false} RaiseFallsBack(text: String, fields: seq<(String, Json)>, n: nat)
    requires || QKeysAttempt(fields, n).Raised?
             || (QKeysAttempt(fields, n).Next? && ScoresAttempt(fields, n).Raised?)
             || (QKeysAttempt(fields, n).Next? && ScoresAttempt(fields, n).Next? && NestedAttempt(fields, n).Raised?)
    ensures ParsedScores(text, Some(JObj(fields)), n) == ParsedScores(text, None, n)
  {
    RaiseSkipsGenericSearch(fields, n);
  }

  /** The reconciliation only ever hands out numbers from the line scan or the text scan. */
  lemma {:induction false} ReconcileInRange(numbers: seq<int>, text: String, n: nat)
    requires forall i :: 0 <= i < |numbers| ==> 1 <= numbers[i] <= 7
    requires Reconcile(numbers, text, n).Ok?
    ensures forall i :: 0 <= i < n ==> 1 <= Reconcile(numbers, text, n).value[i] <= 7
  {
    var all := ScoreDigits(text);
    assert forall i :: 0 <= i < |all| ==> 1 <= all[i] <= 7;
  }

  /** Whatever the line scan or the whole-text scan produces lies in 1..7. */
  lemma {:induction false} FallbackInRange(text: String, decoded: Option<Json>, n: nat)
    requires JsonScores(decoded, n).None?
    requires ParsedScores(text, decoded, n).Ok?
    ensures forall i :: 0 <= i < n ==> 1 <= ParsedScores(text, decoded, n).value[i] <= 7
  {
    var lines := Split(Strip(text), '\n');
    var numbers := LineScores(lines);
    LineScoresInRange(lines);
    assert ParsedScores(text, decoded, n) == Reconcile(numbers, text, n);
    ReconcileInRange(numbers, text, n);
  }

  /** A numbered answer line, `i. d` or `Q<i>: d`, as the prompt asks for. */
  function AnswerLine(i: nat, d: nat, qStyle: bool): String
    requires d < 10
  {
    if qStyle then ['Q'] + NatToString(i) + [':', ' ', DigitChar(d)] else NatToString(i) + ['.', ' ', DigitChar(d)]
  }

  /** One answer line per answer, numbered from 1. */
  function AnswerLines(ds: seq<int>, qStyle: bool): (r: seq<String>)
    requires forall j :: 0 <= j < |ds| ==> 0 <= ds[j] < 10
    ensures |r| == |ds|
    ensures forall j :: 0 <= j < |ds| ==> r[j] == AnswerLine(j + 1, ds[j] as nat, qStyle)
  {
    seq(|ds|, j requires 0 <= j < |ds| => AnswerLine(j + 1, ds[j] as nat, qStyle))
  }

  /** The reply that answers question `j + 1` with `ds[j]` on line `j + 1`. */
  function AnswerText(ds: seq<int>, qStyle: bool): String
    requires forall j :: 0 <= j < |ds| ==> 0 <= ds[j] < 10
  {
    Join(AnswerLines(ds, qStyle), '\n')
  }

  /** A lone digit 1-7 is found by the search. */
  lemma {:induction false} LoneDigit(d: nat)
    requires 1 <= d <= 7
    ensures FirstScoreDigit([DigitChar(d)]) == Some(d as int)
  {
    assert ScoreDigitAt([DigitChar(d)], 0);
  }

  /** White space before a digit is trimmed away. */
  lemma {:induction false} SpaceDigitTrimmed(c: char)
    requires IsDigit(c)
    ensures TrimStart([' ', c]) == [c]
  {
    assert SpaceEnd([' ', c], 1) == 1;
    assert [' ', c][1..] == [c];
  }

  /** A `Q<digits>` label is removed up to what follows the digits. */
  lemma {:induction false} QLabelOf(num: String, rest: String)
    requires |num| >= 1 && AllDigits(num)
    requires rest == [] || !IsDigit(rest[0])
    ensures StripQLabel(['Q'] + num + rest) == TrimStart(DropLabelMark(rest))
  {
    var line := ['Q'] + num + rest;
    forall j | 1 <= j < 1 + |num|
      ensures IsDigit(line[j])
    {
      assert line[j] == num[j - 1];
    }
    if rest != [] {
      assert line[1 + |num|] == rest[0];
    }
    DigitEndAt(line, 1, 1 + |num|);
    assert line[1 + |num|..] == rest;
  }

  /** `Q<i>: ` is removed by the first substitution. */
  lemma {:induction false} QLabelRemoved(num: String, c: char)
    requires |num| >= 1 && AllDigits(num) && IsDigit(c)
    ensures StripQLabel(['Q'] + num + [':', ' ', c]) == [c]
  {
    QLabelOf(num, [':', ' ', c]);
    assert DropLabelMark([':', ' ', c]) == [' ', c];
    SpaceDigitTrimmed(c);
  }

  /** `<i>. ` is removed by the second substitution. */
  lemma {:induction false} NumberLabelRemoved(num: String, c: char)
    requires |num| >= 1 && AllDigits(num) && IsDigit(c)
    ensures StripNumberLabel(num + ['.', ' ', c]) == [c]
  {
    var line := num + ['.', ' ', c];
    forall j | 0 <= j < |num|
      ensures IsDigit(line[j])
    {
      assert line[j] == num[j];
    }
    assert line[|num|] == '.';
    DigitEndAt(line, 0, |num|);
    assert line[|num| + 1..] == [' ', c];
    SpaceDigitTrimmed(c);
  }

  /** A labelled answer line is one non-blank line with no white space at its ends. */
  lemma {:induction false} AnswerLineShape(i: nat, d: nat, qStyle: bool)
    requires d < 10
    ensures var line := AnswerLine(i, d, qStyle);
      && line != [] && '\n' !in line && !IsSpace(line[0]) && !IsSpace(line[|line| - 1])
  {
    var num := NatToString(i);
    var line := AnswerLine(i, d, qStyle);
    assert line[|line| - 1] == DigitChar(d);
    assert line[0] == 'Q' || line[0] == num[0];
    forall m | 0 <= m < |line| ensures line[m] != '\n' {
      if qStyle && 1 <= m <= |num| {
        assert line[m] == num[m - 1];
      } else if !qStyle && m < |num| {
        assert line[m] == num[m];
      }
    }
  }

  /** A labelled answer line contributes its answer. */
  lemma {:induction false} AnswerLineScore(i: nat, d: nat, qStyle: bool)
    requires 1 <= d <= 7
    ensures LineScore(AnswerLine(i, d, qStyle)) == Some(d as int)
  {
    var line := AnswerLine(i, d, qStyle);
    AnswerLineShape(i, d, qStyle);
    StripKeeps(line);
    LoneDigit(d);
    AnswerLineLabels(i, d, qStyle);
    LineScoreOf(line, [DigitChar(d)]);
  }

  /** Both label substitutions together leave only the answer digit of a labelled line. */
  lemma {:induction false} AnswerLineLabels(i: nat, d: nat, qStyle: bool)
    requires 1 <= d <= 7
    ensures StripNumberLabel(StripQLabel(AnswerLine(i, d, qStyle))) == [DigitChar(d)]
  {
    if qStyle {
      QStyleLabels(NatToString(i), DigitChar(d));
    } else {
      NumberStyleLabels(NatToString(i), DigitChar(d));
    }
  }

  lemma {:induction false} QStyleLabels(num: String, c: char)
    requires |num| >= 1 && AllDigits(num) && IsDigit(c)
    ensures StripNumberLabel(StripQLabel(['Q'] + num + [':', ' ', c])) == [c]
  {
    QLabelRemoved(num, c);
    assert StripNumberLabel([c]) == [c];
  }

  lemma {:induction false} NumberStyleLabels(num: String, c: char)
    requires |num| >= 1 && AllDigits(num) && IsDigit(c)
    ensures StripNumberLabel(StripQLabel(num + ['.', ' ', c])) == [c]
  {
    var line := num + ['.', ' ', c];
    NumberLabelRemoved(num, c);
    assert StripQLabel(line) == line by {
      assert line[0] == num[0];
    }
  }

  /** The score of a stripped line is the search on what the label removal leaves. */
  lemma {:induction false} LineScoreOf(line: String, core: String)
    requires line != [] && Strip(line) == line
    requires StripNumberLabel(StripQLabel(line)) == core
    ensures LineScore(line) == FirstScoreDigit(core)
  {
  }

  lemma {:induction false} SomesAll(ms: seq<Option<int>>, xs: seq<int>)
    requires |ms| == |xs|
    requires forall j :: 0 <= j < |ms| ==> ms[j] == Some(xs[j])
    ensures Somes(ms) == xs
    decreases |ms|
  {
    if ms != [] {
      var k := |ms| - 1;
      SomesAll(ms[..k], xs[..k]);
      assert xs == xs[..k] + [xs[k]];
    }
  }

  /** Lines that each contribute one number yield exactly those numbers, in order. */
  lemma {:induction false} LineScoresAll(lines: seq<String>, xs: seq<int>)
    requires |lines| == |xs|
    requires forall j :: 0 <= j < |lines| ==> LineScore(lines[j]) == Some(xs[j])
    ensures LineScores(lines) == xs
  {
    SomesAll(LineResults(lines), xs);
  }

  /** The answer lines come back from splitting the reply on line breaks. */
  lemma {:induction false} AnswerTextSplit(ds: seq<int>, qStyle: bool)
    requires |ds| >= 1
    requires forall j :: 0 <= j < |ds| ==> 1 <= ds[j] <= 7
    ensures Split(AnswerText(ds, qStyle), '\n') == AnswerLines(ds, qStyle)
  {
    var lines := AnswerLines(ds, qStyle);
    forall j | 0 <= j < |lines|
      ensures lines[j] != [] && '\n' !in lines[j]
    {
      AnswerLineShape(j + 1, ds[j] as nat, qStyle);
    }
    SplitJoin(lines, '\n');
  }

  /** The reply has no white space at either end. */
  lemma {:induction false} AnswerTextStripped(ds: seq<int>, qStyle: bool)
    requires |ds| >= 1
    requires forall j :: 0 <= j < |ds| ==> 1 <= ds[j] <= 7
    ensures AnswerText(ds, qStyle) != [] && Strip(AnswerText(ds, qStyle)) == AnswerText(ds, qStyle)
  {
    var lines := AnswerLines(ds, qStyle);
    var text := AnswerText(ds, qStyle);
    forall j | 0 <= j < |lines|
      ensures lines[j] != []
    {
      AnswerLineShape(j + 1, ds[j] as nat, qStyle);
    }
    AnswerLineShape(1, ds[0] as nat, qStyle);
    AnswerLineShape(|ds|, ds[|ds| - 1] as nat, qStyle);
    JoinStripped(lines, '\n');
  }

  lemma {:induction false} AnswerLinesScoreAt(ds: seq<int>, qStyle: bool, j: nat)
    requires forall j :: 0 <= j < |ds| ==> 1 <= ds[j] <= 7
    requires j < |ds|
    ensures LineScore(AnswerLines(ds, qStyle)[j]) == Some(ds[j])
  {
    var d: nat := ds[j];
    assert AnswerLines(ds, qStyle)[j] == AnswerLine(j + 1, d, qStyle);
    AnswerLineScore(j + 1, d, qStyle);
  }

  /** Every answer line contributes its answer, in order. */
  lemma {:induction false} AnswerLinesScores(ds: seq<int>, qStyle: bool)
    requires forall j :: 0 <= j < |ds| ==> 1 <= ds[j] <= 7
    ensures LineScores(AnswerLines(ds, qStyle)) == ds
  {
    var lines := AnswerLines(ds, qStyle);
    forall j | 0 <= j < |lines|
      ensures LineScore(lines[j]) == Some(ds[j])
    {
      AnswerLinesScoreAt(ds, qStyle, j);
    }
    LineScoresAll(lines, ds);
  }

  /** A reply that does not decode, whose lines yield at least N numbers, parses to the
      first N of them. */
  lemma {:induction false} ParsedFromLines(text: String, n: nat)
    requires Strip(text) != []
    requires |LineScores(Split(Strip(text), '\n'))| >= n
    ensures ParsedScores(text, None, n) == Ok(LineScores(Split(Strip(text), '\n'))[..n])
  {
    var numbers := LineScores(Split(Strip(text), '\n'));
    assert ParsedScores(text, None, n) == Reconcile(numbers, text, n);
    ReconcileCases(numbers, text, n);
  }

  /** Writing N or more answers one per labelled line and parsing the reply gives back the
      first N answers: lines beyond the N-th are dropped as noise. */
  lemma {:induction false} AnswersRoundTrip(ds: seq<int>, n: nat, qStyle: bool)
    requires 1 <= n <= |ds|
    requires forall j :: 0 <= j < |ds| ==> 1 <= ds[j] <= 7
    ensures ParsedScores(AnswerText(ds, qStyle), None, n) == Ok(ds[..n])
  {
    var text := AnswerText(ds, qStyle);
    AnswerTextStripped(ds, qStyle);
    AnswerTextSplit(ds, qStyle);
    AnswerLinesScores(ds, qStyle);
    ParsedFromLines(text, n);
  }
}
