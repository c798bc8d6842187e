/** `validate_scores` (parsers.py): check the count of answers and each answer against the
    range of its question. */
module ScoreValidation {
  import opened Wrappers
  import opened Config
  import opened Text
  import opened Json
  import ScoreParsing

  /** What `validate_scores` raises. */
  datatype ValidationError =
    | WrongCount(expected: nat, got: nat)               // ValueError "Expected N scores, got k"
    | OutOfRange(q: nat, score: int, lo: int, hi: int)  // ValueError "Q<q> score s out of valid range lo-hi"
    | NoRange(q: nat)                                   // KeyError on `QUESTION_RANGES[q]`

  /** Answer `j` (0-based) has a range, and lies in it. */
  predicate AnswerOk(scores: seq<int>, ranges: map<nat, Range>, j: nat)
    requires j < |scores|
  {
    j + 1 in ranges && ranges[j + 1].lo <= scores[j] <= ranges[j + 1].hi
  }

  /** The first answer at or after `i` that fails its check, if any. */
  function FirstViolation(scores: seq<int>, ranges: map<nat, Range>, i: nat): (r: Option<nat>)
    requires i <= |scores|
    ensures r.Some? ==> i <= r.value < |scores| && !AnswerOk(scores, ranges, r.value)
    ensures r.Some? ==> forall j :: i <= j < r.value ==> AnswerOk(scores, ranges, j)
    ensures r.None? ==> forall j :: i <= j < |scores| ==> AnswerOk(scores, ranges, j)
    decreases |scores| - i
  {
    if i == |scores| then None
    else if !AnswerOk(scores, ranges, i) then Some(i)
    else FirstViolation(scores, ranges, i + 1)
  }

  /** A failing answer after passing ones is the first violation. */
  lemma {:induction false} FirstViolationAt(scores: seq<int>, ranges: map<nat, Range>, i: nat)
    requires i < |scores| && !AnswerOk(scores, ranges, i)
    requires forall j :: 0 <= j < i ==> AnswerOk(scores, ranges, j)
    ensures FirstViolation(scores, ranges, 0) == Some(i)
  {
  }

  /** The error raised for a failing answer `j`: the missing range, or the question, the
      answer and the bounds. */
  function ErrorAt(scores: seq<int>, ranges: map<nat, Range>, j: nat): ValidationError
    requires j < |scores|
  {
    if j + 1 !in ranges then NoRange(j + 1)
    else OutOfRange(j + 1, scores[j], ranges[j + 1].lo, ranges[j + 1].hi)
  }

  /** What `validate_scores(scores)` returns or raises, with N = `n` and `QUESTION_RANGES`
      = `ranges`. */
  function Validated(scores: seq<int>, ranges: map<nat, Range>, n: nat): Result<seq<int>, ValidationError> {
    if |scores| != n then Err(WrongCount(n, |scores|))
    else
      match FirstViolation(scores, ranges, 0)
      case None => Ok(scores)
      case Some(j) => Err(ErrorAt(scores, ranges, j))
  }

  /** `validate_scores`: the count check, then the loop over the answers, stopping at the
      first failure. */
  method ValidateScores(scores: seq<int>, ranges: map<nat, Range>, n: nat) returns (r: Result<seq<int>, ValidationError>)
    ensures r == Validated(scores, ranges, n)
  {
    if |scores| != n {
      return Err(WrongCount(n, |scores|));
    }
    var i := 0;
    while i < |scores|
      invariant 0 <= i <= |scores|
      invariant forall j :: 0 <= j < i ==> AnswerOk(scores, ranges, j)
    {
      if i + 1 !in ranges {
        FirstViolationAt(scores, ranges, i);
        return Err(NoRange(i + 1));
      }
      var range := ranges[i + 1];
      if !(range.lo <= scores[i] <= range.hi) {
        FirstViolationAt(scores, ranges, i);
        return Err(OutOfRange(i + 1, scores[i], range.lo, range.hi));
      }
      i := i + 1;
    }
    return Ok(scores);
  }

  /** Validation succeeds exactly when there are N answers, each in the range of its
      question, and then returns its input unchanged. */
  lemma {:induction false} ValidatedOk(scores: seq<int>, ranges: map<nat, Range>, n: nat)
    ensures Validated(scores, ranges, n).Ok?
        <==> |scores| == n && forall j :: 0 <= j < |scores| ==> AnswerOk(scores, ranges, j)
    ensures Validated(scores, ranges, n).Ok? ==> Validated(scores, ranges, n).value == scores
  {
    if |scores| == n && forall j :: 0 <= j < |scores| ==> AnswerOk(scores, ranges, j) {
      var v := FirstViolation(scores, ranges, 0);
      if v.Some? {
        assert false;
      }
    }
  }

  /** Validating an already validated list gives the same answer: the check is idempotent. */
  lemma {:induction false} ValidateIdempotent(scores: seq<int>, ranges: map<nat, Range>, n: nat)
    requires Validated(scores, ranges, n).Ok?
    ensures Validated(Validated(scores, ranges, n).value, ranges, n) == Validated(scores, ranges, n)
  {
    ValidatedOk(scores, ranges, n);
  }

  /** An out-of-range error names the first failing question, its answer and its bounds;
      every earlier answer passed. */
  lemma {:induction false} OutOfRangeNamesFirst(scores: seq<int>, ranges: map<nat, Range>, n: nat, q: nat, s: int, lo: int, hi: int)
    requires Validated(scores, ranges, n) == Err(OutOfRange(q, s, lo, hi))
    ensures 1 <= q <= n && q in ranges && s == scores[q - 1]
    ensures ranges[q] == Range(lo, hi) && !(lo <= s <= hi)
    ensures forall j :: 0 <= j < q - 1 ==> AnswerOk(scores, ranges, j)
  {
    var v := FirstViolation(scores, ranges, 0);
    assert v.Some? && v.value + 1 == q;
  }

  /** Against the questionnaire's own table every question has a range, so validation only
      ever raises ValueError, and it accepts exactly the answers on each question's
      scale. */
  lemma {:induction false} QuestionnaireValidation(scores: seq<int>)
    ensures !Validated(scores, QuestionRanges, NumQuestions).Err? || !Validated(scores, QuestionRanges, NumQuestions).error.NoRange?
    ensures Validated(scores, QuestionRanges, NumQuestions).Ok?
        <==> |scores| == NumQuestions && forall j :: 0 <= j < |scores| ==> ScaleOf(j + 1).lo <= scores[j] <= ScaleOf(j + 1).hi
  {
    ValidatedOk(scores, QuestionRanges, NumQuestions);
    if |scores| == NumQuestions {
      var v := FirstViolation(scores, QuestionRanges, 0);
      if v.Some? {
        assert v.value + 1 in QuestionRanges;
      }
      forall j | 0 <= j < |scores|
        ensures AnswerOk(scores, QuestionRanges, j) <==> ScaleOf(j + 1).lo <= scores[j] <= ScaleOf(j + 1).hi
      {
        assert j + 1 in QuestionRanges;
      }
    }
  }

  /** What `parse_scores` returns always has N entries, so the count check that follows it
      never fails. */
  lemma {:induction false} ParsedHasValidCount(text: String, decoded: Option<Json>, ranges: map<nat, Range>, n: nat)
    requires ScoreParsing.ParsedScores(text, decoded, n).Ok?
    ensures !Validated(ScoreParsing.ParsedScores(text, decoded, n).value, ranges, n).Err?
        || !Validated(ScoreParsing.ParsedScores(text, decoded, n).value, ranges, n).error.WrongCount?
  {
  }
}
