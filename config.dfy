/** The questionnaire's fixed shape. The configuration module itself is not part of this
    model; the answer scales below are the ones the prompt text (prompts.py) puts to the
    model, and the parsers take the count and the table as parameters. */
module Config {

  /** The inclusive range of answers one question accepts. */
  datatype Range = Range(lo: int, hi: int)

  const NumQuestions: nat := 17

  /** Question 1 is on a 7-point scale, questions 2 to 6 on 5 points, 7 to 16 on 6 points,
      and question 17 is a choice between 1 and 2. */
  function ScaleOf(q: nat): (r: Range)
    ensures r.lo == 1 && 2 <= r.hi <= 7
    ensures q == 1 <==> r.hi == 7
  {
    if q == 1 then Range(1, 7)
    else if q <= 6 then Range(1, 5)
    else if q <= 16 then Range(1, 6)
    else Range(1, 2)
  }

  /** `QUESTION_RANGES`, keyed by the 1-based question number. */
  const QuestionRanges: map<nat, Range> := map q: nat | 1 <= q <= NumQuestions :: ScaleOf(q)
}
