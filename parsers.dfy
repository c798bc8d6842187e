/** What the three parsers of parsers.py read from one decoded reply that carries all the
    answers under their own keys. */
module Parsers {
  import opened Wrappers
  import opened Text
  import opened Json
  import opened ScoreParsing
  import opened ManipulationCheck
  import opened ThoughtProcess

  /** The decoded list `[v1, ..., vN]`. */
  function Numbers(vs: seq<int>): (r: seq<Json>)
    ensures |r| == |vs| && forall i :: 0 <= i < |vs| ==> r[i] == JNum(vs[i])
  {
    seq(|vs|, i requires 0 <= i < |vs| => JNum(vs[i]))
  }

  /** A reply decoding to an object with no `q1` key, whose `scores` member is a list of N
      integers, whose `manipulation_check` member is a string reading YES or NO once
      upper-cased and whose `thought_process` member is a string `s`: `parse_scores` returns
      those integers in order, `parse_manipulation_check` that verdict and
      `parse_thought_process` the string `s`, stripped. */
  lemma {:induction false} FullReply(text: String, fields: seq<(String, Json)>, vs: seq<int>, mc: String, flag: Verdict, s: String)
    requires Strip(text) != []
    requires !Has(fields, "q1")
    requires Has(fields, "scores") && Get(fields, "scores") == JArr(Numbers(vs))
    requires Has(fields, "manipulation_check") && Get(fields, "manipulation_check") == JStr(mc)
    requires YesNo(Upper(mc)) == Some(flag)
    requires Has(fields, "thought_process") && Get(fields, "thought_process") == JStr(s)
    ensures ParsedScores(text, Some(JObj(fields)), |vs|) == Ok(vs)
    ensures ManipulationVerdict(text, Some(JObj(fields))) == flag && flag != Unknown
    ensures Thought(text, Some(JObj(fields))) == Strip(s)
  {
    var items := Numbers(vs);
    assert forall i :: 0 <= i < |items| ==> PyInt(items[i]) == Some(vs[i]);
    assert ConvertAll(items).value == vs;
    ScoresPath(text, fields, |vs|, items, vs);
    DirectVerdict(fields);
    DirectThought(text, fields);
  }
}
