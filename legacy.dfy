/** The legacy driver, `main.py`: its `parse_scores`, the rows it builds from a reply
    (the raw answer texts under `Q1`..`Q17`, no validation), and its completion loop, in
    which only a trial whose request returned a reply counts as done. The requests, their
    threads and the clock are not modelled: what a submitted trial's future yields is an
    input, `dispatch`. */
module Legacy {
  import opened Wrappers
  import opened Text
  import FileProcessor
  import Sorting
  import CsvOutput

  // ---------------------------------------------------------------------------
  // parse_scores

  /** `line.split('. ', 1)[-1]`: what follows the first `. `, or the whole line. */
  function AfterLabel(line: String): (r: String)
    ensures |r| <= |line| && r == line[|line| - |r|..]
  {
    match FindFrom(line, ". ", 0)
    case Some(k) => line[k + 2..]
    case None => line
  }

  /** `parse_scores`: per line of the stripped reply, the text after its label,
      stripped. */
  function ParseScores(scores: String): (r: seq<String>)
    ensures |r| == |Split(Strip(scores), '\n')|
  {
    var lines := Split(Strip(scores), '\n');
    seq(|lines|, i requires 0 <= i < |lines| => Strip(AfterLabel(lines[i])))
  }

  /** How many times `c` occurs in `s` from `i` on. */
  function CountFrom(s: String, c: char, i: nat): nat
    requires i <= |s|
    decreases |s| - i
  {
    if i == |s| then 0 else (if s[i] == c then 1 else 0) + CountFrom(s, c, i + 1)
  }

  lemma {:induction false} CountSkips(s: String, c: char, i: nat, k: nat)
    requires i <= k <= |s|
    requires forall j :: i <= j < k ==> s[j] != c
    ensures CountFrom(s, c, i) == CountFrom(s, c, k)
    decreases k - i
  {
    if i < k {
      CountSkips(s, c, i + 1, k);
    }
  }

  /** `s[i..].split(sep)` has one piece more than `s[i..]` has separators. */
  lemma {:induction false} SplitFromCount(s: String, sep: char, i: nat)
    requires i <= |s|
    ensures |SplitFrom(s, sep, i)| == CountFrom(s, sep, i) + 1
    decreases |s| - i
  {
    var k := IndexFrom(s, sep, i);
    CountSkips(s, sep, i, k);
    if k < |s| {
      SplitFromCount(s, sep, k + 1);
      SplitFromCons(s, sep, i);
    }
  }

  /** The reply yields one entry per line of its stripped text, blank lines between
      answers included, and no entry has white space at either end. */
  lemma {:induction false} ParseScoresLines(scores: String)
    ensures |ParseScores(scores)| == CountFrom(Strip(scores), '\n', 0) + 1
    ensures forall i :: 0 <= i < |ParseScores(scores)| ==>
      Trimmed(ParseScores(scores)[i])
  {
    ParseScoresCount(scores);
    ParseScoresStripped(scores);
  }

  lemma ParseScoresCount(scores: String)
    ensures |ParseScores(scores)| == CountFrom(Strip(scores), '\n', 0) + 1
  {
    SplitFromCount(Strip(scores), '\n', 0);
  }

  lemma ParseScoresStripped(scores: String)
    ensures forall i :: 0 <= i < |ParseScores(scores)| ==>
      Trimmed(ParseScores(scores)[i])
  {
    var lines := Split(Strip(scores), '\n');
    var r := ParseScores(scores);
    forall i | 0 <= i < |r|
      ensures Trimmed(r[i])
    {
      assert r[i] == Strip(AfterLabel(lines[i]));
      StrippedEnds(AfterLabel(lines[i]));
    }
  }

  /** `e` has no white space at either end. */
  predicate Trimmed(e: String) {
    e == [] || (!IsSpace(e[0]) && !IsSpace(e[|e| - 1]))
  }

  lemma StrippedEnds(x: String)
    ensures Trimmed(Strip(x))
  {
    var _ := StripIsSlice(x);
  }

  /** The first `. ` after a label of digits is the one that ends the label: whatever
      follows it, `. ` included, is kept. */
  lemma {:induction false} AfterLabelDropsLabel(digits: String, x: String)
    requires AllDigits(digits)
    ensures AfterLabel(digits + ". " + x) == x
  {
    var line := digits + ". " + x;
    var n := |digits|;
    assert OccursAt(line, ". ", n) by {
      assert line[n..n + 2] == ". ";
    }
    forall j: nat | j < n
      ensures !OccursAt(line, ". ", j)
    {
      assert line[j] == digits[j];
    }
    assert FindFrom(line, ". ", 0) == Some(n);
    assert line[n + 2..] == x;
  }

  /** `i. ` for the `i`-th answer, counting from 1. */
  function Label(i: nat): String {
    NatToString(i + 1) + ". "
  }

  /** A reply that lists the answers `xs` one per line, numbered from 1. */
  function Numbered(xs: seq<String>): String {
    Join(seq(|xs|, i requires 0 <= i < |xs| => Label(i) + xs[i]), '\n')
  }

  /** An answer that fits on one line and has no white space at its ends. */
  predicate OneLine(x: String) {
    x != [] && !IsSpace(x[0]) && !IsSpace(x[|x| - 1]) && '\n' !in x
  }

  /** A numbered answer that fits on one line makes one line. */
  lemma {:induction false} LabelledLine(p: nat, x: String)
    requires OneLine(x)
    ensures '\n' !in Label(p) + x
  {
    var d := NatToString(p + 1);
    var line := Label(p) + x;
    assert line == d + ". " + x;
    forall j | 0 <= j < |line|
      ensures line[j] != '\n'
    {
      if j < |d| {
        assert line[j] == d[j];
      } else if j >= |d| + 2 {
        assert line[j] == x[j - |d| - 2];
      }
    }
  }

  /** A reply listing one-line answers numbered from 1 parses back into exactly those
      answers. */
  lemma {:induction false} ParseNumbered(xs: seq<String>)
    requires |xs| >= 1 && forall i :: 0 <= i < |xs| ==> OneLine(xs[i])
    ensures ParseScores(Numbered(xs)) == xs
  {
    var lines := seq(|xs|, i requires 0 <= i < |xs| => Label(i) + xs[i]);
    var text := Numbered(xs);
    assert Strip(text) == text by {
      assert IsDigit(lines[0][0]);
      assert forall p :: 0 <= p < |lines| ==> lines[p] != [];
      JoinEnds(lines, '\n');
      StripKeeps(text);
    }
    assert Split(text, '\n') == lines by {
      forall p | 0 <= p < |lines|
        ensures '\n' !in lines[p]
      {
        LabelledLine(p, xs[p]);
      }
      assert text[0..] == text;
      SplitFromJoin(text, 0, lines, '\n');
    }
    forall i | 0 <= i < |xs|
      ensures ParseScores(text)[i] == xs[i]
    {
      assert lines[i] == NatToString(i + 1) + ". " + xs[i];
      AfterLabelDropsLabel(NatToString(i + 1), xs[i]);
      StripKeeps(xs[i]);
    }
  }

  // ---------------------------------------------------------------------------
  // rows and the results file

  /** The trials of one file: `range(100)`. */
  const Total: nat := 100

  /** `batch_size`. */
  const BatchSize: nat := 15

  /** The question columns, `Q1`..`Q17`. */
  const Kept: nat := 17

  /** One result: `Model`, `Iteration` and the answer texts under `Q1`, `Q2`, ... */
  datatype LegacyRow = LegacyRow(model: String, iteration: nat, answers: seq<String>)

  /** The row a reply makes: the first seventeen entries `parse_scores` yields, or all of
      them when there are fewer. */
  function ReplyRow(model: String, iteration: nat, reply: String): (r: LegacyRow)
    ensures r.model == model && r.iteration == iteration
    ensures |r.answers| == (if |ParseScores(reply)| < Kept then |ParseScores(reply)| else Kept)
    ensures r.answers == ParseScores(reply)[..|r.answers|]
  {
    var parsed := ParseScores(reply);
    LegacyRow(model, iteration, parsed[..if |parsed| < Kept then |parsed| else Kept])
  }

  /** A reply that numbers its answers one per line gives a row holding the first
      seventeen of them, or all when there are fewer. */
  lemma {:induction false} ReplyRowNumbered(model: String, iteration: nat, xs: seq<String>)
    requires |xs| >= 1 && forall i :: 0 <= i < |xs| ==> OneLine(xs[i])
    ensures ReplyRow(model, iteration, Numbered(xs)).answers == if |xs| < Kept then xs else xs[..Kept]
  {
    ParseNumbered(xs);
  }

  /** The `fieldnames`: `Model`, `Iteration`, `Q1`..`Q17`. */
  function Header(): CsvOutput.Record {
    ["Model", "Iteration"] + FileProcessor.QNames(Kept)
  }

  /** What `writerow` writes for a row: the model, the trial, and under each question its
      answer text, or the empty string when the row has no answer for it. */
  function RowRecord(row: LegacyRow): CsvOutput.Record {
    [row.model, IntToString(row.iteration)]
    + seq(Kept, i requires 0 <= i < Kept => if i < |row.answers| then row.answers[i] else "")
  }

  function Records(rows: seq<LegacyRow>): seq<CsvOutput.Record> {
    seq(|rows|, i requires 0 <= i < |rows| => RowRecord(rows[i]))
  }

  /** Every line is as wide as the header, nineteen cells, and holds the row's answers
      under their questions. */
  lemma {:induction false} RecordLayout(row: LegacyRow)
    requires |row.answers| <= Kept
    ensures |RowRecord(row)| == |Header()| == Kept + 2
    ensures RowRecord(row)[0] == row.model
    ensures forall i :: 0 <= i < |row.answers| ==> RowRecord(row)[2 + i] == row.answers[i]
    ensures forall j :: 2 + |row.answers| <= j < 2 + Kept ==> RowRecord(row)[j] == ""
  {
  }

  /** No row's line reads like the header: its second cell is a numeral. */
  lemma {:induction false} RecordIsNotHeader(row: LegacyRow)
    ensures RowRecord(row) != Header()
  {
    assert RowRecord(row)[1] == NatToString(row.iteration);
    assert IsDigit(RowRecord(row)[1][0]);
    assert Header()[1] == "Iteration";
  }

  /** However many runs append to one results file, starting from a path that does not
      exist, the header is written once, on the first line. */
  lemma {:induction false} ResultsHeaderOnce(existed: bool, before: seq<CsvOutput.Record>, rows: seq<LegacyRow>)
    requires existed ==> CsvOutput.HeaderOnce(before, Header())
    requires !existed ==> before == []
    ensures CsvOutput.HeaderOnce(CsvOutput.Appended(existed, before, Header(), Records(rows)), Header())
  {
    forall i | 0 <= i < |rows|
      ensures Records(rows)[i] != Header()
    {
      RecordIsNotHeader(rows[i]);
    }
    CsvOutput.HeaderWrittenOnce(existed, before, Header(), Records(rows));
  }

  // ---------------------------------------------------------------------------
  // the completion loop

  /** What `future.result()` gives for one trial: None, the reply text, or an
      exception. */
  datatype Outcome = NoReply | Reply(text: String) | Raised

  /** The settings of one call: the model, whether it is in one of the three provider
      lists, and what the future of trial `i` submitted in round `k` yields,
      `dispatch(k, i)`. */
  datatype Job = Job(model: String, listed: bool, dispatch: (nat, nat) -> Outcome)

  /** The two locals the loop updates: `completed_iterations` and `results`. */
  datatype Progress = Progress(completed: set<nat>, results: seq<LegacyRow>)

  /** `current_iterations`: the first fifteen missing trials of `range(100)`. */
  function Batch(completed: set<nat>): seq<nat> {
    FileProcessor.Batch(Total, completed, BatchSize)
  }

  /** The futures list after the first `j` trials of the round are submitted: one per
      trial when the model is in a provider list, none otherwise. */
  function Submitted(job: Job, round: nat, current: seq<nat>, j: nat): seq<(nat, Outcome)>
    requires j <= |current|
    decreases j
  {
    if j == 0 || !job.listed then []
    else Submitted(job, round, current, j - 1) + [(current[j - 1], job.dispatch(round, current[j - 1]))]
  }

  /** The row a reply makes for this call's model. The round and run functions below take
      the step from reply to row as a parameter, so that what they say about which trials
      complete does not depend on how replies are parsed. */
  function RowsOf(model: String): (nat, String) -> LegacyRow {
    (i: nat, t: String) => ReplyRow(model, i, t)
  }

  /** The state after the loop over the first `j` futures: a reply adds its row and marks
      its trial completed; None and an exception change nothing. */
  function Collected(rowOf: (nat, String) -> LegacyRow, p: Progress, futures: seq<(nat, Outcome)>, j: nat): Progress
    requires j <= |futures|
    decreases j
  {
    if j == 0 then p
    else
      var q := Collected(rowOf, p, futures, j - 1);
      var (i, o) := futures[j - 1];
      if o.Reply? then Progress(q.completed + {i}, q.results + [rowOf(i, o.text)]) else q
  }

  /** The loop over the futures, one future further. */
  lemma CollectedStep(rowOf: (nat, String) -> LegacyRow, p: Progress, futures: seq<(nat, Outcome)>, j: nat)
    requires j < |futures|
    ensures var q := Collected(rowOf, p, futures, j);
      Collected(rowOf, p, futures, j + 1)
      == if futures[j].1.Reply? then Progress(q.completed + {futures[j].0}, q.results + [rowOf(futures[j].0, futures[j].1.text)]) else q
  {
  }

  /** One pass of the `while` body, the `round`-th (from 0). */
  function Round(job: Job, rowOf: (nat, String) -> LegacyRow, p: Progress, round: nat): Progress {
    var current := Batch(p.completed);
    var futures := Submitted(job, round, current, |current|);
    Collected(rowOf, p, futures, |futures|)
  }

  /** One pass of the `while` body as a value. */
  function RoundFn(job: Job, rowOf: (nat, String) -> LegacyRow): (Progress, nat) -> Progress {
    (p: Progress, round: nat) => Round(job, rowOf, p, round)
  }

  /** The state after passes 0, 1, ..., `k - 1` of a loop body `step`, from nothing
      completed. */
  function Steps(step: (Progress, nat) -> Progress, k: nat): Progress
    decreases k
  {
    if k == 0 then Progress({}, []) else step(Steps(step, k - 1), k - 1)
  }

  /** A property of the state that holds at the start and that every pass keeps holds
      after any number of passes. */
  lemma {:induction false} StepsKeep(step: (Progress, nat) -> Progress, inv: Progress -> bool, k: nat)
    requires inv(Progress({}, []))
    requires forall p: Progress, r: nat :: inv(p) ==> inv(step(p, r))
    ensures inv(Steps(step, k))
    decreases k
  {
    if k > 0 {
      StepsKeep(step, inv, k - 1);
    }
  }

  /** The state after `k` passes of the `while` body. */
  function Run(job: Job, rowOf: (nat, String) -> LegacyRow, k: nat): Progress {
    Steps(RoundFn(job, rowOf), k)
  }

  /** The `while` condition fails: `len(completed_iterations) >= 100`. */
  predicate Finished(p: Progress) {
    |p.completed| >= Total
  }

  /** A listed model submits every trial of the round, in order, each with its future; an
      unlisted one submits nothing. */
  lemma {:induction false} SubmittedPairs(job: Job, round: nat, current: seq<nat>, j: nat)
    requires j <= |current|
    ensures |Submitted(job, round, current, j)| == if job.listed then j else 0
    ensures forall t :: 0 <= t < |Submitted(job, round, current, j)| ==>
      Submitted(job, round, current, j)[t] == (current[t], job.dispatch(round, current[t]))
    decreases j
  {
    if j > 0 {
      SubmittedPairs(job, round, current, j - 1);
    }
  }

  /** The loop over a round's futures marks no trial none of whose futures replies. */
  lemma {:induction false} CollectedSkips(rowOf: (nat, String) -> LegacyRow, p: Progress, futures: seq<(nat, Outcome)>, j: nat, i: nat)
    requires j <= |futures|
    requires forall t :: 0 <= t < j && futures[t].0 == i ==> !futures[t].1.Reply?
    ensures i in Collected(rowOf, p, futures, j).completed <==> i in p.completed
    decreases j
  {
    if j > 0 {
      CollectedSkips(rowOf, p, futures, j - 1, i);
    }
  }

  /** The loop over a round's futures marks only trials it has futures for. */
  lemma {:induction false} CollectedBound(rowOf: (nat, String) -> LegacyRow, p: Progress, futures: seq<(nat, Outcome)>, j: nat, bound: nat)
    requires j <= |futures|
    requires forall x :: x in p.completed ==> x < bound
    requires forall t :: 0 <= t < j ==> futures[t].0 < bound
    ensures forall x :: x in Collected(rowOf, p, futures, j).completed ==> x < bound
    decreases j
  {
    if j > 0 {
      CollectedBound(rowOf, p, futures, j - 1, bound);
    }
  }

  /** Trial `i` never gets a reply, in any round. */
  ghost predicate NeverReplies(job: Job, i: nat) {
    forall r: nat :: !job.dispatch(r, i).Reply?
  }

  /** A round completes only trials of `range(100)`, and not a missing trial whose
      future in this round does not reply. */
  lemma {:induction false} RoundMarks(job: Job, rowOf: (nat, String) -> LegacyRow, p: Progress, round: nat, i: nat)
    requires forall x :: x in p.completed ==> x < Total
    ensures forall x :: x in Round(job, rowOf, p, round).completed ==> x < Total
    ensures i !in p.completed && !job.dispatch(round, i).Reply? ==> i !in Round(job, rowOf, p, round).completed
  {
    var current := Batch(p.completed);
    FileProcessor.BatchIsLowest(Total, p.completed, BatchSize);
    SubmittedPairs(job, round, current, |current|);
    var futures := Submitted(job, round, current, |current|);
    CollectedBound(rowOf, p, futures, |futures|, Total);
    if !job.dispatch(round, i).Reply? {
      forall t | 0 <= t < |futures| && futures[t].0 == i
        ensures !futures[t].1.Reply?
      {
        assert futures[t].1 == job.dispatch(round, i);
      }
      CollectedSkips(rowOf, p, futures, |futures|, i);
    }
  }

  /** Every trial the loop completes is one of `range(100)`, and a trial that never gets
      a reply is never completed: None and exceptions leave it missing, to be picked again
      in the next round. */
  lemma {:induction false} RunMarks(job: Job, rowOf: (nat, String) -> LegacyRow, k: nat, i: nat)
    ensures forall x :: x in Run(job, rowOf, k).completed ==> x < Total
    ensures NeverReplies(job, i) ==> i !in Run(job, rowOf, k).completed
  {
    var inv := (p: Progress) => (forall x :: x in p.completed ==> x < Total) && (NeverReplies(job, i) ==> i !in p.completed);
    forall p: Progress, r: nat | inv(p)
      ensures inv(RoundFn(job, rowOf)(p, r))
    {
      RoundMarks(job, rowOf, p, r, i);
    }
    StepsKeep(RoundFn(job, rowOf), inv, k);
  }

  /** A set inside another is no larger. */
  lemma {:induction false} SubsetSize(a: set<nat>, b: set<nat>)
    requires a <= b
    ensures |a| <= |b|
    decreases |b|
  {
    if b != {} {
      var x :| x in b;
      SubsetSize(a - {x}, b - {x});
    }
  }

  /** A trial that never gets a reply keeps the loop running for ever: no round ever
      completes all hundred trials. */
  lemma {:induction false} NeverEnds(job: Job, rowOf: (nat, String) -> LegacyRow, i: nat, k: nat)
    requires i < Total && NeverReplies(job, i)
    ensures !Finished(Run(job, rowOf, k))
  {
    RunMarks(job, rowOf, k, i);
    var done := Run(job, rowOf, k).completed;
    var others := FileProcessor.Below(Total) - {i};
    FileProcessor.BelowMembers(Total);
    FileProcessor.BelowSize(Total);
    assert done <= others;
    SubsetSize(done, others);
  }

  // ---------------------------------------------------------------------------
  // the rows the loop collects

  /** A step from reply to row that builds rows for `model`, each carrying the trial it
      was made for and at most seventeen answers. */
  ghost predicate RowsFor(rowOf: (nat, String) -> LegacyRow, model: String) {
    forall i: nat, t: String ::
      rowOf(i, t).iteration == i && rowOf(i, t).model == model && |rowOf(i, t).answers| <= Kept
  }

  lemma {:induction false} RowsOfRowsFor(model: String)
    ensures RowsFor(RowsOf(model), model)
  {
    forall i: nat, t: String
      ensures RowsOf(model)(i, t).iteration == i && RowsOf(model)(i, t).model == model
      ensures |RowsOf(model)(i, t).answers| <= Kept
    {
      var parsed := ParseScores(t);
      assert RowsOf(model)(i, t) == LegacyRow(model, i, parsed[..if |parsed| < Kept then |parsed| else Kept]);
    }
  }

  /** Some row is for trial `i`. */
  predicate HasRow(rows: seq<LegacyRow>, i: nat) {
    exists x :: 0 <= x < |rows| && rows[x].iteration == i
  }

  /** `results` holds exactly one row per completed trial and no other, each for the
      call's model and with at most seventeen answers. */
  ghost predicate Matches(p: Progress, model: String) {
    && (forall x :: 0 <= x < |p.results| ==> p.results[x].iteration in p.completed)
    && (forall i :: i in p.completed ==> HasRow(p.results, i))
    && (forall x, y :: 0 <= x < y < |p.results| ==> p.results[x].iteration != p.results[y].iteration)
    && (forall x :: 0 <= x < |p.results| ==> p.results[x].model == model && |p.results[x].answers| <= Kept)
  }

  /** The loop over futures for distinct trials none of which is completed yet keeps
      one row per completed trial. */
  lemma {:induction false} CollectedMatches(rowOf: (nat, String) -> LegacyRow, model: String, p: Progress, futures: seq<(nat, Outcome)>, j: nat)
    requires j <= |futures| && RowsFor(rowOf, model) && Matches(p, model)
    requires forall a, b :: 0 <= a < b < j ==> futures[a].0 != futures[b].0
    requires forall a :: 0 <= a < j ==> futures[a].0 !in p.completed
    ensures Matches(Collected(rowOf, p, futures, j), model)
    decreases j
  {
    if j > 0 {
      var q := Collected(rowOf, p, futures, j - 1);
      CollectedMatches(rowOf, model, p, futures, j - 1);
      var (i, o) := futures[j - 1];
      if o.Reply? {
        CollectedSkips(rowOf, p, futures, j - 1, i);
        var r := Collected(rowOf, p, futures, j);
        var row := rowOf(i, o.text);
        assert r == Progress(q.completed + {i}, q.results + [row]);
        assert row.iteration == i && row.model == model && |row.answers| <= Kept;
        forall x | 0 <= x < |r.results|
          ensures r.results[x].iteration in r.completed
          ensures r.results[x].model == model && |r.results[x].answers| <= Kept
        {
          if x < |q.results| {
            assert r.results[x] == q.results[x];
          }
        }
        forall x, y | 0 <= x < y < |r.results|
          ensures r.results[x].iteration != r.results[y].iteration
        {
          assert r.results[x] == q.results[x];
          if y < |q.results| {
            assert r.results[y] == q.results[y];
          } else {
            assert q.results[x].iteration in q.completed;
          }
        }
        forall n | n in r.completed
          ensures HasRow(r.results, n)
        {
          if n == i {
            assert r.results[|q.results|].iteration == n;
          } else {
            assert HasRow(q.results, n);
            var x :| 0 <= x < |q.results| && q.results[x].iteration == n;
            assert r.results[x].iteration == n;
          }
        }
      }
    }
  }

  /** A round keeps one row per completed trial: it submits distinct trials, all
      missing. */
  lemma {:induction false} RoundMatches(job: Job, rowOf: (nat, String) -> LegacyRow, p: Progress, round: nat)
    requires RowsFor(rowOf, job.model) && Matches(p, job.model)
    ensures Matches(Round(job, rowOf, p, round), job.model)
  {
    var current := Batch(p.completed);
    FileProcessor.BatchIsLowest(Total, p.completed, BatchSize);
    SubmittedPairs(job, round, current, |current|);
    var futures := Submitted(job, round, current, |current|);
    forall a, b | 0 <= a < b < |futures|
      ensures futures[a].0 != futures[b].0
    {
      assert futures[a].0 == current[a] && futures[b].0 == current[b];
    }
    forall a | 0 <= a < |futures|
      ensures futures[a].0 !in p.completed
    {
      assert futures[a].0 == current[a];
    }
    CollectedMatches(rowOf, job.model, p, futures, |futures|);
  }

  /** However many rounds have run, `results` holds exactly one row per completed trial,
      for the call's model and with at most seventeen answers. */
  lemma {:induction false} RunMatches(job: Job, rowOf: (nat, String) -> LegacyRow, k: nat)
    requires RowsFor(rowOf, job.model)
    ensures Matches(Run(job, rowOf, k), job.model)
  {
    var inv := (p: Progress) => Matches(p, job.model);
    forall p: Progress, r: nat | inv(p)
      ensures inv(RoundFn(job, rowOf)(p, r))
    {
      RoundMatches(job, rowOf, p, r);
    }
    StepsKeep(RoundFn(job, rowOf), inv, k);
  }

  // ---------------------------------------------------------------------------
  // when every future replies

  /** Every future of a trial of `range(100)` returns a reply, in every round. */
  ghost predicate AlwaysReplies(job: Job) {
    forall r: nat, i: nat :: i < Total ==> job.dispatch(r, i).Reply?
  }

  /** Two loops whose passes take equal completed sets to equal completed sets have
      equal completed sets after any number of passes. */
  lemma {:induction false} StepsAgree(
    step: (Progress, nat) -> Progress, other: (FileProcessor.Progress, nat) -> FileProcessor.Progress, k: nat)
    requires forall p: Progress, q: FileProcessor.Progress, r: nat ::
      p.completed == q.completed ==> step(p, r).completed == other(q, r).completed
    ensures Steps(step, k).completed == FileProcessor.Steps(other, k).completed
    decreases k
  {
    if k > 0 {
      StepsAgree(step, other, k - 1);
    }
  }

  /** Over futures for the same trials that all reply, this loop and the one in
      file_processor.py, which marks every future, complete the same trials. */
  lemma {:induction false} CollectedAgree(
    rowOf: (nat, String) -> LegacyRow, p: Progress, futures: seq<(nat, Outcome)>,
    handle: (nat, FileProcessor.Outcome) -> Option<FileProcessor.Row>, q: FileProcessor.Progress,
    others: seq<(nat, FileProcessor.Outcome)>, j: nat)
    requires j <= |futures| && j <= |others| && p.completed == q.completed
    requires forall t :: 0 <= t < j ==> futures[t].0 == others[t].0 && futures[t].1.Reply?
    ensures Collected(rowOf, p, futures, j).completed == FileProcessor.Collected(handle, q, others, j).completed
    decreases j
  {
    if j > 0 {
      CollectedAgree(rowOf, p, futures, handle, q, others, j - 1);
    }
  }

  /** A round in which every future replies completes the same trials as a round of
      file_processor.py with the same hundred trials and batches of fifteen. */
  lemma {:induction false} RoundAgrees(
    job: Job, rowOf: (nat, String) -> LegacyRow, p: Progress,
    other: FileProcessor.Job, handle: (nat, FileProcessor.Outcome) -> Option<FileProcessor.Row>,
    q: FileProcessor.Progress, round: nat)
    requires job.listed && AlwaysReplies(job) && p.completed == q.completed
    requires other.listed && other.total == Total && other.batchSize == BatchSize
    ensures Round(job, rowOf, p, round).completed == FileProcessor.Round(other, handle, q, round).completed
  {
    var current := Batch(p.completed);
    assert current == FileProcessor.Batch(other.total, q.completed, other.batchSize);
    FileProcessor.BatchIsLowest(Total, p.completed, BatchSize);
    SubmittedPairs(job, round, current, |current|);
    FileProcessor.SubmittedPairs(other, round, current, |current|);
    var futures := Submitted(job, round, current, |current|);
    var others := FileProcessor.Submitted(other, round, current, |current|);
    forall t | 0 <= t < |futures|
      ensures futures[t].0 == others[t].0 && futures[t].1.Reply?
    {
      assert futures[t] == (current[t], job.dispatch(round, current[t]));
      assert current[t] < Total;
    }
    CollectedAgree(rowOf, p, futures, handle, q, others, |futures|);
  }

  /** When every future replies, the loop ends exactly as the one in
      file_processor.py does: after `ceil(100 / 15)`, seven, rounds. */
  lemma {:induction false} AllRepliesFinish(job: Job, rowOf: (nat, String) -> LegacyRow)
    requires job.listed && AlwaysReplies(job)
    ensures forall k: nat :: Finished(Run(job, rowOf, k)) <==> k >= FileProcessor.CeilDiv(Total, BatchSize)
    ensures FileProcessor.CeilDiv(Total, BatchSize) == 7
  {
    var other := FileProcessor.Job(job.model, true, Total, BatchSize, Kept, map[], (r: nat, i: nat) => FileProcessor.NullReply);
    var handle := FileProcessor.RowsOf(other);
    forall p: Progress, q: FileProcessor.Progress, r: nat | p.completed == q.completed
      ensures RoundFn(job, rowOf)(p, r).completed == FileProcessor.RoundFn(other, handle)(q, r).completed
    {
      RoundAgrees(job, rowOf, p, other, handle, q, r);
    }
    FileProcessor.RoundsToFinish(other, handle);
    forall k: nat
      ensures Finished(Run(job, rowOf, k)) <==> k >= FileProcessor.CeilDiv(Total, BatchSize)
    {
      StepsAgree(RoundFn(job, rowOf), FileProcessor.RoundFn(other, handle), k);
      assert FileProcessor.Run(other, handle, k) == FileProcessor.Steps(FileProcessor.RoundFn(other, handle), k);
    }
  }

  /** A model in no provider list submits nothing, so nothing is ever completed and the
      loop never ends. */
  lemma {:induction false} UnlistedNeverEnds(job: Job, rowOf: (nat, String) -> LegacyRow, k: nat)
    requires !job.listed
    ensures Run(job, rowOf, k) == Progress({}, [])
    ensures !Finished(Run(job, rowOf, k))
    decreases k
  {
    if k > 0 {
      UnlistedNeverEnds(job, rowOf, k - 1);
      assert Submitted(job, k - 1, Batch({}), |Batch({})|) == [];
    }
  }

  /** A finished loop has completed every trial of `range(100)`. */
  lemma {:induction false} FinishedAll(p: Progress)
    requires forall x :: x in p.completed ==> x < Total
    requires Finished(p)
    ensures forall i: nat :: i < Total ==> i in p.completed
  {
    FileProcessor.BelowMembers(Total);
    FileProcessor.BelowSize(Total);
    forall i: nat | i < Total
      ensures i in p.completed
    {
      if i !in p.completed {
        assert p.completed <= FileProcessor.Below(Total) - {i};
        SubsetSize(p.completed, FileProcessor.Below(Total) - {i});
        assert false;
      }
    }
  }

  /** No pass of `step` before pass `r` finished the loop. */
  predicate UnfinishedBefore(step: (Progress, nat) -> Progress, r: nat)
    decreases r
  {
    r == 0 || (UnfinishedBefore(step, r - 1) && !Finished(Steps(step, r - 1)))
  }

  lemma {:induction false} UnfinishedBeforeAll(step: (Progress, nat) -> Progress, r: nat)
    requires UnfinishedBefore(step, r)
    ensures forall k :: 0 <= k < r ==> !Finished(Steps(step, k))
    decreases r
  {
    if r > 0 {
      UnfinishedBeforeAll(step, r - 1);
    }
  }

  // ---------------------------------------------------------------------------
  // the loops

  /** The loop that submits one future per trial of the round (main.py:197-204). Its
      text matches `FileProcessor.SubmitRound`, the same loop in file_processor.py, but it
      is kept apart because it is stated over this driver's own `Job` and `Outcome`. */
  method SubmitRound(job: Job, round: nat, current: seq<nat>) returns (futures: seq<(nat, Outcome)>)
    ensures futures == Submitted(job, round, current, |current|)
  {
    futures := [];
    var j := 0;
    while j < |current|
      invariant 0 <= j <= |current|
      invariant futures == Submitted(job, round, current, j)
    {
      if job.listed {
        futures := futures + [(current[j], job.dispatch(round, current[j]))];
      }
      j := j + 1;
    }
  }

  /** The row built from a reply: `parse_scores(scores)[:17]`, whose entries the
      enumerate loop then stores as `Q1`, `Q2`, ... */
  method MakeRow(model: String, iteration: nat, reply: String) returns (row: LegacyRow)
    ensures row == RowsOf(model)(iteration, reply)
  {
    var parsed := ParseScores(reply);
    var scoreList := parsed[..if |parsed| < Kept then |parsed| else Kept];
    var answers := Enumerated(scoreList);
    row := LegacyRow(model, iteration, answers);
  }

  /** The `for i, score in enumerate(score_list, start=1)` loop: the value stored under
      `Q(i + 1)` is the list's `i`-th entry, for every entry and no other key. */
  method Enumerated(scoreList: seq<String>) returns (answers: seq<String>)
    ensures |answers| == |scoreList|
    ensures forall i :: 0 <= i < |scoreList| ==> answers[i] == scoreList[i]
  {
    answers := [];
    var i := 0;
    while i < |scoreList|
      invariant 0 <= i <= |scoreList|
      invariant answers == scoreList[..i]
    {
      answers := answers + [scoreList[i]];
      i := i + 1;
    }
  }

  /** The loop over the futures of one round: a reply adds its row and completes its
      trial; None and an exception are passed over. */
  method CollectRound(job: Job, futures: seq<(nat, Outcome)>, completed0: set<nat>, results0: seq<LegacyRow>)
    returns (completed: set<nat>, results: seq<LegacyRow>)
    ensures Progress(completed, results) == Collected(RowsOf(job.model), Progress(completed0, results0), futures, |futures|)
  {
    completed, results := completed0, results0;
    var j := 0;
    while j < |futures|
      invariant 0 <= j <= |futures|
      invariant completed == Collected(RowsOf(job.model), Progress(completed0, results0), futures, j).completed
      invariant results == Collected(RowsOf(job.model), Progress(completed0, results0), futures, j).results
    {
      CollectedStep(RowsOf(job.model), Progress(completed0, results0), futures, j);
      completed, results := CollectOne(job, futures[j].0, futures[j].1, completed, results);
      j := j + 1;
    }
  }

  /** One pass of the `for iteration, future in futures` loop: a reply appends its row and
      marks the trial completed; None and an exception leave both alone. */
  method CollectOne(job: Job, iteration: nat, outcome: Outcome, completed0: set<nat>, results0: seq<LegacyRow>)
    returns (completed: set<nat>, results: seq<LegacyRow>)
    ensures outcome.Reply? ==> completed == completed0 + {iteration}
    ensures outcome.Reply? ==> results == results0 + [RowsOf(job.model)(iteration, outcome.text)]
    ensures !outcome.Reply? ==> completed == completed0 && results == results0
  {
    completed, results := completed0, results0;
    if outcome.Reply? {
      var row := MakeRow(job.model, iteration, outcome.text);
      results := results + [row];
      completed := completed + {iteration};
    }
  }

  function IterationKey(row: LegacyRow): int {
    row.iteration
  }

  /** What the loop has done once it stops after `rounds` rounds, because it finished or
      because the bound `maxRounds` was reached. */
  lemma {:induction false} LoopOutcome(job: Job, rounds: nat, maxRounds: nat)
    requires UnfinishedBefore(RoundFn(job, RowsOf(job.model)), rounds)
    requires Finished(Run(job, RowsOf(job.model), rounds)) || rounds == maxRounds
    ensures forall k :: 0 <= k < rounds ==> !Finished(Run(job, RowsOf(job.model), k))
    ensures Matches(Run(job, RowsOf(job.model), rounds), job.model)
    ensures forall x :: x in Run(job, RowsOf(job.model), rounds).completed ==> x < Total
    ensures Finished(Run(job, RowsOf(job.model), rounds)) ==>
      forall i: nat :: i < Total ==> i in Run(job, RowsOf(job.model), rounds).completed
    ensures (exists i: nat :: i < Total && NeverReplies(job, i)) ==> !Finished(Run(job, RowsOf(job.model), rounds))
    ensures !job.listed ==> Run(job, RowsOf(job.model), rounds).completed == {} && rounds == maxRounds
    ensures job.listed && AlwaysReplies(job) && maxRounds >= 7 ==> rounds == 7
  {
    var rowOf := RowsOf(job.model);
    UnfinishedBeforeAll(RoundFn(job, rowOf), rounds);
    RowsOfRowsFor(job.model);
    RunMatches(job, rowOf, rounds);
    RunMarks(job, rowOf, rounds, 0);
    if exists i: nat :: i < Total && NeverReplies(job, i) {
      var i: nat :| i < Total && NeverReplies(job, i);
      NeverEnds(job, rowOf, i, rounds);
    }
    if !job.listed {
      UnlistedNeverEnds(job, rowOf, rounds);
    }
    if job.listed && AlwaysReplies(job) && maxRounds >= 7 {
      AllRepliesFinish(job, rowOf);
      var seventh := Steps(RoundFn(job, rowOf), 7);
      assert Finished(Run(job, rowOf, 7));
      assert 7 < rounds ==> !Finished(seventh);
      assert rounds < 7 ==> !Finished(Run(job, rowOf, rounds));
    }
    if Finished(Run(job, rowOf, rounds)) {
      FinishedAll(Run(job, rowOf, rounds));
    }
  }

  /** One pass of the `while` body: pick the round's trials, submit them and collect
      their futures. */
  method PlayRound(job: Job, round: nat, completed0: set<nat>, results0: seq<LegacyRow>)
    returns (completed: set<nat>, results: seq<LegacyRow>)
    ensures Progress(completed, results) == RoundFn(job, RowsOf(job.model))(Progress(completed0, results0), round)
  {
    var current := Batch(completed0);
    var futures := SubmitRound(job, round, current);
    completed, results := CollectRound(job, futures, completed0, results0);
  }

  /** The `while` loop of `process_file`, run for at most `maxRounds` rounds: it stops at
      the first round after which all hundred trials are completed, or at the bound. */
  method RunRounds(job: Job, maxRounds: nat) returns (rounds: nat, completed: set<nat>, results: seq<LegacyRow>)
    ensures Progress(completed, results) == Run(job, RowsOf(job.model), rounds)
    ensures rounds <= maxRounds
    ensures UnfinishedBefore(RoundFn(job, RowsOf(job.model)), rounds)
    ensures Finished(Run(job, RowsOf(job.model), rounds)) || rounds == maxRounds
  {
    completed, results := {}, [];
    rounds := 0;
    while |completed| < Total && rounds < maxRounds
      invariant rounds <= maxRounds
      invariant Progress(completed, results) == Run(job, RowsOf(job.model), rounds)
      invariant UnfinishedBefore(RoundFn(job, RowsOf(job.model)), rounds)
      decreases maxRounds - rounds
    {
      completed, results := PlayRound(job, rounds, completed, results);
      rounds := rounds + 1;
    }
  }

  /** `process_file` of main.py. The loop need not end (a model in no provider list, or a
      trial whose future never replies), so it is run for at most `maxRounds` rounds; when
      it ends within them, the rows are sorted by trial and appended to `file`, and
      otherwise the file is left alone. */
  method ProcessFile(job: Job, file: CsvOutput.ResultFile, maxRounds: nat)
    returns (rounds: nat, completed: set<nat>, results: seq<LegacyRow>)
    requires file.Valid()
    modifies file
    ensures file.Valid()
    ensures Progress(completed, results) == Run(job, RowsOf(job.model), rounds)
    ensures rounds <= maxRounds
    ensures UnfinishedBefore(RoundFn(job, RowsOf(job.model)), rounds)
    ensures Finished(Run(job, RowsOf(job.model), rounds)) || rounds == maxRounds
    ensures Finished(Run(job, RowsOf(job.model), rounds)) ==>
      && file.present
      && file.records == CsvOutput.Appended(old(file.present), old(file.records), Header(), Records(Sorting.SortBy(results, IterationKey)))
    ensures !Finished(Run(job, RowsOf(job.model), rounds)) ==> file.present == old(file.present) && file.records == old(file.records)
  {
    rounds, completed, results := RunRounds(job, maxRounds);
    if |completed| >= Total {
      var sorted := Sorting.SortBy(results, IterationKey);
      file.Append(Header(), Records(sorted));
    }
  }
}
