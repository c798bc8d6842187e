/** `process_file` (file_processor.py): run one résumé file through one model
    `iterations_per_file` times, in rounds of at most `batch_size` trials, parse and
    validate each reply into a row, then append the rows to the file's results CSV in
    iteration order. The requests themselves, their threads and the clock are not
    modelled: what a submitted trial's future yields is an input, `dispatch`. */
module FileProcessor {
  import opened Wrappers
  import opened Text
  import opened Json
  import opened Config
  import ScoreParsing
  import ScoreValidation
  import ManipulationCheck
  import ThoughtProcess
  import Sorting
  import CsvOutput

  /** What `future.result()` gives for one trial: None, the reply text (with what
      `json.loads` makes of it, None when it raises), or an exception. */
  datatype Outcome = NullReply | Reply(text: String, decoded: Option<Json>) | Failed

  /** One result row: `Model`, `Iteration`, `Q1`..`QN`, `ManipulationCheck` and
      `ThoughtProcess`. */
  datatype Row = Row(
    model: String,
    iteration: nat,
    scores: seq<int>,
    manipulation: ManipulationCheck.Verdict,
    thought: String)

  /** The settings of one call: the model, whether it is in one of the three provider
      lists, `iterations_per_file`, `batch_size`, N and `QUESTION_RANGES`, and what the
      future of trial `i` submitted in round `k` yields, `dispatch(k, i)`. */
  datatype Job = Job(
    model: String,
    listed: bool,
    total: nat,
    batchSize: nat,
    n: nat,
    ranges: map<nat, Range>,
    dispatch: (nat, nat) -> Outcome)

  /** The two locals the loop updates: `completed_iterations` and `results`. */
  datatype Progress = Progress(completed: set<nat>, results: seq<Row>)

  // ---------------------------------------------------------------------------
  // choosing a round's trials

  /** `sorted(set(range(total)) - completed)`, from `i` on. */
  function MissingFrom(total: nat, completed: set<nat>, i: nat): seq<nat>
    requires i <= total
    decreases total - i
  {
    if i == total then []
    else (if i in completed then [] else [i]) + MissingFrom(total, completed, i + 1)
  }

  /** The missing trials from `i` on, each once, in ascending order. */
  lemma {:induction false} MissingFromSorted(total: nat, completed: set<nat>, i: nat)
    requires i <= total
    ensures forall a :: 0 <= a < |MissingFrom(total, completed, i)| ==>
      i <= MissingFrom(total, completed, i)[a] < total && MissingFrom(total, completed, i)[a] !in completed
    ensures forall a, b :: 0 <= a < b < |MissingFrom(total, completed, i)| ==>
      MissingFrom(total, completed, i)[a] < MissingFrom(total, completed, i)[b]
    ensures forall k :: i <= k < total && k !in completed ==> k in MissingFrom(total, completed, i)
    decreases total - i
  {
    if i < total {
      MissingFromSorted(total, completed, i + 1);
    }
  }

  function Missing(total: nat, completed: set<nat>): seq<nat> {
    MissingFrom(total, completed, 0)
  }

  /** `current_iterations`: the first `batch_size` of the missing trials. */
  function Batch(total: nat, completed: set<nat>, size: nat): (r: seq<nat>)
    ensures |r| <= size
    ensures forall a :: 0 <= a < |r| ==> r[a] < total && r[a] !in completed
  {
    var missing := Missing(total, completed);
    MissingFromSorted(total, completed, 0);
    missing[..Min(size, |missing|)]
  }

  /** A round takes `min(batch_size, |missing|)` missing trials, in ascending order, and
      no missing trial it leaves out is smaller than one it takes. */
  lemma {:induction false} BatchIsLowest(total: nat, completed: set<nat>, size: nat)
    ensures |Batch(total, completed, size)| == Min(size, |Missing(total, completed)|)
    ensures forall a :: 0 <= a < |Batch(total, completed, size)| ==>
      Batch(total, completed, size)[a] < total && Batch(total, completed, size)[a] !in completed
    ensures forall a, b :: 0 <= a < b < |Batch(total, completed, size)| ==>
      Batch(total, completed, size)[a] < Batch(total, completed, size)[b]
    ensures forall a, k: nat ::
      (0 <= a < |Batch(total, completed, size)| && k < total && k !in completed && k !in Batch(total, completed, size))
      ==> Batch(total, completed, size)[a] < k
  {
    var missing := Missing(total, completed);
    var batch := Batch(total, completed, size);
    MissingFromSorted(total, completed, 0);
    forall a, k: nat | 0 <= a < |batch| && k < total && k !in completed && k !in batch
      ensures batch[a] < k
    {
      assert k in missing;
      var q :| 0 <= q < |missing| && missing[q] == k;
      if q < |batch| {
        assert false;
      }
      assert batch[a] == missing[a];
    }
  }

  // ---------------------------------------------------------------------------
  // one trial

  function OneRow(r: Option<Row>): seq<Row> {
    if r.Some? then [r.value] else []
  }

  /** The row a trial contributes: one for a reply whose answers parse and validate, none
      for a null reply, an exception, or a ValueError (or the KeyError of a missing range)
      from parsing or validation. */
  function RowFor(job: Job, iteration: nat, outcome: Outcome): (r: Option<Row>)
    ensures r.Some? ==> outcome.Reply? && r.value.model == job.model && r.value.iteration == iteration
  {
    match outcome
    case Reply(text, decoded) =>
      (match ScoreParsing.ParsedScores(text, decoded, job.n)
       case Err(_) => None
       case Ok(list) =>
         match ScoreValidation.Validated(list, job.ranges, job.n)
         case Err(_) => None
         case Ok(scores) =>
           Some(Row(job.model, iteration, scores,
             ManipulationCheck.ManipulationVerdict(text, decoded), ThoughtProcess.Thought(text, decoded))))
    case _ => None
  }

  /** A trial yields a row exactly when its reply parsed and validated; the row carries
      the model, the trial and the validated answers in question order, N of them, each on
      the scale of its question, with the two auxiliary fields read from the same reply. */
  lemma {:induction false} RowForIff(job: Job, iteration: nat, outcome: Outcome)
    ensures RowFor(job, iteration, outcome).Some? <==>
      && outcome.Reply?
      && ScoreParsing.ParsedScores(outcome.text, outcome.decoded, job.n).Ok?
      && ScoreValidation.Validated(ScoreParsing.ParsedScores(outcome.text, outcome.decoded, job.n).value, job.ranges, job.n).Ok?
    ensures RowFor(job, iteration, outcome).Some? ==>
      && RowFor(job, iteration, outcome).value.model == job.model
      && RowFor(job, iteration, outcome).value.iteration == iteration
      && RowFor(job, iteration, outcome).value.scores == ScoreParsing.ParsedScores(outcome.text, outcome.decoded, job.n).value
      && |RowFor(job, iteration, outcome).value.scores| == job.n
      && (forall j :: 0 <= j < job.n ==> ScoreValidation.AnswerOk(RowFor(job, iteration, outcome).value.scores, job.ranges, j))
  {
    if outcome.Reply? && ScoreParsing.ParsedScores(outcome.text, outcome.decoded, job.n).Ok? {
      ScoreValidation.ValidatedOk(ScoreParsing.ParsedScores(outcome.text, outcome.decoded, job.n).value, job.ranges, job.n);
    }
  }

  /** The per-trial step of this call: `RowFor` with its model, N and ranges. The round
      and run functions below take the step as a parameter, so that what they say about
      which trials complete does not depend on how replies are parsed. */
  function RowsOf(job: Job): (nat, Outcome) -> Option<Row> {
    (i: nat, o: Outcome) => RowFor(job, i, o)
  }

  /** A per-trial step whose rows carry the trial they were made for. */
  ghost predicate KeepsTrial(handle: (nat, Outcome) -> Option<Row>) {
    forall i: nat, o: Outcome :: handle(i, o).Some? ==> handle(i, o).value.iteration == i
  }

  lemma {:induction false} RowsOfKeepsTrial(job: Job)
    ensures KeepsTrial(RowsOf(job))
  {
    forall i: nat, o: Outcome | RowsOf(job)(i, o).Some?
      ensures RowsOf(job)(i, o).value.iteration == i
    {
      RowForIff(job, i, o);
    }
  }

  // ---------------------------------------------------------------------------
  // one round

  /** The futures list after the first `j` trials of the round are submitted: one
      (trial, outcome) pair per trial when the model is in a provider list, none
      otherwise. */
  function Submitted(job: Job, round: nat, current: seq<nat>, j: nat): seq<(nat, Outcome)>
    requires j <= |current|
    decreases j
  {
    if j == 0 || !job.listed then []
    else Submitted(job, round, current, j - 1) + [(current[j - 1], job.dispatch(round, current[j - 1]))]
  }

  /** A listed model submits every trial of the round, in order, each with its future. */
  lemma {:induction false} SubmittedPairs(job: Job, round: nat, current: seq<nat>, j: nat)
    requires job.listed && j <= |current|
    ensures |Submitted(job, round, current, j)| == j
    ensures forall t :: 0 <= t < j ==> Submitted(job, round, current, j)[t] == (current[t], job.dispatch(round, current[t]))
    decreases j
  {
    if j > 0 {
      SubmittedPairs(job, round, current, j - 1);
    }
  }

  /** The state after the loop over the first `j` futures: each marks its trial completed,
      whatever it yields, and adds its row, if any. */
  function Collected(handle: (nat, Outcome) -> Option<Row>, p: Progress, futures: seq<(nat, Outcome)>, j: nat): (q: Progress)
    requires j <= |futures|
    ensures p.completed <= q.completed && p.results <= q.results
    decreases j
  {
    if j == 0 then p
    else
      var q := Collected(handle, p, futures, j - 1);
      Progress(q.completed + {futures[j - 1].0}, q.results + OneRow(handle(futures[j - 1].0, futures[j - 1].1)))
  }

  /** The loop over the futures, one future further. */
  lemma CollectedStep(handle: (nat, Outcome) -> Option<Row>, p: Progress, futures: seq<(nat, Outcome)>, j: nat)
    requires j < |futures|
    ensures var q := Collected(handle, p, futures, j);
      Collected(handle, p, futures, j + 1)
      == Progress(q.completed + {futures[j].0}, q.results + OneRow(handle(futures[j].0, futures[j].1)))
  {
  }

  /** One pass of the `while` body, the `round`-th (from 0). */
  function Round(job: Job, handle: (nat, Outcome) -> Option<Row>, p: Progress, round: nat): (q: Progress)
    ensures p.completed <= q.completed && p.results <= q.results
  {
    var current := Batch(job.total, p.completed, job.batchSize);
    var futures := Submitted(job, round, current, |current|);
    Collected(handle, p, futures, |futures|)
  }

  /** One pass of the `while` body as a value. */
  function RoundFn(job: Job, handle: (nat, Outcome) -> Option<Row>): (Progress, nat) -> Progress {
    (p: Progress, round: nat) => Round(job, handle, p, round)
  }

  /** The state after passes 0, 1, ..., `k - 1` of a loop body `step`, from nothing
      completed. */
  function Steps(step: (Progress, nat) -> Progress, k: nat): Progress
    decreases k
  {
    if k == 0 then Progress({}, []) else step(Steps(step, k - 1), k - 1)
  }

  /** A loop whose every pass takes `inv(r)` to `inv(r + 1)` reaches `inv(k)` after `k`
      passes. */
  lemma {:induction false} StepsFollow(step: (Progress, nat) -> Progress, inv: nat -> Progress, k: nat)
    requires inv(0) == Progress({}, [])
    requires forall r: nat :: step(inv(r), r) == inv(r + 1)
    ensures Steps(step, k) == inv(k)
    decreases k
  {
    if k > 0 {
      StepsFollow(step, inv, k - 1);
      assert step(inv(k - 1), k - 1) == inv(k);
    }
  }

  /** The state after `k` passes of the `while` body. */
  function Run(job: Job, handle: (nat, Outcome) -> Option<Row>, k: nat): Progress {
    Steps(RoundFn(job, handle), k)
  }

  /** A further pass of the `while` body keeps every completed trial and every row. */
  lemma RunGrows(job: Job, handle: (nat, Outcome) -> Option<Row>, k: nat)
    requires k > 0
    ensures Run(job, handle, k - 1).completed <= Run(job, handle, k).completed
    ensures Run(job, handle, k - 1).results <= Run(job, handle, k).results
  {
    var _ := Round(job, handle, Run(job, handle, k - 1), k - 1);
  }

  /** The `while` condition fails: `len(completed_iterations) >= iterations_per_file`. */
  predicate Finished(job: Job, p: Progress) {
    |p.completed| >= job.total
  }

  /** No round before round `r` finished the job. */
  predicate UnfinishedBefore(job: Job, handle: (nat, Outcome) -> Option<Row>, r: nat)
    decreases r
  {
    r == 0 || (UnfinishedBefore(job, handle, r - 1) && !Finished(job, Run(job, handle, r - 1)))
  }

  lemma {:induction false} UnfinishedBeforeAll(job: Job, handle: (nat, Outcome) -> Option<Row>, r: nat)
    requires UnfinishedBefore(job, handle, r)
    ensures forall k :: 0 <= k < r ==> !Finished(job, Run(job, handle, k))
    decreases r
  {
    if r > 0 {
      UnfinishedBeforeAll(job, handle, r - 1);
    }
  }


  // ---------------------------------------------------------------------------
  // the loops

  /** The loop that submits one future per trial of the round. */
  method SubmitRound(job: Job, round: nat, current: seq<nat>) returns (futures: seq<(nat, Outcome)>)
    ensures futures == Submitted(job, round, current, |current|)
  {
    futures := [];
    var j := 0;
    while j < |current|
      invariant 0 <= j <= |current|
      invariant futures == Submitted(job, round, current, j)
    {
      if job.listed {
        futures := futures + [(current[j], job.dispatch(round, current[j]))];
      }
      j := j + 1;
    }
  }

  /** The body of the `for iteration, future in futures` loop for one trial, which takes
      the futures in submission order: the row it appends, if any. */
  method HandleTrial(job: Job, iteration: nat, outcome: Outcome) returns (row: Option<Row>)
    ensures row == RowsOf(job)(iteration, outcome)
  {
    match outcome {
      case NullReply =>
        row := None;
      case Failed =>
        row := None;
      case Reply(text, decoded) =>
        var parsed := ScoreParsing.ParseScores(text, decoded, job.n);
        if parsed.Err? {
          return None;
        }
        var validated := ScoreValidation.ValidateScores(parsed.value, job.ranges, job.n);
        if validated.Err? {
          return None;
        }
        var manipulation := ManipulationCheck.ParseManipulationCheck(text, decoded);
        var thought := ThoughtProcess.ParseThoughtProcess(text, decoded);
        row := Some(Row(job.model, iteration, validated.value, manipulation, thought));
    }
  }

  /** The loop over the futures of one round: every trial is marked completed, whatever
      its future yields. */
  method CollectRound(job: Job, futures: seq<(nat, Outcome)>, completed0: set<nat>, results0: seq<Row>)
    returns (completed: set<nat>, results: seq<Row>)
    ensures Progress(completed, results) == Collected(RowsOf(job), Progress(completed0, results0), futures, |futures|)
  {
    completed, results := completed0, results0;
    var j := 0;
    while j < |futures|
      invariant 0 <= j <= |futures|
      invariant completed == Collected(RowsOf(job), Progress(completed0, results0), futures, j).completed
      invariant results == Collected(RowsOf(job), Progress(completed0, results0), futures, j).results
    {
      CollectedStep(RowsOf(job), Progress(completed0, results0), futures, j);
      completed, results := CollectOne(job, futures[j].0, futures[j].1, completed, results);
      j := j + 1;
    }
  }

  /** One pass of the `for iteration, future in futures` loop: the trial is marked
      completed, and its row, if it yields one, is appended. */
  method CollectOne(job: Job, iteration: nat, outcome: Outcome, completed0: set<nat>, results0: seq<Row>)
    returns (completed: set<nat>, results: seq<Row>)
    ensures completed == completed0 + {iteration}
    ensures results == results0 + OneRow(RowsOf(job)(iteration, outcome))
  {
    var row := HandleTrial(job, iteration, outcome);
    results := results0;
    if row.Some? {
      results := results + [row.value];
    }
    completed := completed0 + {iteration};
  }

  function IterationKey(row: Row): int {
    row.iteration
  }

  /** `process_file`. The loop need not end (a model in no provider list, or a batch size
      of 0), so it is run for at most `maxRounds` rounds; when it ends within them, the
      rows are sorted and appended to `file`, and otherwise the file is left alone. For a
      listed model and a batch size of at least 1 it ends after `ceil(total / batch_size)`
      rounds with every trial completed, and the rows are already in trial order. */
  method ProcessFile(job: Job, file: CsvOutput.ResultFile, maxRounds: nat)
    returns (rounds: nat, completed: set<nat>, results: seq<Row>)
    requires file.Valid()
    modifies file
    ensures file.Valid()
    ensures Progress(completed, results) == Run(job, RowsOf(job), rounds)
    ensures rounds <= maxRounds
    ensures forall k :: 0 <= k < rounds ==> !Finished(job, Run(job, RowsOf(job), k))
    ensures Finished(job, Run(job, RowsOf(job), rounds)) || rounds == maxRounds
    ensures Finished(job, Run(job, RowsOf(job), rounds)) ==>
      && file.present
      && file.records == CsvOutput.Appended(old(file.present), old(file.records), Header(job.n), Records(Sorting.SortBy(results, IterationKey), job.n))
    ensures !Finished(job, Run(job, RowsOf(job), rounds)) ==> file.present == old(file.present) && file.records == old(file.records)
    ensures job.listed && job.batchSize >= 1 && maxRounds >= CeilDiv(job.total, job.batchSize) ==>
      && rounds == CeilDiv(job.total, job.batchSize)
      && completed == Below(job.total)
      && Sorting.SortBy(results, IterationKey) == results
  {
    rounds, completed, results := RunRounds(job, maxRounds);
    UnfinishedBeforeAll(job, RowsOf(job), rounds);
    if job.listed && job.batchSize >= 1 && maxRounds >= CeilDiv(job.total, job.batchSize) {
      RoundsToFinish(job, RowsOf(job));
      WrittenRows(job);
    }
    if |completed| >= job.total {
      var sorted := Sorting.SortBy(results, IterationKey);
      file.Append(Header(job.n), Records(sorted, job.n));
    }
  }

  /** One pass of the `while` body: pick the round's trials, submit them and collect
      their futures. */
  method PlayRound(job: Job, round: nat, completed0: set<nat>, results0: seq<Row>)
    returns (completed: set<nat>, results: seq<Row>)
    ensures Progress(completed, results) == RoundFn(job, RowsOf(job))(Progress(completed0, results0), round)
  {
    var current := Batch(job.total, completed0, job.batchSize);
    var futures := SubmitRound(job, round, current);
    completed, results := CollectRound(job, futures, completed0, results0);
  }

  /** The `while` loop of `process_file`, run for at most `maxRounds` rounds: it stops at
      the first round after which every trial is completed, or at the bound. */
  method RunRounds(job: Job, maxRounds: nat) returns (rounds: nat, completed: set<nat>, results: seq<Row>)
    ensures Progress(completed, results) == Run(job, RowsOf(job), rounds)
    ensures rounds <= maxRounds
    ensures UnfinishedBefore(job, RowsOf(job), rounds)
    ensures Finished(job, Run(job, RowsOf(job), rounds)) || rounds == maxRounds
  {
    completed, results := {}, [];
    rounds := 0;
    while |completed| < job.total && rounds < maxRounds
      invariant rounds <= maxRounds
      invariant Progress(completed, results) == Run(job, RowsOf(job), rounds)
      invariant UnfinishedBefore(job, RowsOf(job), rounds)
      decreases maxRounds - rounds
    {
      completed, results := PlayRound(job, rounds, completed, results);
      rounds := rounds + 1;
    }
  }

  // ---------------------------------------------------------------------------
  // the CSV lines

  /** `['Q1', ..., 'QN']`. */
  function QNames(n: nat): seq<String> {
    seq(n, i requires 0 <= i < n => "Q" + NatToString(i + 1))
  }

  /** The `fieldnames`, which `writeheader` writes. */
  function Header(n: nat): CsvOutput.Record {
    ["Model", "Iteration"] + QNames(n) + ["ManipulationCheck", "ThoughtProcess"]
  }

  /** What `writerow` writes for a row: `str` of each value in field order, and the empty
      string for a question the row has no answer for. */
  function RowRecord(row: Row, n: nat): CsvOutput.Record {
    [row.model, IntToString(row.iteration)] + ScoreCells(row.scores, n)
    + [ManipulationCheck.VerdictText(row.manipulation), row.thought]
  }

  /** The cells under `Q1`..`QN`. */
  function ScoreCells(scores: seq<int>, n: nat): seq<String> {
    seq(n, i requires 0 <= i < n => if i < |scores| then IntToString(scores[i]) else "")
  }

  function Records(rows: seq<Row>, n: nat): seq<CsvOutput.Record> {
    seq(|rows|, i requires 0 <= i < |rows| => RowRecord(rows[i], n))
  }

  /** The numerals in the cells `i` to `hi - 1` of a line, None when one is not a
      numeral. */
  function ReadIntsFrom(cells: seq<String>, i: nat, hi: nat): Option<seq<int>>
    requires i <= hi <= |cells|
    decreases hi - i
  {
    if i == hi then Some([])
    else
      var x, rest := SignedNumeral(cells[i]), ReadIntsFrom(cells, i + 1, hi);
      if x.Some? && rest.Some? then Some([x.value] + rest.value) else None
  }

  function ReadVerdict(s: String): Option<ManipulationCheck.Verdict> {
    if s == "YES" then Some(ManipulationCheck.Yes)
    else if s == "NO" then Some(ManipulationCheck.No)
    else if s == "UNKNOWN" then Some(ManipulationCheck.Unknown)
    else None
  }

  /** Reading a line of the results file back into a row. */
  function ReadRow(rec: CsvOutput.Record, n: nat): Option<Row> {
    if |rec| != n + 4 then None
    else
      match (SignedNumeral(rec[1]), ReadIntsFrom(rec, 2, n + 2), ReadVerdict(rec[n + 2]))
      case (Some(it), Some(scores), Some(v)) =>
        if it >= 0 then Some(Row(rec[0], it, scores, v, rec[n + 3])) else None
      case _ => None
  }

  /** Cells that each hold a numeral read back as those numbers, in order. */
  lemma {:induction false} ReadConvertedInts(cells: seq<String>, i: nat, hi: nat, xs: seq<int>)
    requires i <= hi <= |cells| && |xs| == hi - i
    requires forall t :: i <= t < hi ==> SignedNumeral(cells[t]) == Some(xs[t - i])
    ensures ReadIntsFrom(cells, i, hi) == Some(xs)
    decreases hi - i
  {
    if i < hi {
      ReadConvertedInts(cells, i + 1, hi, xs[1..]);
      assert SignedNumeral(cells[i]) == Some(xs[0]);
      assert xs == [xs[0]] + xs[1..];
    }
  }

  lemma {:induction false} ReadVerdictText(v: ManipulationCheck.Verdict)
    ensures ReadVerdict(ManipulationCheck.VerdictText(v)) == Some(v)
  {
    match v
    case Yes =>
    case No =>
      assert ManipulationCheck.VerdictText(v) != "YES";
    case Unknown =>
      assert ManipulationCheck.VerdictText(v) != "YES";
      assert ManipulationCheck.VerdictText(v) != "NO";
  }

  /** A row with N answers survives being written as a line and read back. */
  lemma {:induction false} RecordRoundTrip(row: Row, n: nat)
    requires |row.scores| == n
    ensures ReadRow(RowRecord(row, n), n) == Some(row)
  {
    var rec := RowRecord(row, n);
    assert |rec| == n + 4;
    forall t | 2 <= t < n + 2
      ensures SignedNumeral(rec[t]) == Some(row.scores[t - 2])
    {
      assert rec[t] == IntToString(row.scores[t - 2]);
      IntToStringNumeral(row.scores[t - 2]);
    }
    ReadConvertedInts(rec, 2, n + 2, row.scores);
    assert rec[1] == IntToString(row.iteration);
    IntToStringNumeral(row.iteration);
    assert rec[n + 2] == ManipulationCheck.VerdictText(row.manipulation);
    ReadVerdictText(row.manipulation);
    assert rec[n + 3] == row.thought;
  }

  /** No row's line reads like the header: its second cell is a numeral, not `Iteration`. */
  lemma {:induction false} RecordIsNotHeader(row: Row, n: nat)
    ensures RowRecord(row, n) != Header(n)
  {
    assert RowRecord(row, n)[1] == NatToString(row.iteration);
    assert IsDigit(RowRecord(row, n)[1][0]);
    assert Header(n)[1] == "Iteration";
  }

  /** However many runs append to one results file, starting from a path that does not
      exist, the header is written once, on the first line. */
  lemma {:induction false} ResultsHeaderOnce(existed: bool, before: seq<CsvOutput.Record>, n: nat, rows: seq<Row>)
    requires existed ==> CsvOutput.HeaderOnce(before, Header(n))
    requires !existed ==> before == []
    ensures CsvOutput.HeaderOnce(CsvOutput.Appended(existed, before, Header(n), Records(rows, n)), Header(n))
  {
    forall i | 0 <= i < |rows|
      ensures Records(rows, n)[i] != Header(n)
    {
      RecordIsNotHeader(rows[i], n);
    }
    CsvOutput.HeaderWrittenOnce(existed, before, Header(n), Records(rows, n));
  }

  // ---------------------------------------------------------------------------
  // completion

  /** `set(range(m))`. */
  function Below(m: nat): set<nat>
    decreases m
  {
    if m == 0 then {} else Below(m - 1) + {m - 1}
  }

  lemma {:induction false} BelowMembers(m: nat)
    ensures forall i: nat :: i in Below(m) <==> i < m
    decreases m
  {
    if m > 0 {
      BelowMembers(m - 1);
    }
  }

  /** `len(set(range(m))) == m`. */
  lemma {:induction false} BelowSize(m: nat)
    ensures |Below(m)| == m
    decreases m
  {
    if m > 0 {
      BelowSize(m - 1);
      BelowMembers(m - 1);
    }
  }

  function Max(a: nat, b: nat): nat {
    if a < b then b else a
  }

  /** With the first `c` trials completed, the missing ones from `i` on are the trials
      from `max(i, c)` to `total`, in order. */
  lemma {:induction false} MissingAfterBelow(total: nat, c: nat, i: nat)
    requires c <= total && i <= total
    ensures |MissingFrom(total, Below(c), i)| == total - Max(i, c)
    ensures forall t :: 0 <= t < |MissingFrom(total, Below(c), i)| ==> MissingFrom(total, Below(c), i)[t] == Max(i, c) + t
    decreases total - i
  {
    if i < total {
      MissingAfterBelow(total, c, i + 1);
      BelowMembers(c);
      var rest := MissingFrom(total, Below(c), i + 1);
      if i < c {
        assert i in Below(c);
        assert MissingFrom(total, Below(c), i) == rest;
      } else {
        assert i !in Below(c);
        assert MissingFrom(total, Below(c), i) == [i] + rest;
      }
    }
  }

  /** With the first `c` trials completed, a round takes the next `batch_size` trials, or
      as many as are left. */
  lemma {:induction false} BatchAfterBelow(total: nat, c: nat, size: nat)
    requires c <= total
    ensures c + |Batch(total, Below(c), size)| == Min(c + size, total)
    ensures forall t :: 0 <= t < |Batch(total, Below(c), size)| ==> Batch(total, Below(c), size)[t] == c + t
  {
    MissingAfterBelow(total, c, 0);
  }

  /** The trials the first `k` rounds of a listed model complete: each round takes the
      next `batch_size` trials, up to `iterations_per_file`. */
  function Reach(job: Job, k: nat): (r: nat)
    ensures r <= job.total
    decreases k
  {
    if k == 0 then 0 else Min(Reach(job, k - 1) + job.batchSize, job.total)
  }

  /** The rows of trials `lo` to `hi - 1`, each answered by its future of round `round`,
      in trial order. */
  function TrialRows(job: Job, handle: (nat, Outcome) -> Option<Row>, round: nat, lo: nat, hi: nat): seq<Row>
    requires lo <= hi
    decreases hi - lo
  {
    if hi == lo then [] else TrialRows(job, handle, round, lo, hi - 1) + OneRow(handle(hi - 1, job.dispatch(round, hi - 1)))
  }

  /** The rows of the first `k` rounds of a listed model, round after round. */
  function BlockRows(job: Job, handle: (nat, Outcome) -> Option<Row>, k: nat): seq<Row>
    decreases k
  {
    if k == 0 then [] else BlockRows(job, handle, k - 1) + TrialRows(job, handle, k - 1, Reach(job, k - 1), Reach(job, k))
  }

  /** A round that starts with exactly the first `c` trials completed, and whose futures
      are those of trials `c`, `c + 1`, ..., completes them one at a time. */
  lemma {:induction false} CollectedBlock(
    job: Job, handle: (nat, Outcome) -> Option<Row>, round: nat, c: nat, rows: seq<Row>, futures: seq<(nat, Outcome)>, j: nat)
    requires j <= |futures|
    requires forall t :: 0 <= t < |futures| ==> futures[t] == (c + t, job.dispatch(round, c + t))
    ensures Collected(handle, Progress(Below(c), rows), futures, j)
      == Progress(Below(c + j), rows + TrialRows(job, handle, round, c, c + j))
    decreases j
  {
    if j > 0 {
      CollectedBlock(job, handle, round, c, rows, futures, j - 1);
      var last := OneRow(handle(c + j - 1, job.dispatch(round, c + j - 1)));
      assert futures[j - 1] == (c + j - 1, job.dispatch(round, c + j - 1));
      assert Below(c + j - 1) + {c + j - 1} == Below(c + j);
      assert (rows + TrialRows(job, handle, round, c, c + j - 1)) + last
        == rows + (TrialRows(job, handle, round, c, c + j - 1) + last);
    }
  }

  /** A round of a listed model that starts with exactly the first `c` trials completed
      completes the next `batch_size` of them, or as many as are left, adding their rows
      in trial order. */
  lemma {:induction false} RoundFromBelow(job: Job, handle: (nat, Outcome) -> Option<Row>, c: nat, rows: seq<Row>, round: nat)
    requires job.listed && c <= job.total
    ensures Round(job, handle, Progress(Below(c), rows), round)
      == Progress(Below(Min(c + job.batchSize, job.total)), rows + TrialRows(job, handle, round, c, Min(c + job.batchSize, job.total)))
  {
    var batch := Batch(job.total, Below(c), job.batchSize);
    BatchAfterBelow(job.total, c, job.batchSize);
    SubmittedPairs(job, round, batch, |batch|);
    var futures := Submitted(job, round, batch, |batch|);
    CollectedBlock(job, handle, round, c, rows, futures, |futures|);
  }

  /** For a listed model, `k` rounds complete exactly the first `Reach(k)` trials, and
      the results are the rows of those trials in trial order. */
  lemma {:induction false} RunBlocks(job: Job, handle: (nat, Outcome) -> Option<Row>, k: nat)
    requires job.listed
    ensures Run(job, handle, k) == Progress(Below(Reach(job, k)), BlockRows(job, handle, k))
  {
    var inv := (r: nat) => Progress(Below(Reach(job, r)), BlockRows(job, handle, r));
    forall r: nat
      ensures RoundFn(job, handle)(inv(r), r) == inv(r + 1)
    {
      RoundStep(job, handle, r);
    }
    StepsFollow(RoundFn(job, handle), inv, k);
  }

  /** Round `r` of a listed model takes the state after `r` rounds to the state after
      `r + 1`. */
  lemma {:induction false} RoundStep(job: Job, handle: (nat, Outcome) -> Option<Row>, r: nat)
    requires job.listed
    ensures Round(job, handle, Progress(Below(Reach(job, r)), BlockRows(job, handle, r)), r)
      == Progress(Below(Reach(job, r + 1)), BlockRows(job, handle, r + 1))
  {
    RoundFromBelow(job, handle, Reach(job, r), BlockRows(job, handle, r), r);
  }

  lemma {:induction false} MulNonNegative(d: nat, b: nat)
    ensures d * b >= 0
    decreases d
  {
    if d > 0 {
      MulNonNegative(d - 1, b);
      assert d * b == (d - 1) * b + b;
    }
  }

  lemma {:induction false} MulMonotone(x: int, y: int, b: nat)
    ensures x <= y ==> x * b <= y * b
  {
    if x <= y {
      MulNonNegative(y - x, b);
      assert y * b - x * b == (y - x) * b;
    }
  }

  /** `k` rounds reach `min(k * batch_size, iterations_per_file)`. */
  lemma {:induction false} ReachIsMin(job: Job, k: nat)
    ensures Reach(job, k) == if k * job.batchSize <= job.total then k * job.batchSize else job.total
    decreases k
  {
    if k > 0 {
      ReachIsMin(job, k - 1);
      assert k * job.batchSize == (k - 1) * job.batchSize + job.batchSize;
    }
  }

  /** `ceil(t / b)`. */
  function CeilDiv(t: nat, b: nat): nat
    requires b >= 1
  {
    (t + b - 1) / b
  }

  /** `k` rounds of `b` trials cover `t` trials exactly when `k >= ceil(t / b)`. */
  lemma {:induction false} CeilDivBound(t: nat, b: nat, k: nat)
    requires b >= 1
    ensures k * b >= t <==> k >= CeilDiv(t, b)
  {
    var a := t + b - 1;
    var q := a / b;
    var r := a % b;
    assert q * b + r == a && 0 <= r < b;
    MulMonotone(q, k, b);
    MulMonotone(k, q - 1, b);
    assert (q - 1) * b == q * b - b;
  }

  /** With at least one trial per round and a listed model, the loop ends after exactly
      `ceil(iterations_per_file / batch_size)` rounds. */
  lemma {:induction false} RoundsToFinish(job: Job, handle: (nat, Outcome) -> Option<Row>)
    requires job.listed && job.batchSize >= 1
    ensures forall k: nat :: Finished(job, Run(job, handle, k)) <==> k >= CeilDiv(job.total, job.batchSize)
  {
    forall k: nat
      ensures Finished(job, Run(job, handle, k)) <==> k >= CeilDiv(job.total, job.batchSize)
    {
      RunBlocks(job, handle, k);
      BelowSize(Reach(job, k));
      ReachIsMin(job, k);
      CeilDivBound(job.total, job.batchSize, k);
    }
  }

  /** A model in no provider list, or a batch size of 0, submits nothing: no round ever
      completes a trial or adds a row, so with any trial to run the loop never ends. */
  lemma {:induction false} NoProgressWithoutSubmissions(job: Job, handle: (nat, Outcome) -> Option<Row>, k: nat)
    requires !job.listed || job.batchSize == 0
    ensures Run(job, handle, k) == Progress({}, [])
    ensures job.total > 0 ==> !Finished(job, Run(job, handle, k))
    decreases k
  {
    if k > 0 {
      NoProgressWithoutSubmissions(job, handle, k - 1);
      assert |Batch(job.total, {}, job.batchSize)| == 0 || !job.listed;
    }
  }

  /** The rows of one round's trials `lo` to `hi - 1` are of increasing trials within
      the range. */
  lemma {:induction false} TrialRowsOrdered(job: Job, handle: (nat, Outcome) -> Option<Row>, round: nat, lo: nat, hi: nat)
    requires KeepsTrial(handle) && lo <= hi
    ensures forall x, y :: 0 <= x < y < |TrialRows(job, handle, round, lo, hi)| ==>
      TrialRows(job, handle, round, lo, hi)[x].iteration < TrialRows(job, handle, round, lo, hi)[y].iteration
    ensures forall x :: 0 <= x < |TrialRows(job, handle, round, lo, hi)| ==>
      lo <= TrialRows(job, handle, round, lo, hi)[x].iteration < hi
    decreases hi - lo
  {
    if lo < hi {
      TrialRowsOrdered(job, handle, round, lo, hi - 1);
      var last := handle(hi - 1, job.dispatch(round, hi - 1));
      assert last.Some? ==> last.value.iteration == hi - 1;
    }
  }

  /** Each row of one round's trials is the row its trial's reply yields. */
  lemma {:induction false} TrialRowsFrom(job: Job, handle: (nat, Outcome) -> Option<Row>, round: nat, lo: nat, hi: nat)
    requires KeepsTrial(handle) && lo <= hi
    ensures forall x :: 0 <= x < |TrialRows(job, handle, round, lo, hi)| ==>
      handle(TrialRows(job, handle, round, lo, hi)[x].iteration, job.dispatch(round, TrialRows(job, handle, round, lo, hi)[x].iteration))
      == Some(TrialRows(job, handle, round, lo, hi)[x])
    decreases hi - lo
  {
    if lo < hi {
      TrialRowsFrom(job, handle, round, lo, hi - 1);
      var last := handle(hi - 1, job.dispatch(round, hi - 1));
      assert last.Some? ==> last.value.iteration == hi - 1;
    }
  }

  /** Some row is of trial `i`. */
  predicate HasRow(rows: seq<Row>, i: nat) {
    exists x :: 0 <= x < |rows| && rows[x].iteration == i
  }

  /** Every trial of the round whose reply yields a row has one. */
  lemma {:induction false} TrialRowsComplete(job: Job, handle: (nat, Outcome) -> Option<Row>, round: nat, lo: nat, hi: nat)
    requires KeepsTrial(handle) && lo <= hi
    ensures forall i: nat :: lo <= i < hi && handle(i, job.dispatch(round, i)).Some? ==>
      HasRow(TrialRows(job, handle, round, lo, hi), i)
    decreases hi - lo
  {
    if lo < hi {
      TrialRowsComplete(job, handle, round, lo, hi - 1);
      var prev := TrialRows(job, handle, round, lo, hi - 1);
      var last := handle(hi - 1, job.dispatch(round, hi - 1));
      var rows := TrialRows(job, handle, round, lo, hi);
      assert rows == prev + OneRow(last);
      forall i: nat | lo <= i < hi && handle(i, job.dispatch(round, i)).Some?
        ensures HasRow(rows, i)
      {
        if i < hi - 1 {
          var x :| 0 <= x < |prev| && prev[x].iteration == i;
          assert rows[x] == prev[x];
        } else {
          assert last.value.iteration == i;
          assert rows[|prev|] == last.value;
        }
      }
    }
  }

  /** The rows of the first `k` rounds of a listed model are of increasing trials, all
      among the first `Reach(k)`. */
  lemma {:induction false} BlockRowsOrdered(job: Job, handle: (nat, Outcome) -> Option<Row>, k: nat)
    requires KeepsTrial(handle)
    ensures forall x, y :: 0 <= x < y < |BlockRows(job, handle, k)| ==>
      BlockRows(job, handle, k)[x].iteration < BlockRows(job, handle, k)[y].iteration
    ensures forall x :: 0 <= x < |BlockRows(job, handle, k)| ==> BlockRows(job, handle, k)[x].iteration < Reach(job, k)
    decreases k
  {
    if k > 0 {
      BlockRowsOrdered(job, handle, k - 1);
      var lo, hi := Reach(job, k - 1), Reach(job, k);
      TrialRowsOrdered(job, handle, k - 1, lo, hi);
      var prev := BlockRows(job, handle, k - 1);
      var block := TrialRows(job, handle, k - 1, lo, hi);
      var rows := BlockRows(job, handle, k);
      assert rows == prev + block;
      forall x, y | 0 <= x < y < |rows|
        ensures rows[x].iteration < rows[y].iteration
      {
        if y < |prev| {
          assert rows[x] == prev[x] && rows[y] == prev[y];
        } else if x < |prev| {
          assert rows[x] == prev[x] && rows[y] == block[y - |prev|];
        } else {
          assert rows[x] == block[x - |prev|] && rows[y] == block[y - |prev|];
        }
      }
      forall x | 0 <= x < |rows|
        ensures rows[x].iteration < hi
      {
        if x < |prev| {
          assert rows[x] == prev[x];
        } else {
          assert rows[x] == block[x - |prev|];
        }
      }
    }
  }

  /** The round, among the first `k`, that takes trial `i` of a listed model. */
  function RoundOf(job: Job, i: nat, k: nat): nat
    decreases k
  {
    if k == 0 then 0 else if Reach(job, k - 1) <= i then k - 1 else RoundOf(job, i, k - 1)
  }

  /** Each row of the first `k` rounds is the row its trial's reply yields in the round
      that took it. */
  lemma {:induction false} BlockRowsFrom(job: Job, handle: (nat, Outcome) -> Option<Row>, k: nat)
    requires KeepsTrial(handle)
    ensures forall x :: 0 <= x < |BlockRows(job, handle, k)| ==>
      var i := BlockRows(job, handle, k)[x].iteration;
      handle(i, job.dispatch(RoundOf(job, i, k), i)) == Some(BlockRows(job, handle, k)[x])
    decreases k
  {
    if k > 0 {
      BlockRowsFrom(job, handle, k - 1);
      BlockRowsOrdered(job, handle, k - 1);
      var lo, hi := Reach(job, k - 1), Reach(job, k);
      TrialRowsFrom(job, handle, k - 1, lo, hi);
      TrialRowsOrdered(job, handle, k - 1, lo, hi);
      var prev := BlockRows(job, handle, k - 1);
      var block := TrialRows(job, handle, k - 1, lo, hi);
      var rows := BlockRows(job, handle, k);
      assert rows == prev + block;
      forall x | 0 <= x < |rows|
        ensures handle(rows[x].iteration, job.dispatch(RoundOf(job, rows[x].iteration, k), rows[x].iteration)) == Some(rows[x])
      {
        if x < |prev| {
          assert rows[x] == prev[x];
          assert RoundOf(job, rows[x].iteration, k) == RoundOf(job, rows[x].iteration, k - 1);
        } else {
          assert rows[x] == block[x - |prev|];
          assert RoundOf(job, rows[x].iteration, k) == k - 1;
        }
      }
    }
  }

  /** Every trial among the first `Reach(k)` whose reply yields a row in the round that
      took it has a row among those of the first `k` rounds. */
  lemma {:induction false} BlockRowsComplete(job: Job, handle: (nat, Outcome) -> Option<Row>, k: nat)
    requires KeepsTrial(handle)
    ensures forall i: nat :: i < Reach(job, k) && handle(i, job.dispatch(RoundOf(job, i, k), i)).Some? ==>
      HasRow(BlockRows(job, handle, k), i)
    decreases k
  {
    if k > 0 {
      BlockRowsComplete(job, handle, k - 1);
      var lo, hi := Reach(job, k - 1), Reach(job, k);
      TrialRowsComplete(job, handle, k - 1, lo, hi);
      var prev := BlockRows(job, handle, k - 1);
      var block := TrialRows(job, handle, k - 1, lo, hi);
      var rows := BlockRows(job, handle, k);
      assert rows == prev + block;
      forall i: nat | i < hi && handle(i, job.dispatch(RoundOf(job, i, k), i)).Some?
        ensures HasRow(rows, i)
      {
        if i < lo {
          assert RoundOf(job, i, k) == RoundOf(job, i, k - 1);
          var x :| 0 <= x < |prev| && prev[x].iteration == i;
          assert rows[x] == prev[x];
        } else {
          assert RoundOf(job, i, k) == k - 1;
          var x :| 0 <= x < |block| && block[x].iteration == i;
          assert rows[|prev| + x] == block[x];
        }
      }
    }
  }

  /** Whatever the batch size and the model, every trial a run has completed is one of
      the `iterations_per_file` trials, and every row it holds is of a completed trial. */
  lemma {:induction false} CompletedWithinRange(job: Job, handle: (nat, Outcome) -> Option<Row>, k: nat)
    requires KeepsTrial(handle)
    ensures forall i :: i in Run(job, handle, k).completed ==> i < job.total
    ensures forall x :: 0 <= x < |Run(job, handle, k).results| ==>
      Run(job, handle, k).results[x].iteration in Run(job, handle, k).completed
  {
    if !job.listed {
      NoProgressWithoutSubmissions(job, handle, k);
    } else {
      RunBlocks(job, handle, k);
      BelowMembers(Reach(job, k));
      BlockRowsOrdered(job, handle, k);
    }
  }

  /** Every row a run holds has N answers, each on the scale of its question. */
  lemma {:induction false} ResultsValid(job: Job, k: nat)
    ensures forall x :: 0 <= x < |Run(job, RowsOf(job), k).results| ==>
      && |Run(job, RowsOf(job), k).results[x].scores| == job.n
      && forall j :: 0 <= j < job.n ==> ScoreValidation.AnswerOk(Run(job, RowsOf(job), k).results[x].scores, job.ranges, j)
  {
    var handle := RowsOf(job);
    if !job.listed {
      NoProgressWithoutSubmissions(job, handle, k);
    } else {
      RunBlocks(job, handle, k);
      RowsOfKeepsTrial(job);
      BlockRowsFrom(job, handle, k);
      var rows := BlockRows(job, handle, k);
      forall x | 0 <= x < |rows|
        ensures |rows[x].scores| == job.n
        ensures forall j :: 0 <= j < job.n ==> ScoreValidation.AnswerOk(rows[x].scores, job.ranges, j)
      {
        var i := rows[x].iteration;
        RowForIff(job, i, job.dispatch(RoundOf(job, i, k), i));
      }
    }
  }

  /** When the loop of a listed model with at least one trial per round ends, every
      trial is completed and sorting changes nothing: the rows are already in trial
      order. */
  lemma {:induction false} WrittenRows(job: Job)
    requires job.listed && job.batchSize >= 1
    ensures Run(job, RowsOf(job), CeilDiv(job.total, job.batchSize)).completed == Below(job.total)
    ensures Sorting.SortBy(Run(job, RowsOf(job), CeilDiv(job.total, job.batchSize)).results, IterationKey)
      == Run(job, RowsOf(job), CeilDiv(job.total, job.batchSize)).results
  {
    var k := CeilDiv(job.total, job.batchSize);
    RunBlocks(job, RowsOf(job), k);
    ReachIsMin(job, k);
    CeilDivBound(job.total, job.batchSize, k);
    RowsOfKeepsTrial(job);
    BlockRowsOrdered(job, RowsOf(job), k);
    var rows := BlockRows(job, RowsOf(job), k);
    assert Sorting.SortedBy(rows, IterationKey) by {
      forall x, y | 0 <= x < y < |rows|
        ensures IterationKey(rows[x]) <= IterationKey(rows[y])
      {
      }
    }
    Sorting.SortBySortedUnchanged(rows, IterationKey);
  }
}
