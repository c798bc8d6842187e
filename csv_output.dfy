/** The results file both drivers append to: `os.path.exists(csv_path)` decides whether
    `csv.DictWriter` writes the header line, then every row is appended. A line of the file
    is kept as its list of cell strings; CSV quoting and the bytes on disk are not
    modelled. */
module CsvOutput {
  import opened Text

  /** One line of the file: the cells `DictWriter` writes, in field order. */
  type Record = seq<String>

  /** What the file holds after one run appends `rows` to it, given whether it existed
      and what it held before. */
  function Appended(existed: bool, before: seq<Record>, header: Record, rows: seq<Record>): seq<Record> {
    before + (if existed then [] else [header]) + rows
  }

  /** The header sits on the first line and on no other. */
  predicate HeaderOnce(records: seq<Record>, header: Record) {
    && |records| >= 1 && records[0] == header
    && forall i :: 1 <= i < |records| ==> records[i] != header
  }

  /** The results file on disk. */
  class ResultFile {
    /** `os.path.exists(csv_path)`. */
    var present: bool
    /** The lines of the file, header included. */
    var records: seq<Record>

    /** A file that does not exist has no lines. */
    ghost predicate Valid()
      reads this
    {
      !present ==> records == []
    }

    /** The path before any run has written to it. */
    constructor ()
      ensures Valid() && !present && records == []
    {
      present := false;
      records := [];
    }

    /** `open(csv_path, 'a')`, the header when the file did not exist, then one
        `writerow` per row. */
    method Append(header: Record, rows: seq<Record>)
      requires Valid()
      modifies this
      ensures Valid() && present
      ensures records == Appended(old(present), old(records), header, rows)
    {
      var existed := present;
      present := true;
      if !existed {
        records := records + [header];
      }
      var i := 0;
      while i < |rows|
        invariant 0 <= i <= |rows| && present
        invariant records == old(records) + (if existed then [] else [header]) + rows[..i]
      {
        records := records + [rows[i]];
        i := i + 1;
      }
      assert rows[..|rows|] == rows;
    }
  }

  /** Appending never rewrites what the file held: the old lines are a prefix of the new
      ones, and the rows follow the old lines (and the header, for a new file) in order. */
  lemma {:induction false} AppendKeepsContent(existed: bool, before: seq<Record>, header: Record, rows: seq<Record>)
    ensures |Appended(existed, before, header, rows)| == |before| + (if existed then 0 else 1) + |rows|
    ensures Appended(existed, before, header, rows)[..|before|] == before
    ensures forall i :: 0 <= i < |rows| ==>
      Appended(existed, before, header, rows)[|before| + (if existed then 0 else 1) + i] == rows[i]
    ensures !existed ==> Appended(existed, before, header, rows)[|before|] == header
  {
    var after := Appended(existed, before, header, rows);
    var o := if existed then 0 else 1;
    assert after == before + ((if existed then [] else [header]) + rows);
    forall i | 0 <= i < |rows|
      ensures after[|before| + o + i] == rows[i]
    {
      assert after[|before|..][o + i] == ((if existed then [] else [header]) + rows)[o + i];
    }
  }

  /** Starting from a path that does not exist, any number of runs leave exactly one
      header, on the first line, provided no row reads like the header. */
  lemma {:induction false} HeaderWrittenOnce(existed: bool, before: seq<Record>, header: Record, rows: seq<Record>)
    requires existed ==> HeaderOnce(before, header)
    requires !existed ==> before == []
    requires forall i :: 0 <= i < |rows| ==> rows[i] != header
    ensures HeaderOnce(Appended(existed, before, header, rows), header)
  {
    var after := Appended(existed, before, header, rows);
    AppendKeepsContent(existed, before, header, rows);
    if existed {
      forall i | 1 <= i < |after|
        ensures after[i] != header
      {
        if i < |before| {
          assert after[i] == after[..|before|][i];
        } else {
          assert after[i] == rows[i - |before|];
        }
      }
    } else {
      forall i | 1 <= i < |after|
        ensures after[i] != header
      {
        assert after[i] == rows[i - 1];
      }
    }
  }
}
