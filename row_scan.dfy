/**
 * The row-scan loops of the learning storage's listings. The query's result rows are
 * given as a sequence; what differs between the loops is what gets appended per row.
 */
module RowScan {

  /**
   * A Go variable whose address is taken: `rows.Scan(&v.A, &v.B, ...)` overwrites its
   * fields in place, and `&v` is an address that other slots may share.
   */
  class Cell<T> {
    var value: T

    constructor (v: T)
      ensures value == v
    {
      value := v;
    }
  }

  /** What a caller reads through the shared entries: the last row, once per row. */
  function LastRepeated<T>(rows: seq<T>): (r: seq<T>)
    ensures |r| == |rows|
    ensures forall i :: 0 <= i < |r| ==> r[i] == rows[|rows| - 1]
  {
    seq(|rows|, i requires 0 <= i < |rows| => rows[|rows| - 1])
  }

  /** As soon as two rows differ, the shared entries do not list the rows that were read. */
  lemma SharedScanLosesRows<T>(rows: seq<T>, i: nat, j: nat)
    requires i < |rows| && j < |rows| && rows[i] != rows[j]
    ensures LastRepeated(rows) != rows
  {
    var last := rows[|rows| - 1];
    if rows[i] != last {
      assert LastRepeated(rows)[i] != rows[i];
    } else {
      assert LastRepeated(rows)[j] != rows[j];
    }
  }

  /**
   * The loop of `GetLearningTopics` and `GetCompletedTopics`: every row is scanned into
   * the same `request` variable and `&request` is appended. All entries are one object,
   * so after the loop each of them shows the last row.
   */
  method ScanShared<T>(rows: seq<T>, request: Cell<T>) returns (out: seq<Cell<T>>)
    modifies request
    ensures |out| == |rows|
    ensures forall i :: 0 <= i < |out| ==> out[i] == request
    ensures forall i :: 0 <= i < |out| ==> out[i].value == LastRepeated(rows)[i]
    ensures rows == [] ==> request.value == old(request.value)
  {
    out := [];
    for i := 0 to |rows|
      invariant |out| == i
      invariant forall j :: 0 <= j < i ==> out[j] == request
      invariant i > 0 ==> request.value == rows[i - 1]
      invariant forall j :: 0 <= j < i ==> out[j].value == rows[i - 1]
      invariant i == 0 ==> request.value == old(request.value)
    {
      request.value := rows[i];
      out := out + [request];
    }
  }

  /**
   * The loop of `GetQuiz`: a new variable is declared for every row, so each entry is
   * its own record and the result lists the rows in the order they were read.
   */
  method ScanFresh<T>(rows: seq<T>) returns (out: seq<T>)
    ensures |out| == |rows|
    ensures forall i :: 0 <= i < |rows| ==> out[i] == rows[i]
  {
    out := [];
    for i := 0 to |rows|
      invariant |out| == i
      invariant forall j :: 0 <= j < i ==> out[j] == rows[j]
    {
      var record := rows[i];
      out := out + [record];
    }
  }
}
