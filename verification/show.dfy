/**
 * `show_1d_table`: every stored benchmark that carries both the row key and
 * the metric key becomes one table row; the others are counted as misses,
 * and a summary line reports the misses when there are any. Loading the
 * benchmarks and printing are left to the caller: the loaded benchmark data
 * comes in as a parameter and the table and summary text come back out.
 */
module Show {
  import opened Wrappers
  import Strings
  import opened Values

  /** The data of one stored benchmark, by key. */
  type Data = map<string, Value>

  datatype Justify = Left | Right

  /** A table cell: its text, its alignment and whether it is bold. */
  datatype Cell = Cell(text: string, justify: Justify, bold: bool)

  /** A benchmark is shown exactly when it has a value under both keys. */
  predicate Matches(data: Data, row: string, metric: string)
  {
    row in data && metric in data
  }

  /** The row of a matching benchmark: the row value left-aligned, the metric right-aligned. */
  function RowCells(data: Data, row: string, metric: string, fmt: Formatters): seq<Cell>
    requires Matches(data, row, metric)
  {
    [Cell(Display(data[row], fmt), Left, false), Cell(Display(data[metric], fmt), Right, false)]
  }

  /** The rows of a list of benchmarks, one per matching benchmark, in order. */
  function Rows(bs: seq<Data>, row: string, metric: string, fmt: Formatters): seq<seq<Cell>>
  {
    if bs == [] then []
    else
      var rest := Rows(bs[..|bs| - 1], row, metric, fmt);
      var last := bs[|bs| - 1];
      if Matches(last, row, metric) then rest + [RowCells(last, row, metric, fmt)] else rest
  }

  /** How many benchmarks lack the row key or the metric key. */
  function Misses(bs: seq<Data>, row: string, metric: string): nat
  {
    if bs == [] then 0
    else
      var rest := Misses(bs[..|bs| - 1], row, metric);
      if Matches(bs[|bs| - 1], row, metric) then rest else rest + 1
  }

  /** The positions of the matching benchmarks, in increasing order. */
  function MatchIndices(bs: seq<Data>, row: string, metric: string): (idx: seq<nat>)
    ensures forall j :: 0 <= j < |idx| ==> idx[j] < |bs| && Matches(bs[idx[j]], row, metric)
    ensures forall j, k :: 0 <= j < k < |idx| ==> idx[j] < idx[k]
    ensures forall i :: 0 <= i < |bs| && Matches(bs[i], row, metric) ==> i in idx
  {
    if bs == [] then []
    else
      var rest := MatchIndices(bs[..|bs| - 1], row, metric);
      if Matches(bs[|bs| - 1], row, metric) then rest + [|bs| - 1] else rest
  }

  /**
   * The table holds exactly the rows of the matching benchmarks, in the
   * order of the benchmarks: its j-th row is built from the j-th match.
   */
  lemma {:induction false} RowsFollowMatches(bs: seq<Data>, row: string, metric: string, fmt: Formatters)
    ensures |Rows(bs, row, metric, fmt)| == |MatchIndices(bs, row, metric)|
    ensures forall j :: 0 <= j < |Rows(bs, row, metric, fmt)| ==>
              var i := MatchIndices(bs, row, metric)[j];
              i < |bs| && Matches(bs[i], row, metric) && Rows(bs, row, metric, fmt)[j] == RowCells(bs[i], row, metric, fmt)
  {
    if bs != [] {
      var init := bs[..|bs| - 1];
      RowsFollowMatches(init, row, metric, fmt);
      assert forall i :: 0 <= i < |init| ==> init[i] == bs[i];
    }
  }

  /** Every benchmark is either a row or a miss. */
  lemma {:induction false} RowsPlusMisses(bs: seq<Data>, row: string, metric: string, fmt: Formatters)
    ensures |Rows(bs, row, metric, fmt)| + Misses(bs, row, metric) == |bs|
  {
    if bs != [] {
      RowsPlusMisses(bs[..|bs| - 1], row, metric, fmt);
    }
  }

  /** The fixed text around the count in the summary line. */
  function MessageHead(row: string, metric: string): string
  {
    "\"" + row + "\" together with \"" + metric + "\" was "
  }

  const MESSAGE_TAIL: string := "x not present in your benchmarks"

  /**
   * The line printed after the table when some benchmarks were not shown:
   * both keys quoted, then the number of misses in decimal, which reads back
   * as that number.
   */
  function NotPresentMessage(row: string, metric: string, misses: nat): (msg: string)
    ensures var head := MessageHead(row, metric);
            && |msg| > |head| + |MESSAGE_TAIL|
            && msg[..|head|] == head
            && msg[|msg| - |MESSAGE_TAIL|..] == MESSAGE_TAIL
            && Strings.AllDigits(msg[|head|..|msg| - |MESSAGE_TAIL|])
            && Strings.ParseNat(msg[|head|..|msg| - |MESSAGE_TAIL|]) == misses
  {
    var head := MessageHead(row, metric);
    var count := Strings.NatToString(misses);
    var msg := head + count + MESSAGE_TAIL;
    assert msg[|head|..|msg| - |MESSAGE_TAIL|] == count;
    assert msg[..|head|] == head;
    assert msg[|msg| - |MESSAGE_TAIL|..] == MESSAGE_TAIL;
    Strings.ParseNatToString(misses);
    msg
  }

  /**
   * `show_1d_table` over already loaded benchmarks: the bold title cells,
   * the rows, the miss counter and the optional summary line.
   */
  method Show1dTable(benchmarks: seq<Data>, row: string, metric: string, fmt: Formatters)
    returns (title: seq<Cell>, table: seq<seq<Cell>>, emptyMatches: nat, summary: Option<string>)
    ensures title == [Cell(row, Left, true), Cell(metric, Left, true)]
    ensures table == Rows(benchmarks, row, metric, fmt)
    ensures emptyMatches == Misses(benchmarks, row, metric)
    ensures |table| + emptyMatches == |benchmarks|
    ensures summary.Some? <==> emptyMatches > 0
    ensures summary.Some? ==> summary.value == NotPresentMessage(row, metric, emptyMatches)
  {
    table := [];
    emptyMatches := 0;
    var i := 0;
    while i < |benchmarks|
      invariant i <= |benchmarks|
      invariant table == Rows(benchmarks[..i], row, metric, fmt)
      invariant emptyMatches == Misses(benchmarks[..i], row, metric)
    {
      var benchmark := benchmarks[i];
      assert benchmarks[..i + 1][..i] == benchmarks[..i];
      if row in benchmark && metric in benchmark {
        var rowValue := Display(benchmark[row], fmt);
        var metricValue := Display(benchmark[metric], fmt);
        table := table + [[Cell(rowValue, Left, false), Cell(metricValue, Right, false)]];
      } else {
        emptyMatches := emptyMatches + 1;
      }
      i := i + 1;
    }
    assert benchmarks[..i] == benchmarks;
    RowsPlusMisses(benchmarks, row, metric, fmt);
    title := [Cell(row, Left, true), Cell(metric, Left, true)];
    if emptyMatches > 0 {
      summary := Some(NotPresentMessage(row, metric, emptyMatches));
    } else {
      summary := None;
    }
  }
}
