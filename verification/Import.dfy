/** The inventory import: which rows are valid, what is reported of the others, and the adjustments
    that the valid ones stand for. */
module Import {
  import opened Wrappers
  import opened Inventory
  import opened Saga

  const MAX_IMPORT_ROWS := 1000

  /** A row as it comes in: an absent SKU is empty, a quantity that is not a number is None, and so
      is a kind that is none of the three. */
  datatype Row = Row(sku: Sku, qty: Option<real>, kind: Option<Kind>, reason: Option<string>)

  datatype Problem = SkuMissing | QtyInvalid | KindInvalid | TransactionFailed

  datatype ImportError = ImportError(row: nat, problems: seq<Problem>)

  datatype ImportReply = Report(total: nat, imported: nat, errors: seq<ImportError>) | TooMany

  function Problems(row: Row): (r: seq<Problem>)
    ensures r == [] ==> row.sku != "" && row.kind.Some? && row.qty.Some? && row.qty.value >= 1.0
  {
    (if row.sku == "" then [SkuMissing] else [])
    + (if row.qty.None? || row.qty.value < 1.0
          || row.qty.value.Floor as real != row.qty.value then [QtyInvalid] else [])
    + (if row.kind.None? then [KindInvalid] else [])
  }

  predicate IsWhole(x: real, n: int) {
    x == n as real
  }

  /** Each problem is reported exactly for its own cause, and at most once: a quantity is valid when it is
      a whole number from one up. */
  lemma {:induction false} ProblemsExactly(row: Row)
    ensures SkuMissing in Problems(row) <==> row.sku == ""
    ensures KindInvalid in Problems(row) <==> row.kind.None?
    ensures QtyInvalid !in Problems(row) <==> row.qty.Some? && exists n: int :: n >= 1 && IsWhole(row.qty.value, n)
    ensures TransactionFailed !in Problems(row)
    ensures forall i, j :: 0 <= i < j < |Problems(row)| ==> Problems(row)[i] != Problems(row)[j]
  {
    if row.qty.Some? {
      var whole := row.qty.value.Floor;
      if row.qty.value >= 1.0 && whole as real == row.qty.value {
        assert IsWhole(row.qty.value, whole);
      }
    }
  }

  function Quantity(row: Row): nat
    requires Problems(row) == []
  {
    row.qty.value.Floor
  }

  function Reason(row: Row): string {
    if row.reason.Some? then row.reason.value else "bulk import"
  }

  function ValidRows(rows: seq<Row>): (r: seq<Row>)
    ensures forall k :: 0 <= k < |r| ==> Problems(r[k]) == []
  {
    if rows == [] then []
    else
      var last := rows[|rows| - 1];
      ValidRows(rows[..|rows| - 1]) + if Problems(last) == [] then [last] else []
  }

  function RowErrors(rows: seq<Row>): seq<ImportError> {
    if rows == [] then []
    else
      var last := rows[|rows| - 1];
      RowErrors(rows[..|rows| - 1]) + if Problems(last) == [] then [] else [ImportError(|rows|, Problems(last))]
  }

  /** What one would call `createAdjustment` with for a row. */
  function AsCall(tenant: Tenant, row: Row): (a: Action)
    requires Problems(row) == []
    ensures IsCall(a)
  {
    AdjustStock(tenant, "", row.sku, row.kind.value, Quantity(row), Reason(row))
  }

  /** A valid row stands for an adjustment without a key, by its whole quantity; a missing reason reads
      "bulk import". */
  lemma {:induction false} CallOfRow(tenant: Tenant, row: Row, n: nat)
    requires Problems(row) == [] && IsWhole(row.qty.value, n)
    ensures var reason := if row.reason == None then "bulk import" else row.reason.value;
            AsCall(tenant, row) == AdjustStock(tenant, "", row.sku, row.kind.value, n, reason)
  {
  }

  /** The adjustments one would make row by row. */
  function Adjusting(tenant: Tenant, rows: seq<Row>): (r: seq<Action>)
    requires forall k :: 0 <= k < |rows| ==> Problems(rows[k]) == []
    ensures |r| == |rows| && forall k :: 0 <= k < |r| ==> r[k] == AsCall(tenant, rows[k])
  {
    seq(|rows|, k requires 0 <= k < |rows| && Problems(rows[k]) == [] => AsCall(tenant, rows[k]))
  }

  /** Made in turn, the k-th adjustment is not refused. */
  predicate Accepted(s: State, calls: seq<Action>, k: nat)
    requires k < |calls|
  {
    IsCall(calls[k]) && !Call(Exec(s, calls[..k]), calls[k]).reply.Rejected?
  }

  predicate AllAccepted(s: State, calls: seq<Action>) {
    forall k :: 0 <= k < |calls| ==> Accepted(s, calls, k)
  }

  function AdjustRow(stock: Stock, tenant: Tenant, row: Row): Adjusted
    requires Problems(row) == []
  {
    Adjust(stock, tenant, row.sku, row.kind.value, Quantity(row), Reason(row), "")
  }

  /** A call for a row is one adjustment of stock and log. */
  lemma {:induction false} RowEffect(s: State, tenant: Tenant, row: Row)
    requires Problems(row) == []
    ensures var r := AdjustRow(s.stock, tenant, row);
            && Step(s, AsCall(tenant, row)) == (if r.Done? then s.(stock := r.stock, log := s.log + [r.entry]) else s)
            && (Call(s, AsCall(tenant, row)).reply.Rejected? <==> r.Refused?)
  {
  }

  /** One row applied. */
  predicate Applies(tenant: Tenant, row: Row, s: State, t: State)
    requires Problems(row) == []
  {
    var r := AdjustRow(s.stock, tenant, row);
    r.Done? && t == s.(stock := r.stock, log := s.log + [r.entry])
  }

  predicate AppliesAt(tenant: Tenant, rows: seq<Row>, states: seq<State>, k: nat)
    requires k < |rows| && k + 1 < |states|
  {
    Problems(rows[k]) == [] && Applies(tenant, rows[k], states[k], states[k + 1])
  }

  /** The states a transaction goes through, one row after the other. */
  predicate Trace(tenant: Tenant, rows: seq<Row>, states: seq<State>) {
    && 0 < |states| <= |rows| + 1
    && (forall k :: 0 <= k < |rows| ==> Problems(rows[k]) == [])
    && (forall k :: 0 <= k < |states| - 1 ==> AppliesAt(tenant, rows, states, k))
  }

  lemma {:induction false} AppliesStill(tenant: Tenant, rows: seq<Row>, states: seq<State>, next: State, k: nat)
    requires k < |rows| && k + 1 < |states| && AppliesAt(tenant, rows, states, k)
    ensures AppliesAt(tenant, rows, states + [next], k)
  {
    assert (states + [next])[k] == states[k] && (states + [next])[k + 1] == states[k + 1];
  }

  lemma {:induction false} AppliesLast(tenant: Tenant, rows: seq<Row>, states: seq<State>, next: State)
    requires 0 < |states| <= |rows| && Problems(rows[|states| - 1]) == []
    requires Applies(tenant, rows[|states| - 1], states[|states| - 1], next)
    ensures AppliesAt(tenant, rows, states + [next], |states| - 1)
  {
    assert (states + [next])[|states| - 1] == states[|states| - 1] && (states + [next])[|states|] == next;
  }

  lemma {:induction false} TraceGrows(tenant: Tenant, rows: seq<Row>, states: seq<State>, next: State)
    requires Trace(tenant, rows, states) && |states| <= |rows|
    requires Applies(tenant, rows[|states| - 1], states[|states| - 1], next)
    ensures Trace(tenant, rows, states + [next])
  {
    forall k | 0 <= k < |states|
      ensures AppliesAt(tenant, rows, states + [next], k)
    {
      if k < |states| - 1 {
        AppliesStill(tenant, rows, states, next, k);
      } else {
        AppliesLast(tenant, rows, states, next);
      }
    }
  }

  lemma {:induction false} ExecNext(s: State, calls: seq<Action>, k: nat, t: State)
    requires k < |calls| && Exec(s, calls[..k]) == t
    ensures Exec(s, calls[..k + 1]) == Step(t, calls[k])
  {
    assert calls[..k + 1][..k] == calls[..k];
  }

  lemma {:induction false} TraceStep(tenant: Tenant, rows: seq<Row>, states: seq<State>, k: nat)
    requires Trace(tenant, rows, states) && k + 1 < |states|
    ensures Step(states[k], Adjusting(tenant, rows)[k]) == states[k + 1]
    ensures !Call(states[k], Adjusting(tenant, rows)[k]).reply.Rejected?
  {
    assert AppliesAt(tenant, rows, states, k);
    RowEffect(states[k], tenant, rows[k]);
  }

  lemma {:induction false} TraceRuns(tenant: Tenant, rows: seq<Row>, states: seq<State>, n: nat)
    requires Trace(tenant, rows, states) && n < |states|
    ensures Exec(states[0], Adjusting(tenant, rows)[..n]) == states[n]
    decreases n
  {
    if n > 0 {
      TraceRuns(tenant, rows, states, n - 1);
      TraceStep(tenant, rows, states, n - 1);
      ExecNext(states[0], Adjusting(tenant, rows), n - 1, states[n - 1]);
    }
  }

  /** A transaction that got through every row did what the calls in turn do. */
  lemma {:induction false} TraceSucceeds(tenant: Tenant, rows: seq<Row>, states: seq<State>)
    requires Trace(tenant, rows, states) && |states| == |rows| + 1
    ensures AllAccepted(states[0], Adjusting(tenant, rows))
    ensures Exec(states[0], Adjusting(tenant, rows)) == states[|rows|]
  {
    var calls := Adjusting(tenant, rows);
    forall k | 0 <= k < |calls|
      ensures Accepted(states[0], calls, k)
    {
      TraceRuns(tenant, rows, states, k);
      TraceStep(tenant, rows, states, k);
    }
    assert calls[..|calls|] == calls;
    TraceRuns(tenant, rows, states, |rows|);
  }

  /** A transaction that stopped at a refused row: the calls in turn are refused there too. */
  lemma {:induction false} TraceFails(tenant: Tenant, rows: seq<Row>, states: seq<State>)
    requires Trace(tenant, rows, states) && |states| <= |rows|
    requires AdjustRow(states[|states| - 1].stock, tenant, rows[|states| - 1]).Refused?
    ensures !AllAccepted(states[0], Adjusting(tenant, rows))
  {
    var k, calls := |states| - 1, Adjusting(tenant, rows);
    TraceRuns(tenant, rows, states, k);
    assert k < |calls| && calls[k] == AsCall(tenant, rows[k]);
    RefusedRow(states[0], calls, k, states[k], tenant, rows[k]);
  }

  lemma {:induction false} RefusedRow(s: State, calls: seq<Action>, k: nat, t: State, tenant: Tenant, row: Row)
    requires k < |calls| && Exec(s, calls[..k]) == t && Problems(row) == [] && calls[k] == AsCall(tenant, row)
    requires AdjustRow(t.stock, tenant, row).Refused?
    ensures !AllAccepted(s, calls)
  {
    RowEffect(t, tenant, row);
    assert !Accepted(s, calls, k);
  }

  /** Every row is either imported or reported. */
  lemma {:induction false} RowsAreCounted(rows: seq<Row>)
    ensures |ValidRows(rows)| + |RowErrors(rows)| == |rows|
    decreases |rows|
  {
    if rows != [] {
      RowsAreCounted(rows[..|rows| - 1]);
    }
  }

  /** The report names exactly the invalid rows, by their number in the input, with what is wrong. */
  lemma {:induction false} ReportIsExact(rows: seq<Row>, e: ImportError)
    ensures e in RowErrors(rows) <==>
              1 <= e.row <= |rows| && Problems(rows[e.row - 1]) != [] && e.problems == Problems(rows[e.row - 1])
    decreases |rows|
  {
    if rows != [] {
      ReportIsExact(rows[..|rows| - 1], e);
    }
  }

  /** It names them in the order of the input. */
  lemma {:induction false} ReportInOrder(rows: seq<Row>)
    ensures forall i, j :: 0 <= i < j < |RowErrors(rows)| ==> RowErrors(rows)[i].row < RowErrors(rows)[j].row
    decreases |rows|
  {
    if rows != [] {
      var init := rows[..|rows| - 1];
      ReportInOrder(init);
      forall i | 0 <= i < |RowErrors(init)|
        ensures RowErrors(init)[i].row < |rows|
      {
        ReportIsExact(init, RowErrors(init)[i]);
      }
    }
  }

  /** `at` lists, in increasing order, the positions of all rows without a problem. */
  ghost predicate AllValid(rows: seq<Row>, at: seq<nat>) {
    && (forall i, j :: 0 <= i < j < |at| ==> at[i] < at[j])
    && (forall i: nat :: i in at <==> i < |rows| && Problems(rows[i]) == [])
  }

  ghost predicate RowsAt(rows: seq<Row>, at: seq<nat>, r: seq<Row>) {
    |r| == |at| && forall k :: 0 <= k < |at| ==> at[k] < |rows| && r[k] == rows[at[k]]
  }

  lemma {:induction false} AllValidSnoc(rows: seq<Row>, last: Row, at: seq<nat>)
    requires AllValid(rows, at)
    ensures AllValid(rows + [last], if Problems(last) == [] then at + [|rows|] else at)
  {
    var more, all := rows + [last], if Problems(last) == [] then at + [|rows|] else at;
    forall i: nat
      ensures i in all <==> i < |more| && Problems(more[i]) == []
    {
      assert i in all <==> i in at || (Problems(last) == [] && i == |rows|);
      assert i < |rows| ==> more[i] == rows[i];
    }
    forall i, j | 0 <= i < j < |all|
      ensures all[i] < all[j]
    {
      assert i < |at| && all[i] == at[i] && at[i] in at;
    }
  }

  lemma {:induction false} RowsAtSnoc(rows: seq<Row>, last: Row, at: seq<nat>, r: seq<Row>)
    requires RowsAt(rows, at, r)
    ensures RowsAt(rows + [last], at, r) && RowsAt(rows + [last], at + [|rows|], r + [last])
  {
  }

  lemma {:induction false} ValidRowsSnoc(rows: seq<Row>, last: Row)
    ensures ValidRows(rows + [last]) == if Problems(last) == [] then ValidRows(rows) + [last] else ValidRows(rows)
  {
    assert (rows + [last])[..|rows|] == rows;
  }

  /** The rows imported are all rows without a problem, each once for every time it occurs, in their order. */
  lemma {:induction false} ValidRowsAreAll(rows: seq<Row>) returns (at: seq<nat>)
    ensures AllValid(rows, at) && RowsAt(rows, at, ValidRows(rows))
    decreases |rows|
  {
    if rows == [] {
      at := [];
    } else {
      var init, last := rows[..|rows| - 1], rows[|rows| - 1];
      var before := ValidRowsAreAll(init);
      assert rows == init + [last];
      AllValidSnoc(init, last, before);
      RowsAtSnoc(init, last, before, ValidRows(init));
      ValidRowsSnoc(init, last);
      at := if Problems(last) == [] then before + [|init|] else before;
    }
  }
}
