/**
 Two readers of a project's ledger: the cash-flow forecast
 (services/project_copilot_tools.py) and the accountant's export
 (services/invoice_tools.py). Amounts are exact decimals.
 */
module Ledger {
  import opened Money

  datatype Kind = Income | Expense

  datatype Status = Pending | Recorded | Paid | Cancelled

  datatype Entry = Entry(kind: Kind, amount: real, currency: string, status: Status)

  /** The sum of the entries of one kind, pending or not. */
  function Total(entries: seq<Entry>, kind: Kind, pending: bool): real {
    if entries == [] then 0.0
    else
      var e := entries[|entries|-1];
      Total(entries[..|entries|-1], kind, pending) + if e.kind == kind && e.status.Pending? == pending then e.amount else 0.0
  }

  // ----- the forecast -------------------------------------------------------------------

  datatype Forecast = Forecast(
    netFinalized: real,
    netWithPending: real,
    weeklyInflow: real,
    weeklyOutflow: real,
    runway: seq<real>,
    safetyTrigger: bool
  )

  /** The horizon in weeks: eight for zero, and always between four and twenty-four. */
  function Weeks(horizon: int): (w: int)
    ensures 4 <= w <= 24
  {
    var h := if horizon == 0 then 8 else horizon;
    if h > 24 then 24 else if h < 4 then 4 else h
  }

  function Threshold(given: real): real {
    if given == 0.0 then 5000.0 else given
  }

  function Weekly(pending: real, weeks: int): real
    requires weeks > 0
  {
    Round2(pending / weeks as real)
  }

  function Balance(net: real, weekly: real, w: int): real {
    net + w as real * weekly
  }

  method SumLedger(entries: seq<Entry>)
    returns (finalizedIncome: real, finalizedExpense: real, pendingIncome: real, pendingExpense: real)
    ensures finalizedIncome == Total(entries, Income, false) && finalizedExpense == Total(entries, Expense, false)
    ensures pendingIncome == Total(entries, Income, true) && pendingExpense == Total(entries, Expense, true)
  {
    finalizedIncome, finalizedExpense, pendingIncome, pendingExpense := 0.0, 0.0, 0.0, 0.0;
    for k := 0 to |entries|
      invariant finalizedIncome == Total(entries[..k], Income, false) && finalizedExpense == Total(entries[..k], Expense, false)
      invariant pendingIncome == Total(entries[..k], Income, true) && pendingExpense == Total(entries[..k], Expense, true)
    {
      var e := entries[k];
      assert entries[..k+1][..k] == entries[..k];
      var isPending := e.status == Pending;
      if e.kind == Income {
        if isPending {
          pendingIncome := pendingIncome + e.amount;
        } else {
          finalizedIncome := finalizedIncome + e.amount;
        }
      } else {
        if isPending {
          pendingExpense := pendingExpense + e.amount;
        } else {
          finalizedExpense := finalizedExpense + e.amount;
        }
      }
    }
    assert entries[..|entries|] == entries;
  }

  method GetCashFlowForecast(entries: seq<Entry>, horizon: int, safetyThreshold: real) returns (f: Forecast)
    ensures f.netFinalized == Total(entries, Income, false) - Total(entries, Expense, false)
    ensures f.netWithPending == f.netFinalized + Total(entries, Income, true) - Total(entries, Expense, true)
    ensures f.weeklyInflow == Weekly(Total(entries, Income, true), Weeks(horizon))
    ensures f.weeklyOutflow == Weekly(Total(entries, Expense, true), Weeks(horizon))
    ensures |f.runway| == Weeks(horizon)
    ensures forall w | 0 <= w < Weeks(horizon) :: f.runway[w] == Balance(f.netFinalized, f.weeklyInflow - f.weeklyOutflow, w + 1)
    ensures Abs(f.runway[Weeks(horizon)-1] - f.netWithPending) <= 0.01 * Weeks(horizon) as real
    ensures f.safetyTrigger <==> f.netWithPending < Threshold(safetyThreshold)
  {
    var weeks := Weeks(horizon);
    var finalizedIncome, finalizedExpense, pendingIncome, pendingExpense := SumLedger(entries);
    var net := finalizedIncome - finalizedExpense;
    var netWithPending := net + pendingIncome - pendingExpense;
    var inflow, outflow := Weekly(pendingIncome, weeks), Weekly(pendingExpense, weeks);
    var runway: seq<real> := [];
    var balance := net;
    for w := 1 to weeks + 1
      invariant |runway| == w - 1
      invariant balance == Balance(net, inflow - outflow, w - 1)
      invariant forall v | 0 <= v < w - 1 :: runway[v] == Balance(net, inflow - outflow, v + 1)
    {
      OneWeekMore(net, inflow - outflow, w);
      balance := balance + (inflow - outflow);
      runway := runway + [balance];
    }
    LastWeekIsNear(net, pendingIncome, pendingExpense, weeks);
    f := Forecast(net, netWithPending, inflow, outflow, runway, netWithPending < Threshold(safetyThreshold));
  }

  lemma OneWeekMore(net: real, weekly: real, w: int)
    ensures Balance(net, weekly, w) == Balance(net, weekly, w - 1) + weekly
  {
    var v := (w - 1) as real;
    assert w as real == v + 1.0;
    assert (v + 1.0) * weekly == v * weekly + weekly;
  }

  /** Spreading an amount over the weeks in cents loses half a cent a week at most. */
  lemma WeeklyIsNear(pending: real, weeks: int)
    requires weeks > 0
    ensures Abs(weeks as real * Weekly(pending, weeks) - pending) <= 0.005 * weeks as real
  {
    var n := weeks as real;
    Round2IsNear(pending / n);
    QuotientTimes(pending, n);
    ScaledDifference(Weekly(pending, weeks), pending / n, n, pending);
  }

  lemma ScaledDifference(a: real, b: real, n: real, x: real)
    requires n > 0.0 && Abs(a - b) <= 0.005 && b * n == x
    ensures Abs(n * a - x) <= 0.005 * n
  {
    ScaledAbove(a, b, n, x);
    ScaledBelow(a, b, n, x);
  }

  lemma ScaledAbove(a: real, b: real, n: real, x: real)
    requires n > 0.0 && a - b <= 0.005 && b * n == x
    ensures n * a - x <= 0.005 * n
  {
    MulMonotone(a - b, 0.005, n);
    assert (a - b) * n == a * n - b * n;
  }

  lemma ScaledBelow(a: real, b: real, n: real, x: real)
    requires n > 0.0 && b - a <= 0.005 && b * n == x
    ensures x - n * a <= 0.005 * n
  {
    MulMonotone(b - a, 0.005, n);
    assert (b - a) * n == b * n - a * n;
  }

  lemma LastWeekIsNear(net: real, pendingIncome: real, pendingExpense: real, weeks: int)
    requires weeks > 0
    ensures Abs(Balance(net, Weekly(pendingIncome, weeks) - Weekly(pendingExpense, weeks), weeks)
                - (net + pendingIncome - pendingExpense)) <= 0.01 * weeks as real
  {
    WeeklyIsNear(pendingIncome, weeks);
    WeeklyIsNear(pendingExpense, weeks);
    TimesDifference(weeks as real, Weekly(pendingIncome, weeks), Weekly(pendingExpense, weeks));
  }

  lemma TimesDifference(n: real, a: real, b: real)
    ensures n * (a - b) == n * a - n * b
  {
  }

  // ----- the export ---------------------------------------------------------------------

  datatype Bucket = Bucket(income: real, expense: real)

  type Buckets = map<string, Bucket>

  datatype Export = Export(income: real, expense: real, net: real, byCurrency: Buckets)

  function CurrencyOf(e: Entry): string {
    if e.currency == "" then "USD" else e.currency
  }

  /** The sum of the entries of one kind in one currency. */
  function InCurrency(entries: seq<Entry>, kind: Kind, currency: string): real {
    if entries == [] then 0.0
    else
      var e := entries[|entries|-1];
      InCurrency(entries[..|entries|-1], kind, currency) + if e.kind == kind && CurrencyOf(e) == currency then e.amount else 0.0
  }

  function OfKind(entries: seq<Entry>, kind: Kind): real {
    if entries == [] then 0.0
    else
      var e := entries[|entries|-1];
      OfKind(entries[..|entries|-1], kind) + if e.kind == kind then e.amount else 0.0
  }

  function Get(b: Buckets, currency: string): Bucket {
    if currency in b then b[currency] else Bucket(0.0, 0.0)
  }

  function Booked(b: Bucket, e: Entry): Bucket {
    if e.kind == Income then b.(income := b.income + e.amount) else b.(expense := b.expense + e.amount)
  }

  ghost function Net(b: Buckets): real {
    if b == map[] then 0.0
    else
      var c :| c in b;
      b[c].income - b[c].expense + Net(b - {c})
  }

  predicate Mentions(entries: seq<Entry>, currency: string) {
    exists k | 0 <= k < |entries| :: CurrencyOf(entries[k]) == currency
  }

  /** One bucket for each currency in use, with the sums of both kinds. */
  ghost predicate Books(b: Buckets, entries: seq<Entry>) {
    forall c ::
      && (c in b <==> Mentions(entries, c))
      && Get(b, c) == Bucket(InCurrency(entries, Income, c), InCurrency(entries, Expense, c))
  }

  lemma BooksGrow(b: Buckets, entries: seq<Entry>, e: Entry)
    requires Books(b, entries)
    ensures Books(b[CurrencyOf(e) := Booked(Get(b, CurrencyOf(e)), e)], entries + [e])
  {
    var more := entries + [e];
    assert more[..|entries|] == entries && more[|entries|] == e;
    var b' := b[CurrencyOf(e) := Booked(Get(b, CurrencyOf(e)), e)];
    forall c
      ensures c in b' <==> Mentions(more, c)
      ensures Get(b', c) == Bucket(InCurrency(more, Income, c), InCurrency(more, Expense, c))
    {
      MentionsGrow(entries, e, c);
      assert Get(b, c) == Bucket(InCurrency(entries, Income, c), InCurrency(entries, Expense, c));
    }
  }

  lemma MentionsGrow(entries: seq<Entry>, e: Entry, c: string)
    ensures Mentions(entries + [e], c) <==> Mentions(entries, c) || c == CurrencyOf(e)
  {
    var more := entries + [e];
    assert more[|entries|] == e;
    if Mentions(entries, c) {
      var k :| 0 <= k < |entries| && CurrencyOf(entries[k]) == c;
      assert CurrencyOf(more[k]) == c;
    }
  }

  method ExportLedgerToAccountant(entries: seq<Entry>) returns (x: Export)
    ensures x.income == OfKind(entries, Income) && x.expense == OfKind(entries, Expense) && x.net == x.income - x.expense
    ensures Books(x.byCurrency, entries)
    ensures Net(x.byCurrency) == x.net
  {
    var income, expense := 0.0, 0.0;
    var byCurrency: Buckets := map[];
    for k := 0 to |entries|
      invariant income == OfKind(entries[..k], Income) && expense == OfKind(entries[..k], Expense)
      invariant Books(byCurrency, entries[..k])
      invariant Net(byCurrency) == income - expense
    {
      var e := entries[k];
      assert entries[..k+1][..k] == entries[..k];
      assert entries[..k+1] == entries[..k] + [e];
      var cur := CurrencyOf(e);
      NetBooks(byCurrency, e);
      BooksGrow(byCurrency, entries[..k], e);
      byCurrency := byCurrency[cur := Booked(Get(byCurrency, cur), e)];
      if e.kind == Income {
        income := income + e.amount;
      } else {
        expense := expense + e.amount;
      }
    }
    assert entries[..|entries|] == entries;
    x := Export(income, expense, income - expense, byCurrency);
  }

  /** The net of all buckets can be taken in any order. */
  lemma {:induction false} NetWithout(b: Buckets, c: string)
    requires c in b
    ensures Net(b) == b[c].income - b[c].expense + Net(b - {c})
    decreases |b|
  {
    var d :| d in b && Net(b) == b[d].income - b[d].expense + Net(b - {d});
    if c != d {
      NetWithout(b - {d}, c);
      NetWithout(b - {c}, d);
      assert b - {d} - {c} == b - {c} - {d};
    }
  }

  lemma NetBooks(b: Buckets, e: Entry)
    ensures Net(b[CurrencyOf(e) := Booked(Get(b, CurrencyOf(e)), e)]) ==
              Net(b) + if e.kind == Income then e.amount else -e.amount
  {
    var c := CurrencyOf(e);
    var b' := b[c := Booked(Get(b, c), e)];
    NetWithout(b', c);
    assert b' - {c} == b - {c};
    if c in b {
      NetWithout(b, c);
    } else {
      assert b - {c} == b;
    }
  }

  // ----- the two agree -------------------------------------------------------------------

  lemma {:induction false} KindIsBoth(entries: seq<Entry>, kind: Kind)
    ensures OfKind(entries, kind) == Total(entries, kind, false) + Total(entries, kind, true)
  {
    if entries != [] {
      KindIsBoth(entries[..|entries|-1], kind);
    }
  }

  /** The forecast with everything pending and the export end on the same net, which is also the sum of the
      nets of all currencies. */
  method ForecastAndExport(entries: seq<Entry>, horizon: int, threshold: real) returns (f: Forecast, x: Export)
    ensures f.netWithPending == x.net == Net(x.byCurrency)
  {
    f := GetCashFlowForecast(entries, horizon, threshold);
    x := ExportLedgerToAccountant(entries);
    KindIsBoth(entries, Income);
    KindIsBoth(entries, Expense);
  }

  // ----- what counts where ----------------------------------------------------------------

  lemma {:induction false} TotalJoins(a: seq<Entry>, b: seq<Entry>, kind: Kind, pending: bool)
    ensures Total(a + b, kind, pending) == Total(a, kind, pending) + Total(b, kind, pending)
  {
    if b == [] {
      assert a + b == a;
    } else {
      TotalJoins(a, b[..|b|-1], kind, pending);
      assert (a + b)[..|a+b|-1] == a + b[..|b|-1];
    }
  }

  lemma TotalOne(e: Entry, kind: Kind, pending: bool)
    ensures Total([e], kind, pending) == if e.kind == kind && (e.status == Pending <==> pending) then e.amount else 0.0
  {
    assert [e][..0] == [];
  }

  /** An entry counts with the pending ones exactly as long as it is pending: whatever else becomes of it moves its
      amount to the final ones of its kind, and leaves the forecast with everything pending as it was. */
  lemma SettlingMovesAmount(entries: seq<Entry>, k: nat, status: Status)
    requires k < |entries| && entries[k].status == Pending && status != Pending
    ensures var e, settled := entries[k], entries[k := entries[k].(status := status)];
            && Total(settled, e.kind, true) == Total(entries, e.kind, true) - e.amount
            && Total(settled, e.kind, false) == Total(entries, e.kind, false) + e.amount
            && forall kind, p: bool | kind != e.kind :: Total(settled, kind, p) == Total(entries, kind, p)
  {
    var e := entries[k];
    var e' := e.(status := status);
    forall kind, p: bool
      ensures Total(entries[k := e'], kind, p) == Total(entries, kind, p) - Total([e], kind, p) + Total([e'], kind, p)
    {
      var head, tail := entries[..k], entries[k+1..];
      assert entries == head + [e] + tail && entries[k := e'] == head + [e'] + tail;
      TotalAround(head, e, tail, kind, p);
      TotalAround(head, e', tail, kind, p);
    }
    forall kind, p: bool
      ensures Total([e], kind, p) == (if kind == e.kind && p then e.amount else 0.0)
      ensures Total([e'], kind, p) == (if kind == e.kind && !p then e.amount else 0.0)
    {
      TotalOne(e, kind, p);
      TotalOne(e', kind, p);
    }
  }

  lemma TotalAround(head: seq<Entry>, e: Entry, tail: seq<Entry>, kind: Kind, pending: bool)
    ensures Total(head + [e] + tail, kind, pending) == Total(head, kind, pending) + Total([e], kind, pending) + Total(tail, kind, pending)
  {
    TotalJoins(head + [e], tail, kind, pending);
    TotalJoins(head, [e], kind, pending);
  }

  lemma {:induction false} NothingPending(entries: seq<Entry>, kind: Kind)
    requires forall k | 0 <= k < |entries| :: entries[k].status != Pending
    ensures Total(entries, kind, true) == 0.0 && Total(entries, kind, false) == OfKind(entries, kind)
  {
    if entries != [] {
      NothingPending(entries[..|entries|-1], kind);
    }
  }

  lemma {:induction false} InCurrencyJoins(a: seq<Entry>, b: seq<Entry>, kind: Kind, currency: string)
    ensures InCurrency(a + b, kind, currency) == InCurrency(a, kind, currency) + InCurrency(b, kind, currency)
  {
    if b == [] {
      assert a + b == a;
    } else {
      InCurrencyJoins(a, b[..|b|-1], kind, currency);
      assert (a + b)[..|a+b|-1] == a + b[..|b|-1];
    }
  }

  /** An entry is booked in its own currency, and in US dollars if it names none. */
  lemma InCurrencyOne(e: Entry, kind: Kind, currency: string)
    ensures InCurrency([e], kind, currency) ==
            if e.kind == kind && (e.currency == currency != "" || (e.currency == "" && currency == "USD")) then e.amount else 0.0
  {
    assert [e][..0] == [];
  }

  lemma HorizonReads(horizon: int, threshold: real)
    ensures Weeks(horizon) == if horizon == 0 then 8 else if horizon < 4 then 4 else if horizon <= 24 then horizon else 24
    ensures Threshold(threshold) == if threshold == 0.0 then 5000.0 else threshold
  {
  }
}
