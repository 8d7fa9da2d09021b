/** What it takes for any result to pass the reconciler, run or not: the checks written out. */
module ReconcilerMeaning {
  import opened Common
  import opened Domain
  import opened Reconciliation

  /** The detail that counts for a date: the last one recorded for it. */
  ghost predicate IsDetail(details: seq<DailyDetail>, date: int, d: DailyDetail) {
    exists k :: 0 <= k < |details| && details[k] == d && d.valuationDate == date
                && forall j :: k < j < |details| ==> details[j].valuationDate != date
  }

  /** The breakdown adds up, an asset has value exactly when it is held, the weights are fractions of a whole, and every
      rate is positive. */
  ghost predicate DetailAgrees(num: Decimals, s: Snapshot, d: DailyDetail, l: Ledger) {
    && SumItems(num, d.positionValues) == s.positionsValue
    && (forall id :: l.Quantity(id) == 0.0 <==> ItemOr(d.positionValues, id, 0.0) == 0.0)
    && (forall i :: 0 <= i < |d.targetWeights| ==> 0.0 <= d.targetWeights[i].1 <= 1.0)
    && (d.targetWeights != [] ==> SumItems(num, d.targetWeights) == 1.0)
    && (forall currency :: currency in d.fxRates ==> d.fxRates[currency] > 0.0)
  }

  /** A day agrees with the replayed ledger. */
  ghost predicate DayAgrees(num: Decimals, r: BacktestResult, s: Snapshot, l: Ledger) {
    && s.cashValue == l.cash && s.nav == num.add(s.positionsValue, s.cashValue)
    && forall d :: IsDetail(r.dailyDetail, s.valuationDate, d) ==> DetailAgrees(num, s, d, l)
  }

  /** The finals agree with the fully replayed ledger. */
  ghost predicate FinalsAgree(r: BacktestResult, l: Ledger) {
    l.cash == r.finalCash && forall id :: l.Quantity(id) == GetOr(r.finalPositions, id, 0.0)
  }

  ghost predicate Agrees(num: Decimals, r: BacktestResult) {
    && (forall i :: 0 <= i < |Snapshots(r)| ==> DayAgrees(num, r, Snapshots(r)[i], LedgerAfter(num, r, i + 1)))
    && FinalsAgree(r, LedgerAfter(num, r, |Snapshots(r)|))
  }

  lemma {:induction false} DetailIsFound(details: seq<DailyDetail>, date: int)
    ensures forall d :: IsDetail(details, date, d) <==> DetailFor(details, date) == Some(d)
  {
    if details != [] {
      var n := |details| - 1;
      DetailIsFound(details[..n], date);
      if details[n].valuationDate == date {
        assert IsDetail(details, date, details[n]);
      } else {
        forall d
          ensures IsDetail(details, date, d) <==> IsDetail(details[..n], date, d)
        {
          ShorterDetail(details, date, d);
        }
      }
    }
  }

  lemma ShorterDetail(details: seq<DailyDetail>, date: int, d: DailyDetail)
    requires details != [] && details[|details| - 1].valuationDate != date
    ensures IsDetail(details, date, d) <==> IsDetail(details[..|details| - 1], date, d)
  {
    var before := details[..|details| - 1];
    if IsDetail(details, date, d) {
      var k :| 0 <= k < |details| && details[k] == d && d.valuationDate == date
               && forall j :: k < j < |details| ==> details[j].valuationDate != date;
      assert before[k] == d;
    }
    if IsDetail(before, date, d) {
      var k :| 0 <= k < |before| && before[k] == d && d.valuationDate == date
               && forall j :: k < j < |before| ==> before[j].valuationDate != date;
      assert details[k] == d;
    }
  }

  lemma {:induction false} AbsentIsZero(d: Items<real>, id: AssetId)
    requires ItemOr(d, id, 0.0) != 0.0
    ensures HasKey(d, id)
  {
    if d[|d| - 1].0 == id {
      assert d[|d| - 1].0 == id;
    } else {
      AbsentIsZero(d[..|d| - 1], id);
      var i :| 0 <= i < |d| - 1 && d[..|d| - 1][i].0 == id;
      assert d[i].0 == id;
    }
  }

  /** No detail check reports anything exactly when the detail agrees. */
  lemma DetailExactly(num: Decimals, s: Snapshot, d: DailyDetail, l: Ledger)
    ensures (forall x :: !DetailIssue(num, s, d, l, x)) <==> DetailAgrees(num, s, d, l)
  {
    hide SumItems, ItemOr;
    var day := s.valuationDate;
    if DetailAgrees(num, s, d, l) {
      assert forall x :: !DetailIssue(num, s, d, l, x);
    } else if SumItems(num, d.positionValues) != s.positionsValue {
      var x := Discrepancy(day, Breakdown, s.positionsValue, SumItems(num, d.positionValues));
      assert DetailIssue(num, s, d, l, x);
    } else if exists id :: !(l.Quantity(id) == 0.0 <==> ItemOr(d.positionValues, id, 0.0) == 0.0) {
      var id :| !(l.Quantity(id) == 0.0 <==> ItemOr(d.positionValues, id, 0.0) == 0.0);
      if ItemOr(d.positionValues, id, 0.0) != 0.0 {
        AbsentIsZero(d.positionValues, id);
      }
      var x := Discrepancy(day, ZeroConsistency(id), l.Quantity(id), ItemOr(d.positionValues, id, 0.0));
      assert DetailIssue(num, s, d, l, x);
    } else if exists i :: 0 <= i < |d.targetWeights| && !(0.0 <= d.targetWeights[i].1 <= 1.0) {
      var i :| 0 <= i < |d.targetWeights| && !(0.0 <= d.targetWeights[i].1 <= 1.0);
      var x := Discrepancy(day, WeightBounds(d.targetWeights[i].0), 1.0, d.targetWeights[i].1);
      assert d.targetWeights[i] == (x.field.id, x.actual);
      assert DetailIssue(num, s, d, l, x);
    } else if d.targetWeights != [] && SumItems(num, d.targetWeights) != 1.0 {
      var x := Discrepancy(day, WeightSum, 1.0, SumItems(num, d.targetWeights));
      assert DetailIssue(num, s, d, l, x);
    } else {
      var c :| c in d.fxRates && d.fxRates[c] <= 0.0;
      var x := Discrepancy(day, FxPositivity(c), 0.0, d.fxRates[c]);
      assert DetailIssue(num, s, d, l, x);
    }
  }

  ghost predicate NoDayIssue(num: Decimals, s: Snapshot, d: Option<DailyDetail>, l: Ledger) {
    forall x :: !DayIssue(num, s, d, l, x)
  }

  lemma NoneOfDay(num: Decimals, s: Snapshot, d: Option<DailyDetail>, l: Ledger, x: Discrepancy)
    requires NoDayIssue(num, s, d, l)
    ensures !DayIssue(num, s, d, l, x)
  {
  }

  lemma NoneReported(num: Decimals, s: Snapshot, d: Option<DailyDetail>, l: Ledger)
    requires forall x :: !DayIssue(num, s, d, l, x)
    ensures NoDayIssue(num, s, d, l)
  {
    hide DayIssue;
  }

  lemma DayExactly(num: Decimals, r: BacktestResult, s: Snapshot, l: Ledger)
    ensures NoDayIssue(num, s, DetailFor(r.dailyDetail, s.valuationDate), l) <==> DayAgrees(num, r, s, l)
  {
    DetailIsFound(r.dailyDetail, s.valuationDate);
    hide DetailFor, IsDetail, DetailIssue, DetailAgrees;
    var found := DetailFor(r.dailyDetail, s.valuationDate);
    if found.Some? {
      DetailExactly(num, s, found.value, l);
      assert IsDetail(r.dailyDetail, s.valuationDate, found.value);
    }
    if NoDayIssue(num, s, found, l) {
      var cash := Discrepancy(s.valuationDate, CashValue, l.cash, s.cashValue);
      var nav := Discrepancy(s.valuationDate, NetAssetValue, num.add(s.positionsValue, s.cashValue), s.nav);
      NoneOfDay(num, s, found, l, cash);
      NoneOfDay(num, s, found, l, nav);
      if found.Some? {
        forall x
          ensures !DetailIssue(num, s, found.value, l, x)
        {
          NoneOfDay(num, s, found, l, x);
        }
      }
    }
    if DayAgrees(num, r, s, l) {
      forall x
        ensures !DayIssue(num, s, found, l, x)
      {
      }
    }
  }

  lemma FinalsExactly(r: BacktestResult, l: Ledger)
    ensures (forall x :: !FinalIssue(r, l, x)) <==> FinalsAgree(r, l)
  {
    if l.cash != r.finalCash {
      assert FinalIssue(r, l, Discrepancy(r.endDate, FinalCash, l.cash, r.finalCash));
    } else if exists id :: l.Quantity(id) != GetOr(r.finalPositions, id, 0.0) {
      var id :| l.Quantity(id) != GetOr(r.finalPositions, id, 0.0);
      assert FinalIssue(r, l, Discrepancy(r.endDate, FinalPosition(id), l.Quantity(id),
                                          GetOr(r.finalPositions, id, 0.0)));
    }
  }

  /** Main result: any result at all passes the reconciler if and only if on every day cash and NAV agree with the
      replay, the recorded detail adds up, holds what is held, has weights that are fractions of a whole and positive
      rates, and the final cash and positions are the replayed ones. */
  lemma PassesExactly(num: Decimals, r: BacktestResult)
    ensures (forall x :: !IsDiscrepancy(num, r, x)) <==> Agrees(num, r)
  {
    hide Snapshots, LedgerAfter, DayAgrees, FinalIssue, FinalsAgree, IssueOn;
    var snaps := Snapshots(r);
    FinalsExactly(r, LedgerAfter(num, r, |snaps|));
    forall i | 0 <= i < |snaps|
      ensures DayAgrees(num, r, snaps[i], LedgerAfter(num, r, i + 1)) <==> forall x :: !IssueOn(num, r, i, x)
    {
      DayOnExactly(num, r, i);
    }
    if Agrees(num, r) {
      forall x
        ensures !IsDiscrepancy(num, r, x)
      {
        forall i | 0 <= i < |snaps|
          ensures !IssueOn(num, r, i, x)
        {
          assert DayAgrees(num, r, snaps[i], LedgerAfter(num, r, i + 1));
        }
      }
    }
    if forall x :: !IsDiscrepancy(num, r, x) {
      forall x
        ensures !FinalIssue(r, LedgerAfter(num, r, |snaps|), x)
      {
        assert !IsDiscrepancy(num, r, x);
      }
      forall i | 0 <= i < |snaps|
        ensures DayAgrees(num, r, snaps[i], LedgerAfter(num, r, i + 1))
      {
        forall x
          ensures !IssueOn(num, r, i, x)
        {
          assert !IsDiscrepancy(num, r, x);
        }
      }
    }
  }

  lemma DayOnExactly(num: Decimals, r: BacktestResult, i: nat)
    requires i < |Snapshots(r)|
    ensures DayAgrees(num, r, Snapshots(r)[i], LedgerAfter(num, r, i + 1)) <==> forall x :: !IssueOn(num, r, i, x)
  {
    hide Snapshots, LedgerAfter, DayIssue, DayAgrees, DetailFor, NoDayIssue;
    var s, l := Snapshots(r)[i], LedgerAfter(num, r, i + 1);
    var d := DetailFor(r.dailyDetail, s.valuationDate);
    DayExactly(num, r, s, l);
    forall x
      ensures IssueOn(num, r, i, x) <==> DayIssue(num, s, d, l, x)
    {
    }
    if forall x :: !IssueOn(num, r, i, x) {
      forall x
        ensures !DayIssue(num, s, d, l, x)
      {
        assert !IssueOn(num, r, i, x);
      }
      NoneReported(num, s, d, l);
    }
    if DayAgrees(num, r, s, l) {
      forall x
        ensures !IssueOn(num, r, i, x)
      {
        NoneOfDay(num, s, d, l, x);
      }
    }
  }
}
