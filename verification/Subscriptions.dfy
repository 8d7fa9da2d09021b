/** Collection subscriptions follow portfolio membership (backend/adapters/market_data/subscriptions.py).

    The service's rows are a sequence and a row's id is its position: rows are never deleted, so a
    position names the same row for good. Reconciling is a list of separate calls, any of which can
    fail before or after the service has applied it. */
module Subscriptions {
  import opened Common

  datatype InstrumentRef = InstrumentRef(provider: string, instrumentCode: string, interval: string)

  datatype Row = Row(ref: InstrumentRef, enabled: bool)

  datatype Call = Create(ref: InstrumentRef) | SetEnabled(id: nat, enabled: bool)

  /** What becomes of a call: acknowledged; lost before it was applied; applied, but the caller never knew. */
  datatype Fate = Acknowledged | Lost | Unacknowledged

  /** The service keeps one row per identity. */
  predicate DistinctRefs(rows: seq<Row>) {
    forall i, j :: 0 <= i < j < |rows| ==> rows[i].ref != rows[j].ref
  }

  /** The service's reaction to a call. */
  function Apply(rows: seq<Row>, call: Call): seq<Row> {
    match call
    case Create(ref) => rows + [Row(ref, true)]
    case SetEnabled(id, enabled) => if id < |rows| then rows[id := rows[id].(enabled := enabled)] else rows
  }

  function ApplyAll(rows: seq<Row>, calls: seq<Call>): seq<Row> {
    if calls == [] then rows else Apply(ApplyAll(rows, calls[..|calls| - 1]), calls[|calls| - 1])
  }

  // ----- The calls of one run -----

  /** `current_by_identity`: the row of an identity, the last one if there were several. */
  function RowOf(rows: seq<Row>, ref: InstrumentRef): Option<nat> {
    if rows == [] then None
    else if rows[|rows| - 1].ref == ref then Some(|rows| - 1)
    else RowOf(rows[..|rows| - 1], ref)
  }

  datatype Status = Absent | Off | On

  function StatusOf(rows: seq<Row>, ref: InstrumentRef): Status {
    match RowOf(rows, ref)
    case None => Absent
    case Some(id) => if id < |rows| && rows[id].enabled then On else Off
  }

  lemma {:induction false} RowOfFinds(rows: seq<Row>, ref: InstrumentRef)
    ensures RowOf(rows, ref).None? ==> forall i :: 0 <= i < |rows| ==> rows[i].ref != ref
    ensures RowOf(rows, ref).Some? ==> RowOf(rows, ref).value < |rows| && rows[RowOf(rows, ref).value].ref == ref
  {
    if rows != [] {
      RowOfFinds(rows[..|rows| - 1], ref);
    }
  }

  function CallsFor(rows: seq<Row>, ref: InstrumentRef): seq<Call> {
    match RowOf(rows, ref)
    case None => [Create(ref)]
    case Some(id) => if id < |rows| && !rows[id].enabled then [SetEnabled(id, true)] else []
  }

  /** Calls for the desired identities, in the order they are looked at. */
  function WantCalls(rows: seq<Row>, desired: seq<InstrumentRef>): seq<Call> {
    if desired == [] then [] else WantCalls(rows, desired[..|desired| - 1]) + CallsFor(rows, desired[|desired| - 1])
  }

  /** Calls for the first n rows: disable what is enabled and no longer desired. */
  function DropCalls(rows: seq<Row>, desired: seq<InstrumentRef>, n: nat): seq<Call>
    requires n <= |rows|
  {
    if n == 0 then []
    else DropCalls(rows, desired, n - 1)
         + if rows[n - 1].enabled && rows[n - 1].ref !in desired then [SetEnabled(n - 1, false)] else []
  }

  function Plan(rows: seq<Row>, desired: seq<InstrumentRef>): seq<Call> {
    WantCalls(rows, desired) + DropCalls(rows, desired, |rows|)
  }

  datatype SyncResult = SyncResult(created: seq<InstrumentRef>, enabled: seq<InstrumentRef>,
                                   disabled: seq<InstrumentRef>, unchangedCount: nat)

  class Service {
    var rows: seq<Row>
    var sent: nat
    const fate: nat -> Fate

    constructor (rows: seq<Row>, fate: nat -> Fate)
      ensures this.rows == rows && sent == 0 && this.fate == fate
    {
      this.rows := rows;
      this.fate := fate;
      sent := 0;
    }

    /** One request; an unsuccessful one may still have been applied. */
    method Send(call: Call) returns (ok: bool)
      modifies this
      ensures sent == old(sent) + 1 && (ok <==> fate(old(sent)).Acknowledged?)
      ensures rows == if fate(old(sent)).Lost? then old(rows) else Apply(old(rows), call)
    {
      var f := fate(sent);
      sent := sent + 1;
      if !f.Lost? {
        match call
        case Create(ref) => rows := rows + [Row(ref, true)];
        case SetEnabled(id, enabled) =>
          if id < |rows| {
            rows := rows[id := rows[id].(enabled := enabled)];
          }
      }
      return f.Acknowledged?;
    }
  }

  lemma {:induction false} ApplyAppend(rows: seq<Row>, calls: seq<Call>, call: Call)
    ensures ApplyAll(rows, calls + [call]) == Apply(ApplyAll(rows, calls), call)
  {
    assert (calls + [call])[..|calls|] == calls;
  }

  /** Some prefix of the plan has been applied, and nothing else. */
  ghost predicate Reached(before: seq<Row>, rows: seq<Row>, plan: seq<Call>) {
    exists k :: 0 <= k <= |plan| && rows == ApplyAll(before, plan[..k])
  }

  /** Sending the call of one step of the plan, if it has one. */
  method SendStep(service: Service, ghost before: seq<Row>, ghost done: seq<Call>, calls: seq<Call>) returns (ok: bool)
    requires service.rows == ApplyAll(before, done) && |calls| <= 1
    modifies service
    ensures ok ==> service.rows == ApplyAll(before, done + calls) && service.sent == old(service.sent) + |calls|
    ensures !ok ==> Reached(before, service.rows, done + calls)
  {
    assert done + [] == done;
    if calls == [] {
      return true;
    }
    assert calls == [calls[0]];
    ApplyAppend(before, done, calls[0]);
    ok := service.Send(calls[0]);
    if !ok {
      assert (done + calls)[..|done|] == done && (done + calls)[..|done + calls|] == done + calls;
    }
  }

  lemma ReachedLonger(before: seq<Row>, rows: seq<Row>, done: seq<Call>, more: seq<Call>)
    requires Reached(before, rows, done)
    ensures Reached(before, rows, done + more)
  {
    var k :| 0 <= k <= |done| && rows == ApplyAll(before, done[..k]);
    assert (done + more)[..k] == done[..k];
  }

  lemma {:induction false} WantCallsGrow(rows: seq<Row>, desired: seq<InstrumentRef>, more: seq<InstrumentRef>)
    ensures WantCalls(rows, desired) <= WantCalls(rows, desired + more)
  {
    if more == [] {
      assert desired + more == desired;
    } else {
      WantCallsGrow(rows, desired, more[..|more| - 1]);
      assert (desired + more)[..|desired + more| - 1] == desired + more[..|more| - 1];
    }
  }

  lemma {:induction false} DropCallsGrow(rows: seq<Row>, desired: seq<InstrumentRef>, m: nat, n: nat)
    requires m <= n <= |rows|
    ensures DropCalls(rows, desired, m) <= DropCalls(rows, desired, n)
    decreases n
  {
    if m < n {
      DropCallsGrow(rows, desired, m, n - 1);
    }
  }

  lemma ReachedWant(before: seq<Row>, rows: seq<Row>, looked: seq<InstrumentRef>, rest: seq<InstrumentRef>)
    requires Reached(before, rows, WantCalls(before, looked))
    ensures Reached(before, rows, Plan(before, looked + rest))
  {
    WantCallsGrow(before, looked, rest);
    var calls, all := WantCalls(before, looked), WantCalls(before, looked + rest);
    assert all == calls + all[|calls|..];
    ReachedLonger(before, rows, calls, all[|calls|..]);
    ReachedLonger(before, rows, all, DropCalls(before, looked + rest, |before|));
  }

  lemma ReachedDrop(before: seq<Row>, rows: seq<Row>, desired: seq<InstrumentRef>, n: nat)
    requires n <= |before| && Reached(before, rows, WantCalls(before, desired) + DropCalls(before, desired, n))
    ensures Reached(before, rows, Plan(before, desired))
  {
    DropCallsGrow(before, desired, n, |before|);
    var want, drop, all := WantCalls(before, desired), DropCalls(before, desired, n),
                           DropCalls(before, desired, |before|);
    assert Plan(before, desired) == (want + drop) + all[|drop|..];
    ReachedLonger(before, rows, want + drop, all[|drop|..]);
  }

  /** Some list of a set's elements. */
  ghost function Enumerate(refs: set<InstrumentRef>): (order: seq<InstrumentRef>)
    ensures NoRepeats(order) && forall ref :: ref in order <==> ref in refs
    decreases |refs|
  {
    if refs == {} then [] else
      var ref :| ref in refs;
      Enumerate(refs - {ref}) + [ref]
  }

  lemma WantStep(rows: seq<Row>, looked: seq<InstrumentRef>, ref: InstrumentRef)
    ensures WantCalls(rows, looked + [ref]) == WantCalls(rows, looked) + CallsFor(rows, ref)
    ensures RowOf(rows, ref).Some? ==> RowOf(rows, ref).value < |rows|
  {
    assert (looked + [ref])[..|looked|] == looked;
    RowOfFinds(rows, ref);
  }

  lemma JoinRefs(x: seq<InstrumentRef>, y: seq<InstrumentRef>)
    requires NoRepeats(x) && NoRepeats(y) && forall ref :: ref in x ==> ref !in y
    ensures NoRepeats(x + y)
  {
    forall i, j | 0 <= i < j < |x + y|
      ensures (x + y)[i] != (x + y)[j]
    {
      if i < |x| <= j {
        assert x[i] in x && y[j - |x|] in y;
      }
    }
  }

  datatype Step = Created | Enabled | AsDesired

  /** One desired identity. */
  method EnableOne(service: Service, current: seq<Row>, ghost looked: seq<InstrumentRef>, ref: InstrumentRef)
    returns (ok: bool, step: Step)
    requires service.rows == ApplyAll(current, WantCalls(current, looked))
    modifies service
    ensures step == match StatusOf(current, ref) case Absent => Created case Off => Enabled case On => AsDesired
    ensures |WantCalls(current, looked + [ref])| == |WantCalls(current, looked)| + if step.AsDesired? then 0 else 1
    ensures ok ==>
              && service.rows == ApplyAll(current, WantCalls(current, looked + [ref]))
              && service.sent == old(service.sent) + if step.AsDesired? then 0 else 1
    ensures !ok ==> Reached(current, service.rows, WantCalls(current, looked + [ref]))
  {
    WantStep(current, looked, ref);
    hide ApplyAll, WantCalls, Reached;
    var existing := RowOf(current, ref);
    var calls: seq<Call> := [];
    step := AsDesired;
    if existing.None? {
      calls, step := [Create(ref)], Created;
    } else if !current[existing.value].enabled {
      calls, step := [SetEnabled(existing.value, true)], Enabled;
    }
    ok := SendStep(service, current, WantCalls(current, looked), calls);
  }

  /** The desired identities with a status, each once. */
  ghost predicate ListsStatus(refs: seq<InstrumentRef>, rows: seq<Row>, desired: seq<InstrumentRef>, status: Status) {
    NoRepeats(refs) && forall ref :: ref in refs <==> ref in desired && StatusOf(rows, ref) == status
  }

  lemma ListNext(refs: seq<InstrumentRef>, rows: seq<Row>, desired: seq<InstrumentRef>, status: Status,
                 ref: InstrumentRef)
    requires ListsStatus(refs, rows, desired, status) && ref !in desired
    ensures ListsStatus(if StatusOf(rows, ref) == status then refs + [ref] else refs, rows, desired + [ref], status)
  {
    hide StatusOf;
  }

  /** The first loop: create or enable whatever is desired and is not enabled. */
  method EnableDesired(service: Service, desired: set<InstrumentRef>)
    returns (ok: bool, created: seq<InstrumentRef>, enabled: seq<InstrumentRef>, unchangedCount: nat,
             ghost order: seq<InstrumentRef>)
    modifies service
    ensures NoRepeats(order) && forall ref :: ref in order <==> ref in desired
    ensures ok ==>
              && service.rows == ApplyAll(old(service.rows), WantCalls(old(service.rows), order))
              && service.sent == old(service.sent) + |created| + |enabled|
              && |WantCalls(old(service.rows), order)| == |created| + |enabled|
              && ListsStatus(created, old(service.rows), order, Absent)
                 && ListsStatus(enabled, old(service.rows), order, Off)
              && |desired| == |created| + |enabled| + unchangedCount
    ensures !ok ==> Reached(old(service.rows), service.rows, Plan(old(service.rows), order))
  {
    var current, start := service.rows, service.sent;
    ok, created, enabled, unchangedCount, order := true, [], [], 0, [];
    assert ApplyAll(current, WantCalls(current, [])) == current && WantCalls(current, []) == [];
    assert NoRepeats(order) && ListsStatus([], current, order, Absent) && ListsStatus([], current, order, Off);
    hide ApplyAll, WantCalls, Reached, Plan, NoRepeats, ListsStatus, StatusOf;
    var remaining := desired;
    while remaining != {}
      invariant ok && remaining <= desired && NoRepeats(order)
      invariant forall ref :: ref in order <==> ref in desired && ref !in remaining
      invariant service.rows == ApplyAll(current, WantCalls(current, order))
      invariant service.sent == start + |created| + |enabled|
      invariant |WantCalls(current, order)| == |created| + |enabled|
      invariant ListsStatus(created, current, order, Absent) && ListsStatus(enabled, current, order, Off)
      invariant |created| + |enabled| + unchangedCount + |remaining| == |desired|
      decreases |remaining|
    {
      var ref :| ref in remaining;
      remaining := remaining - {ref};
      ListNext(created, current, order, Absent, ref);
      ListNext(enabled, current, order, Off, ref);
      var step;
      ok, step := EnableOne(service, current, order, ref);
      match step {
        case Created => created := created + [ref];
        case Enabled => enabled := enabled + [ref];
        case AsDesired => unchangedCount := unchangedCount + 1;
      }
      JoinRef(order, ref);
      order := order + [ref];
      if !ok {
        ghost var rest := Enumerate(remaining);
        JoinRefs(order, rest);
        ReachedWant(current, service.rows, order, rest);
        order := order + rest;
        return;
      }
    }
  }

  lemma JoinRef(order: seq<InstrumentRef>, ref: InstrumentRef)
    requires NoRepeats(order) && ref !in order
    ensures NoRepeats(order + [ref])
  {
  }

  /** One of the first n rows is an enabled one of the identity. */
  ghost predicate HasEnabledRow(rows: seq<Row>, n: nat, ref: InstrumentRef) {
    exists i :: 0 <= i < n && i < |rows| && rows[i] == Row(ref, true)
  }

  lemma EnabledRowNext(rows: seq<Row>, n: nat, ref: InstrumentRef)
    requires n < |rows|
    ensures HasEnabledRow(rows, n + 1, ref) <==> HasEnabledRow(rows, n, ref) || rows[n] == Row(ref, true)
  {
  }

  /** The second loop: disable whatever is enabled and not desired. */
  method DisableUndesired(service: Service, current: seq<Row>, desired: set<InstrumentRef>,
                          ghost order: seq<InstrumentRef>)
    returns (ok: bool, disabled: seq<InstrumentRef>)
    requires service.rows == ApplyAll(current, WantCalls(current, order))
    requires forall ref :: ref in order <==> ref in desired
    modifies service
    ensures ok ==>
              && service.rows == ApplyAll(current, Plan(current, order))
              && service.sent == old(service.sent) + |disabled|
              && |disabled| == |DropCalls(current, order, |current|)|
              && forall ref :: ref in disabled <==> ref !in desired && HasEnabledRow(current, |current|, ref)
    ensures !ok ==> Reached(current, service.rows, Plan(current, order))
  {
    hide ApplyAll, WantCalls, Reached;
    ok, disabled := true, [];
    assert forall ref :: !HasEnabledRow(current, 0, ref);
    hide HasEnabledRow;
    ghost var want := WantCalls(current, order);
    assert want + DropCalls(current, order, 0) == want;
    for i := 0 to |current|
      invariant ok && service.rows == ApplyAll(current, want + DropCalls(current, order, i))
      invariant service.sent == old(service.sent) + |disabled| && |disabled| == |DropCalls(current, order, i)|
      invariant forall ref :: ref in disabled <==> ref !in desired && HasEnabledRow(current, i, ref)
    {
      forall ref {
        EnabledRowNext(current, i, ref);
      }
      var calls: seq<Call> := [];
      if current[i].enabled && current[i].ref !in desired {
        calls := [SetEnabled(i, false)];
        disabled := disabled + [current[i].ref];
      }
      ghost var done := want + DropCalls(current, order, i);
      assert DropCalls(current, order, i + 1) == DropCalls(current, order, i) + calls;
      assert done + calls == want + DropCalls(current, order, i + 1);
      ok := SendStep(service, current, done, calls);
      if !ok {
        ReachedDrop(current, service.rows, order, i + 1);
        return;
      }
    }
  }

  /** `sync_collection_subscriptions`. A set is iterated in an unspecified order: `order` is the one taken. When a
      call fails, what the service holds is the result of some prefix of the planned calls. */
  method SyncCollectionSubscriptions(service: Service, desired: set<InstrumentRef>)
    returns (r: Result<SyncResult>, ghost order: seq<InstrumentRef>)
    modifies service
    ensures NoRepeats(order) && forall ref :: ref in order <==> ref in desired
    ensures var plan := Plan(old(service.rows), order);
            && (r.Success? ==>
                  && service.rows == ApplyAll(old(service.rows), plan) && service.sent == old(service.sent) + |plan|
                  && |plan| == |r.value.created| + |r.value.enabled| + |r.value.disabled|
                  && ListsStatus(r.value.created, old(service.rows), order, Absent)
                  && ListsStatus(r.value.enabled, old(service.rows), order, Off)
                  && (forall ref :: ref in r.value.disabled <==>
                        ref !in desired && HasEnabledRow(old(service.rows), |old(service.rows)|, ref))
                  && |desired| == |r.value.created| + |r.value.enabled| + r.value.unchangedCount)
            && (r.Failure? ==> r.error == SubscriptionSync && Reached(old(service.rows), service.rows, plan))
  {
    var current := service.rows;
    var ok, created, enabled, unchangedCount, looked := EnableDesired(service, desired);
    order := looked;
    if !ok {
      return Failure(SubscriptionSync), order;
    }
    var disabled;
    ok, disabled := DisableUndesired(service, current, desired, order);
    if !ok {
      return Failure(SubscriptionSync), order;
    }
    return Success(SyncResult(created, enabled, disabled, unchangedCount)), order;
  }

  // ----- What a run does -----

  lemma RowAt(rows: seq<Row>, i: nat)
    requires i < |rows| && DistinctRefs(rows)
    ensures RowOf(rows, rows[i].ref) == Some(i)
    ensures StatusOf(rows, rows[i].ref) == if rows[i].enabled then On else Off
  {
    RowOfFinds(rows, rows[i].ref);
  }

  /** The identity that a call planned on `rows` is about. */
  function RefOf(rows: seq<Row>, call: Call): InstrumentRef {
    match call
    case Create(ref) => ref
    case SetEnabled(id, _) => if id < |rows| then rows[id].ref else InstrumentRef("", "", "")
  }

  function RefsOf(rows: seq<Row>, calls: seq<Call>): seq<InstrumentRef> {
    seq(|calls|, i requires 0 <= i < |calls| => RefOf(rows, calls[i]))
  }

  /** The identity is not as desired. */
  predicate Differs(rows: seq<Row>, desired: seq<InstrumentRef>, ref: InstrumentRef) {
    if ref in desired then StatusOf(rows, ref) != On else StatusOf(rows, ref) == On
  }

  /** A planned call sets an identity to its desired status. */
  predicate Sensible(rows: seq<Row>, desired: seq<InstrumentRef>, call: Call) {
    match call
    case Create(ref) => ref in desired && RowOf(rows, ref).None?
    case SetEnabled(id, enabled) => id < |rows| && enabled == (rows[id].ref in desired)
  }

  predicate AllSensible(rows: seq<Row>, desired: seq<InstrumentRef>, calls: seq<Call>) {
    forall i :: 0 <= i < |calls| ==> Sensible(rows, desired, calls[i])
  }

  /** Calls for the desired identities: one for each that differs. */
  lemma {:induction false} WantCallsFit(rows: seq<Row>, all: seq<InstrumentRef>, desired: seq<InstrumentRef>)
    requires DistinctRefs(rows) && NoRepeats(desired) && forall ref :: ref in desired ==> ref in all
    ensures var refs := RefsOf(rows, WantCalls(rows, desired));
            && AllSensible(rows, all, WantCalls(rows, desired))
            && NoRepeats(refs) && forall ref :: ref in refs <==> ref in desired && Differs(rows, all, ref)
  {
    if desired != [] {
      var n, ref := |desired| - 1, desired[|desired| - 1];
      WantCallsFit(rows, all, desired[..n]);
      var before, calls := WantCalls(rows, desired[..n]), CallsFor(rows, ref);
      assert ref !in desired[..n];
      assert RefsOf(rows, before + calls) == RefsOf(rows, before) + RefsOf(rows, calls);
      CallsForFit(rows, all, ref);
    }
  }

  lemma CallsForFit(rows: seq<Row>, all: seq<InstrumentRef>, ref: InstrumentRef)
    requires ref in all
    ensures AllSensible(rows, all, CallsFor(rows, ref))
    ensures RefsOf(rows, CallsFor(rows, ref)) == if Differs(rows, all, ref) then [ref] else []
  {
    RowOfFinds(rows, ref);
  }

  lemma {:induction false} DropCallsFit(rows: seq<Row>, desired: seq<InstrumentRef>, n: nat)
    requires DistinctRefs(rows) && n <= |rows|
    ensures var refs := RefsOf(rows, DropCalls(rows, desired, n));
            && AllSensible(rows, desired, DropCalls(rows, desired, n)) && NoRepeats(refs)
            && forall ref :: ref in refs <==> ref !in desired && HasEnabledRow(rows, n, ref)
  {
    if n > 0 {
      DropCallsFit(rows, desired, n - 1);
      var before := DropCalls(rows, desired, n - 1);
      if rows[n - 1].enabled && rows[n - 1].ref !in desired {
        assert RefsOf(rows, before + [SetEnabled(n - 1, false)]) == RefsOf(rows, before) + [rows[n - 1].ref];
        assert !HasEnabledRow(rows, n - 1, rows[n - 1].ref);
      } else {
        assert before + [] == before;
      }
    }
  }

  /** An undesired identity differs when it has an enabled row. */
  lemma EnabledDiffer(rows: seq<Row>, desired: seq<InstrumentRef>, ref: InstrumentRef)
    requires DistinctRefs(rows) && ref !in desired
    ensures HasEnabledRow(rows, |rows|, ref) <==> Differs(rows, desired, ref)
  {
    hide StatusOf, DistinctRefs;
    if HasEnabledRow(rows, |rows|, ref) {
      var i :| 0 <= i < |rows| && rows[i] == Row(ref, true);
      RowAt(rows, i);
    } else if Differs(rows, desired, ref) {
      var i := EnabledRow(rows, ref);
    }
  }

  /** An undesired identity that is enabled has an enabled row. */
  lemma EnabledRow(rows: seq<Row>, ref: InstrumentRef) returns (i: nat)
    requires StatusOf(rows, ref) == On
    ensures i < |rows| && rows[i].enabled && rows[i].ref == ref
  {
    RowOfFinds(rows, ref);
    i := RowOf(rows, ref).value;
  }

  /** Main result: a run issues exactly one call per identity that differs from what is desired, each setting it
      right. */
  lemma OneCallPerDifference(rows: seq<Row>, desired: seq<InstrumentRef>)
    requires DistinctRefs(rows) && NoRepeats(desired)
    ensures var refs := RefsOf(rows, Plan(rows, desired));
            && AllSensible(rows, desired, Plan(rows, desired))
            && NoRepeats(refs) && forall ref :: ref in refs <==> Differs(rows, desired, ref)
  {
    hide WantCalls, DropCalls, StatusOf, Sensible, RefOf, RefsOf, AllSensible, NoRepeats, DistinctRefs, Differs;
    WantCallsFit(rows, desired, desired);
    DropCallsFit(rows, desired, |rows|);
    var want, drop := WantCalls(rows, desired), DropCalls(rows, desired, |rows|);
    JoinCalls(rows, desired, want, drop);
    JoinRefs(RefsOf(rows, want), RefsOf(rows, drop));
    hide HasEnabledRow;
    forall ref | ref !in desired
      ensures HasEnabledRow(rows, |rows|, ref) <==> Differs(rows, desired, ref)
    {
      EnabledDiffer(rows, desired, ref);
    }
  }

  lemma JoinCalls(rows: seq<Row>, desired: seq<InstrumentRef>, x: seq<Call>, y: seq<Call>)
    requires AllSensible(rows, desired, x) && AllSensible(rows, desired, y)
    ensures AllSensible(rows, desired, x + y) && RefsOf(rows, x + y) == RefsOf(rows, x) + RefsOf(rows, y)
  {
  }

  /** Applying calls keeps every row in place with its identity, and adds rows only for created identities. */
  ghost predicate KeepsRows(before: seq<Row>, after: seq<Row>) {
    |before| <= |after| && forall i :: 0 <= i < |before| ==> after[i].ref == before[i].ref
  }

  lemma {:induction false} CallsSetStatus(rows: seq<Row>, desired: seq<InstrumentRef>, calls: seq<Call>)
    requires DistinctRefs(rows) && AllSensible(rows, desired, calls) && NoRepeats(RefsOf(rows, calls))
    ensures var after := ApplyAll(rows, calls);
            && DistinctRefs(after) && KeepsRows(rows, after)
            && forall ref :: StatusOf(after, ref) ==
                 if ref in RefsOf(rows, calls) then (if ref in desired then On else Off) else StatusOf(rows, ref)
  {
    if calls != [] {
      var n, call := |calls| - 1, calls[|calls| - 1];
      assert RefsOf(rows, calls) == RefsOf(rows, calls[..n]) + [RefOf(rows, call)];
      assert forall i :: 0 <= i < n ==> RefsOf(rows, calls)[i] == RefsOf(rows, calls[..n])[i];
      CallsSetStatus(rows, desired, calls[..n]);
      var before := ApplyAll(rows, calls[..n]);
      assert RefsOf(rows, calls)[n] == RefOf(rows, call);
      assert RefOf(rows, call) !in RefsOf(rows, calls[..n]);
      CallSetsStatus(rows, before, desired, call);
    }
  }

  lemma CreateSetsStatus(before: seq<Row>, created: InstrumentRef)
    requires DistinctRefs(before) && StatusOf(before, created) == Absent
    ensures var after := before + [Row(created, true)];
            && DistinctRefs(after)
            && forall ref :: StatusOf(after, ref) == if ref == created then On else StatusOf(before, ref)
  {
    var after := before + [Row(created, true)];
    RowOfFinds(before, created);
    forall ref
      ensures StatusOf(after, ref) == if ref == created then On else StatusOf(before, ref)
    {
      RowOfFinds(before, ref);
      assert after[..|before|] == before;
    }
  }

  lemma EnableSetsStatus(before: seq<Row>, id: nat, enabled: bool, ref: InstrumentRef)
    requires DistinctRefs(before) && id < |before|
    ensures var after := before[id := before[id].(enabled := enabled)];
            && DistinctRefs(after)
            && StatusOf(after, ref) == if ref == before[id].ref then (if enabled then On else Off)
                                       else StatusOf(before, ref)
  {
    var after := before[id := before[id].(enabled := enabled)];
    assert forall i :: 0 <= i < |before| ==> after[i].ref == before[i].ref;
    RowOfFinds(before, ref);
    RowOfFinds(after, ref);
    if RowOf(before, ref).Some? {
      RowAt(before, RowOf(before, ref).value);
      RowAt(after, RowOf(before, ref).value);
    }
    RowAt(after, id);
  }

  /** One sensible call on rows that an earlier part of the plan has changed. */
  lemma CallSetsStatus(rows: seq<Row>, before: seq<Row>, desired: seq<InstrumentRef>, call: Call)
    requires DistinctRefs(rows) && DistinctRefs(before) && KeepsRows(rows, before) && Sensible(rows, desired, call)
    requires StatusOf(before, RefOf(rows, call)) == StatusOf(rows, RefOf(rows, call))
    ensures var after := Apply(before, call);
            && DistinctRefs(after) && KeepsRows(rows, after)
            && forall ref :: StatusOf(after, ref) ==
                 if ref == RefOf(rows, call) then (if ref in desired then On else Off) else StatusOf(before, ref)
  {
    match call {
      case Create(created) =>
        CreateSetsStatus(before, created);
      case SetEnabled(id, enabled) =>
        hide StatusOf, DistinctRefs;
        forall ref
          ensures DistinctRefs(Apply(before, call))
          ensures StatusOf(Apply(before, call), ref) ==
                  if ref == before[id].ref then (if enabled then On else Off) else StatusOf(before, ref)
        {
          EnableSetsStatus(before, id, enabled, ref);
        }
        EnableSetsStatus(before, id, enabled, before[id].ref);
    }
  }

  /** Exactly the desired identities are enabled. */
  ghost predicate Converged(rows: seq<Row>, desired: seq<InstrumentRef>) {
    forall ref :: StatusOf(rows, ref) == On <==> ref in desired
  }

  /** The effect of any prefix of a run. */
  lemma PrefixEffect(rows: seq<Row>, desired: seq<InstrumentRef>, k: nat)
    requires DistinctRefs(rows) && NoRepeats(desired) && k <= |Plan(rows, desired)|
    ensures var plan := Plan(rows, desired);
            var after := ApplyAll(rows, plan[..k]);
            && DistinctRefs(after) && KeepsRows(rows, after)
            && forall ref :: StatusOf(after, ref) ==
                 if ref in RefsOf(rows, plan[..k]) then (if ref in desired then On else Off) else StatusOf(rows, ref)
  {
    OneCallPerDifference(rows, desired);
    var plan := Plan(rows, desired);
    assert forall i :: 0 <= i < k ==> RefsOf(rows, plan[..k])[i] == RefsOf(rows, plan)[i];
    hide Plan, StatusOf, Sensible;
    CallsSetStatus(rows, desired, plan[..k]);
  }

  /** Main result: a full run enables exactly the desired identities and loses no row, and a second run, whatever
      order it takes, has nothing to do. */
  lemma SyncConverges(rows: seq<Row>, desired: seq<InstrumentRef>, again: seq<InstrumentRef>)
    requires DistinctRefs(rows) && NoRepeats(desired)
    requires NoRepeats(again) && forall ref :: ref in again <==> ref in desired
    ensures var after := ApplyAll(rows, Plan(rows, desired));
            Converged(after, desired) && DistinctRefs(after) && KeepsRows(rows, after) && Plan(after, again) == []
  {
    var plan := Plan(rows, desired);
    assert plan[..|plan|] == plan;
    PrefixEffect(rows, desired, |plan|);
    OneCallPerDifference(rows, desired);
    var after := ApplyAll(rows, plan);
    OneCallPerDifference(after, again);
    hide Plan, StatusOf, ApplyAll;
    forall ref
      ensures !Differs(after, again, ref)
    {
      assert StatusOf(after, ref) == On <==> ref in desired;
    }
    var refs := RefsOf(after, Plan(after, again));
    if refs != [] {
      NonemptyHasMember(refs);
    }
  }

  lemma NonemptyHasMember(refs: seq<InstrumentRef>)
    requires refs != []
    ensures exists ref :: ref in refs
  {
    assert refs[0] in refs;
  }

  lemma SplitWithoutRepeats(x: seq<InstrumentRef>, y: seq<InstrumentRef>, ref: InstrumentRef)
    requires NoRepeats(x + y)
    ensures ref in x + y <==> ref in x || ref in y
    ensures ref in x ==> ref !in y
  {
    if ref in x {
      var i :| 0 <= i < |x| && x[i] == ref;
      forall j | 0 <= j < |y|
        ensures y[j] != ref
      {
        assert (x + y)[i] != (x + y)[|x| + j];
      }
    }
  }

  lemma SameConvergence(rows: seq<Row>, desired: seq<InstrumentRef>, again: seq<InstrumentRef>)
    requires Converged(rows, desired) && forall ref :: ref in again <==> ref in desired
    ensures Converged(rows, again)
  {
  }

  lemma RefsSplit(rows: seq<Row>, calls: seq<Call>, k: nat)
    requires k <= |calls|
    ensures RefsOf(rows, calls) == RefsOf(rows, calls[..k]) + RefsOf(rows, calls[k..])
  {
  }

  /** After a prefix of a plan, what still differs is what the rest of the plan is about. */
  lemma LeftToDo(rows: seq<Row>, desired: seq<InstrumentRef>, k: nat, again: seq<InstrumentRef>, ref: InstrumentRef)
    requires DistinctRefs(rows) && NoRepeats(desired) && k <= |Plan(rows, desired)|
    requires forall other :: other in again <==> other in desired
    ensures var plan := Plan(rows, desired);
            Differs(ApplyAll(rows, plan[..k]), again, ref) <==> ref in RefsOf(rows, plan[k..])
  {
    hide Plan, StatusOf, ApplyAll, KeepsRows, DistinctRefs, AllSensible, RefsOf, NoRepeats;
    var plan := Plan(rows, desired);
    PrefixEffect(rows, desired, k);
    OneCallPerDifference(rows, desired);
    RefsSplit(rows, plan, k);
    SplitWithoutRepeats(RefsOf(rows, plan[..k]), RefsOf(rows, plan[k..]), ref);
  }

  /** Main result: a run stopped after any prefix of its calls loses no row, and a full run after it, whatever order
      it takes, calls for exactly the identities the first did not reach and ends with exactly the desired ones
      enabled. */
  lemma InterruptedSyncConverges(rows: seq<Row>, desired: seq<InstrumentRef>, k: nat, again: seq<InstrumentRef>)
    requires DistinctRefs(rows) && NoRepeats(desired) && k <= |Plan(rows, desired)|
    requires NoRepeats(again) && forall ref :: ref in again <==> ref in desired
    ensures var plan := Plan(rows, desired);
            var stopped := ApplyAll(rows, plan[..k]);
            && KeepsRows(rows, stopped) && DistinctRefs(stopped)
            && (forall ref :: ref in RefsOf(stopped, Plan(stopped, again)) <==> ref in RefsOf(rows, plan[k..]))
            && Converged(ApplyAll(stopped, Plan(stopped, again)), desired)
            && KeepsRows(stopped, ApplyAll(stopped, Plan(stopped, again)))
  {
    hide Plan, StatusOf, ApplyAll, KeepsRows, DistinctRefs, NoRepeats, RefsOf, Converged, Differs;
    var stopped := ApplyAll(rows, Plan(rows, desired)[..k]);
    PrefixEffect(rows, desired, k);
    SyncConverges(stopped, again, desired);
    OneCallPerDifference(stopped, again);
    SameConvergence(ApplyAll(stopped, Plan(stopped, again)), again, desired);
    forall ref
      ensures Differs(stopped, again, ref) <==> ref in RefsOf(rows, Plan(rows, desired)[k..])
    {
      LeftToDo(rows, desired, k, again, ref);
    }
  }

  // ----- What is desired -----

  datatype Portfolio = Portfolio(benchmark: Option<AssetId>, members: seq<AssetId>)

  predicate UsesAsset(p: Portfolio, id: AssetId) {
    p.benchmark == Some(id) || id in p.members
  }

  ghost predicate IsDesired(portfolios: seq<Portfolio>, resolve: AssetId -> seq<InstrumentRef>, ref: InstrumentRef) {
    exists i, id :: 0 <= i < |portfolios| && UsesAsset(portfolios[i], id) && ref in resolve(id)
  }

  /** `compute_desired_instruments`: what any member or benchmark of any of the portfolios resolves to. */
  method ComputeDesiredInstruments(portfolios: seq<Portfolio>, resolve: AssetId -> seq<InstrumentRef>)
    returns (desired: set<InstrumentRef>)
    ensures forall ref :: ref in desired <==> IsDesired(portfolios, resolve, ref)
  {
    var assetIds: set<AssetId> := {};
    for i := 0 to |portfolios|
      invariant forall id :: id in assetIds <==> exists k :: 0 <= k < i && UsesAsset(portfolios[k], id)
    {
      var p := portfolios[i];
      ghost var before := assetIds;
      if p.benchmark.Some? {
        assetIds := assetIds + {p.benchmark.value};
      }
      assetIds := assetIds + (set id | id in p.members);
      assert forall id :: id in assetIds <==> id in before || UsesAsset(p, id);
    }
    desired := {};
    var remaining := assetIds;
    while remaining != {}
      invariant remaining <= assetIds
      invariant forall ref :: ref in desired <==> exists id :: id in assetIds - remaining && ref in resolve(id)
      decreases |remaining|
    {
      var id :| id in remaining;
      remaining := remaining - {id};
      desired := desired + (set ref | ref in resolve(id));
    }
    forall ref
      ensures ref in desired <==> IsDesired(portfolios, resolve, ref)
    {
      if ref in desired {
        var id :| id in assetIds && ref in resolve(id);
        var i :| 0 <= i < |portfolios| && UsesAsset(portfolios[i], id);
      }
    }
  }
}
