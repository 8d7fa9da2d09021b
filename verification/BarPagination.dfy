/** Paginated bar queries: the service's page query over an untrusted reader
    (market-info-service/internal/application/bars.go) and the client loop that follows its cursors
    (backend/backtest/market_data_client.py). Instants are microseconds, as in Alignment. */
module BarPagination {
  import opened Common
  import Alignment
  import Valuation

  const MAXIMUM_PAGE_SIZE := 1000

  /** The zero time: the start of January 1 of year 1. */
  const ZERO_TIME := Alignment.DAY

  datatype Order = Ascending | Descending

  /** The `order` query text. */
  datatype OrderText = Unspecified | AscText | DescText | OtherText

  /** Instrument, provider mapping and interval that a bar belongs to. */
  datatype Source = Source(instrumentId: int, providerInstrumentId: int, interval: string)

  /** `wellFormed` is the verdict of the stored-bar validation on the remaining fields. */
  datatype Bar = Bar(data: Alignment.RawBar, source: Source, wellFormed: bool) {
    function Time(): int {
      data.openTime
    }
  }

  datatype TimeRange = TimeRange(start: Option<int>, end: Option<int>) {
    predicate Valid() {
      && start != Some(ZERO_TIME) && end != Some(ZERO_TIME)
      && (start.Some? && end.Some? ==> start.value < end.value)
    }

    predicate Contains(t: int) {
      t != ZERO_TIME && Valid() && (start.Some? ==> start.value <= t) && (end.Some? ==> t < end.value)
    }
  }

  /** The query. `identityParses` says that instrument code, provider code and interval all parse. */
  datatype BarsInput = BarsInput(identityParses: bool, range: TimeRange, order: OrderText, cursor: Option<int>,
                                 limit: int)

  datatype Parsed = Parsed(range: TimeRange, order: Order, cursor: Option<int>)

  datatype Filter = Filter(source: Source, range: TimeRange, order: Order, cursor: Option<int>, limit: nat)

  /** `t` comes after `from` in the order. */
  predicate After(order: Order, from: int, t: int) {
    if order.Ascending? then from < t else t < from
  }

  // ----- Parsing -----

  /** `when` is at or after the start, if there is one, and before the end, if there is one. */
  predicate Within(when: int, start: Option<int>, end: Option<int>) {
    match (start, end)
    case (None, None) => true
    case (Some(from), None) => from <= when
    case (None, Some(to)) => when < to
    case (Some(from), Some(to)) => from <= when < to
  }

  function OrderOf(text: OrderText): Order {
    if text.AscText? then Ascending else Descending
  }

  predicate Parses(input: BarsInput) {
    && input.identityParses && !input.order.OtherText? && 0 < input.limit <= MAXIMUM_PAGE_SIZE
    && input.range.Valid() && (input.cursor.Some? ==> input.range.Contains(input.cursor.value))
  }

  /** `parseBarsInput`. */
  method ParseBarsInput(input: BarsInput) returns (r: Result<Parsed>)
    ensures r.Success? <==> Parses(input)
    ensures r.Success? <==>
            && input.identityParses && input.order != OtherText && 1 <= input.limit <= 1000
            && input.range.start != Some(ZERO_TIME) && input.range.end != Some(ZERO_TIME)
            && (input.range.start.Some? && input.range.end.Some? ==> input.range.start.value < input.range.end.value)
            && (input.cursor.Some? ==> input.cursor.value != ZERO_TIME
                                       && Within(input.cursor.value, input.range.start, input.range.end))
    ensures r.Success? ==> r.value == Parsed(input.range, OrderOf(input.order), input.cursor)
  {
    var violations := 0;
    if !input.identityParses {
      violations := violations + 1;
    }
    var order := input.order;
    if order == Unspecified {
      order := DescText;
    }
    if order != AscText && order != DescText {
      violations := violations + 1;
    }
    if input.limit <= 0 || input.limit > MAXIMUM_PAGE_SIZE {
      violations := violations + 1;
    }
    if violations > 0 {
      return Failure(InvalidArgument);
    }
    if !input.range.Valid() {
      return Failure(InvalidArgument);
    }
    if input.cursor.Some? {
      if input.cursor.value == ZERO_TIME || !input.range.Contains(input.cursor.value) {
        return Failure(InvalidArgument);
      }
    }
    return Success(Parsed(input.range, if order == AscText then Ascending else Descending, input.cursor));
  }

  // ----- One page -----

  predicate Matches(bar: Bar, source: Source, range: TimeRange) {
    bar.wellFormed && bar.source == source && range.Contains(bar.Time())
  }

  predicate Ordered(bars: seq<Bar>, order: Order) {
    forall i, j :: 0 <= i < j < |bars| ==> After(order, bars[i].Time(), bars[j].Time())
  }

  /** What the service accepts from its reader, whatever the reader meant to send. */
  predicate ValidPage(bars: seq<Bar>, f: Filter) {
    && (forall i :: 0 <= i < |bars| ==> Matches(bars[i], f.source, f.range))
    && (f.cursor.Some? ==> forall i :: 0 <= i < |bars| ==> After(f.order, f.cursor.value, bars[i].Time()))
    && Ordered(bars, f.order)
  }

  /** `validateBarPage`: one pass comparing neighbours decides validity of the whole page. */
  method ValidateBarPage(bars: seq<Bar>, f: Filter) returns (ok: bool)
    ensures ok <==> ValidPage(bars, f)
  {
    for i := 0 to |bars|
      invariant ValidPage(bars[..i], f)
    {
      var bar := bars[i];
      assert bars[..i + 1][i] == bar;
      if !bar.wellFormed {
        return false;
      }
      if bar.source != f.source || !f.range.Contains(bar.Time()) {
        return false;
      }
      if f.cursor.Some? && !After(f.order, f.cursor.value, bar.Time()) {
        return false;
      }
      if i > 0 {
        if !After(f.order, bars[i - 1].Time(), bar.Time()) {
          return false;
        }
        assert bars[..i][i - 1] == bars[i - 1];
      }
    }
    assert bars[..|bars|] == bars;
    return true;
  }

  datatype Page = Page(bars: seq<Bar>, next: Option<int>)

  function FilterOf(input: BarsInput, source: Source): Filter
    requires input.limit >= 0
  {
    Filter(source, input.range, OrderOf(input.order), input.cursor, input.limit + 1)
  }

  function Cut(bars: seq<Bar>, limit: int): Page
    requires limit > 0
  {
    if |bars| > limit then Page(bars[..limit], Some(bars[limit - 1].Time())) else Page(bars, None)
  }

  /** A page of the service: `source` is what catalog and mapping resolution came to. */
  function PageOf(input: BarsInput, source: Result<Source>, reader: Filter -> Result<seq<Bar>>): Result<Page> {
    if !Parses(input) then Failure(InvalidArgument)
    else if source.Failure? then Failure(source.error)
    else
      var f := FilterOf(input, source.value);
      var bars :- reader(f);
      if ValidPage(bars, f) then Success(Cut(bars, input.limit)) else Failure(InvalidData)
  }

  /** `List`. */
  method List(input: BarsInput, source: Result<Source>, reader: Filter -> Result<seq<Bar>>) returns (r: Result<Page>)
    ensures r == PageOf(input, source, reader)
  {
    var parsed := ParseBarsInput(input);
    if parsed.Failure? {
      return Failure(InvalidArgument);
    }
    if source.Failure? {
      return Failure(source.error);
    }
    var f := Filter(source.value, parsed.value.range, parsed.value.order, parsed.value.cursor, input.limit + 1);
    var answer := reader(f);
    if answer.Failure? {
      return Failure(answer.error);
    }
    var ok := ValidateBarPage(answer.value, f);
    if !ok {
      return Failure(InvalidData);
    }
    var bars := answer.value;
    var next: Option<int> := None;
    if |bars| > input.limit {
      bars := bars[..input.limit];
      next := Some(bars[|bars| - 1].Time());
    }
    return Success(Page(bars, next));
  }

  /** An accepted page stays inside the query, moves on from the cursor, and its own cursor is its last bar. */
  predicate GoodPage(page: Page, input: BarsInput, source: Source) {
    && 0 < input.limit && |page.bars| <= input.limit
    && (forall i :: 0 <= i < |page.bars| ==> Matches(page.bars[i], source, input.range))
    && (input.cursor.Some? ==> forall i :: 0 <= i < |page.bars| ==>
        After(OrderOf(input.order), input.cursor.value, page.bars[i].Time()))
    && Ordered(page.bars, OrderOf(input.order))
    && (page.next.Some? ==> |page.bars| == input.limit && page.next.value == page.bars[|page.bars| - 1].Time())
  }

  /** Whatever the reader answers, an accepted page is good, and the cursor it emits is accepted by the next parse of
      the same query. */
  lemma PageIsGood(input: BarsInput, source: Result<Source>, reader: Filter -> Result<seq<Bar>>)
    requires PageOf(input, source, reader).Success?
    ensures Parses(input) && source.Success?
    ensures var page := PageOf(input, source, reader).value;
            GoodPage(page, input, source.value) && (page.next.Some? ==> Parses(input.(cursor := page.next)))
  {
    var f := FilterOf(input, source.value);
    var bars := reader(f).value;
    assert ValidPage(bars, f);
    var page := Cut(bars, input.limit);
    if page.next.Some? {
      assert page.bars[input.limit - 1] == bars[input.limit - 1];
      assert Matches(bars[input.limit - 1], f.source, f.range);
    }
  }

  // ----- Following cursors -----

  /** A reader answers the k-th request; it may answer the same query differently each time. */
  type Reader = (nat, Filter) -> Result<seq<Bar>>

  /** The bars collected after some pages, and the cursor to go on from, if any. */
  datatype Progress = Progress(bars: seq<Bar>, cursor: Option<int>, more: bool)

  function Pages(input: BarsInput, source: Result<Source>, reader: Reader, n: nat): Result<Progress> {
    if n == 0 then Success(Progress([], input.cursor, true))
    else
      match Pages(input, source, reader, n - 1)
      case Failure(error) => Failure(error)
      case Success(p) =>
        if !p.more then Success(p)
        else
          var page :- PageOf(input.(cursor := p.cursor), source, f => reader(n - 1, f));
          Success(Progress(p.bars + page.bars, page.next, page.next.Some?))
  }

  /** What is collected is in order and inside the query, and the pending cursor is its last bar. */
  ghost predicate GoodProgress(p: Progress, input: BarsInput, source: Source) {
    && (forall i :: 0 <= i < |p.bars| ==> Matches(p.bars[i], source, input.range))
    && Ordered(p.bars, OrderOf(input.order))
    && (p.more && p.cursor.Some? ==> input.range.Contains(p.cursor.value))
    && (p.more && p.bars != [] ==> p.cursor == Some(p.bars[|p.bars| - 1].Time()))
    && (p.more && p.bars == [] ==> p.cursor == None)
  }

  lemma Extends(p: Progress, page: Page, input: BarsInput, source: Source)
    requires GoodProgress(p, input, source) && p.more && input.limit > 0
    requires GoodPage(page, input.(cursor := p.cursor), source)
    ensures GoodProgress(Progress(p.bars + page.bars, page.next, page.next.Some?), input, source)
  {
    var order, all := OrderOf(input.order), p.bars + page.bars;
    forall i, j | 0 <= i < j < |all|
      ensures After(order, all[i].Time(), all[j].Time())
    {
      if i < |p.bars| <= j {
        var last := p.bars[|p.bars| - 1].Time();
        assert After(order, last, page.bars[j - |p.bars|].Time());
        assert i == |p.bars| - 1 || After(order, p.bars[i].Time(), last);
      }
    }
  }

  /** Main result: following cursors from any reader, for any number of pages, never repeats a bar: what is collected is
      strictly ordered, matches the query, and the pending cursor is accepted by the next parse. */
  lemma {:induction false} PaginationIsSafe(input: BarsInput, source: Source, reader: Reader, n: nat)
    requires Parses(input) && input.cursor.None? && Pages(input, Success(source), reader, n).Success?
    ensures var p := Pages(input, Success(source), reader, n).value;
            GoodProgress(p, input, source) && (p.more ==> Parses(input.(cursor := p.cursor)))
  {
    hide PageOf, GoodPage;
    if n > 0 {
      PaginationIsSafe(input, source, reader, n - 1);
      var before := Pages(input, Success(source), reader, n - 1).value;
      if before.more {
        PageIsGood(input.(cursor := before.cursor), Success(source), f => reader(n - 1, f));
        Extends(before, PageOf(input.(cursor := before.cursor), Success(source), f => reader(n - 1, f)).value, input,
                source);
      }
    }
  }

  lemma {:induction false} PagesFailureSticks(input: BarsInput, source: Result<Source>, reader: Reader, m: nat, n: nat)
    requires m <= n && Pages(input, source, reader, m).Failure?
    ensures Pages(input, source, reader, n) == Pages(input, source, reader, m)
    decreases n
  {
    if m < n {
      PagesFailureSticks(input, source, reader, m, n - 1);
    }
  }

  /** Distance left in a bounded ascending query. */
  function Remaining(start: int, end: int, cursor: Option<int>): int {
    end - if cursor.Some? then cursor.value else start - 1
  }

  /** `fetch_daily_bars`: the loop ends for any reader, because every page moves the cursor on inside the range, and
      what it returns is strictly ordered and inside the range. */
  method FetchDailyBars(identityParses: bool, source: Result<Source>, reader: Reader, start: int, end: int,
                        pageSize: int)
    returns (r: Result<seq<Bar>>)
    ensures var input := BarsInput(identityParses, TimeRange(Some(start), Some(end)), AscText, None,
                                   if pageSize < 1000 then pageSize else 1000);
            && (start >= end ==> r == Failure(ValueError))
            && (start < end ==> exists n: nat :: IsResult(input, source, reader, n, r))
            && (r.Success? ==> source.Success? && Ordered(r.value, Ascending)
                               && forall i :: 0 <= i < |r.value| ==> Matches(r.value[i], source.value, input.range))
  {
    if start >= end {
      return Failure(ValueError);
    }
    var limit := if pageSize < 1000 then pageSize else 1000;
    var input := BarsInput(identityParses, TimeRange(Some(start), Some(end)), AscText, None, limit);
    var bars: seq<Bar>, cursor: Option<int> := [], None;
    var n: nat := 0;
    while true
      invariant Pages(input, source, reader, n) == Success(Progress(bars, cursor, true))
      invariant cursor.Some? ==> input.range.Contains(cursor.value)
      invariant n > 0 ==> source.Success? && cursor.Some?
      invariant source.Success? ==> GoodProgress(Progress(bars, cursor, true), input, source.value)
      decreases Remaining(start, end, cursor)
    {
      var page := List(input.(cursor := cursor), source, f => reader(n, f));
      n := n + 1;
      if page.Failure? {
        assert IsResult(input, source, reader, n, Failure(page.error));
        return Failure(page.error);
      }
      bars := bars + page.value.bars;
      cursor := page.value.next;
      PaginationIsSafe(input, source.value, reader, n);
      if cursor.None? {
        assert IsResult(input, source, reader, n, Success(bars));
        return Success(bars);
      }
    }
  }

  /** `r` is what n pages come to. */
  ghost predicate IsResult(input: BarsInput, source: Result<Source>, reader: Reader, n: nat, r: Result<seq<Bar>>) {
    match Pages(input, source, reader, n)
    case Failure(error) => r == Failure(error)
    case Success(p) => !p.more && r == Success(p.bars)
  }

  // ----- Completeness -----

  /** Rows of a finite store: every one valid, and no two of the same source at the same time. */
  predicate ValidStore(stored: seq<Bar>) {
    && (forall i :: 0 <= i < |stored| ==> stored[i].wellFormed && stored[i].Time() != ZERO_TIME)
    && forall i, j :: 0 <= i < j < |stored| && stored[i].source == stored[j].source ==>
         stored[i].Time() != stored[j].Time()
  }

  function InsertBar(order: Order, bars: seq<Bar>, bar: Bar): seq<Bar> {
    if bars == [] || After(order, bars[|bars| - 1].Time(), bar.Time()) then bars + [bar]
    else InsertBar(order, bars[..|bars| - 1], bar) + [bars[|bars| - 1]]
  }

  /** The stored bars of a source in a range, in order. */
  function Listing(stored: seq<Bar>, source: Source, range: TimeRange, order: Order): seq<Bar> {
    if stored == [] then []
    else
      var before, bar := Listing(stored[..|stored| - 1], source, range, order), stored[|stored| - 1];
      if Matches(bar, source, range) then InsertBar(order, before, bar) else before
  }

  /** The bars after a cursor in an ordered listing. */
  function Following(bars: seq<Bar>, order: Order, cursor: Option<int>): seq<Bar> {
    if bars == [] || cursor.None? || After(order, cursor.value, bars[0].Time()) then bars
    else Following(bars[1..], order, cursor)
  }

  function First(bars: seq<Bar>, n: nat): seq<Bar> {
    if |bars| <= n then bars else bars[..n]
  }

  /** The stored query: filter, order, limit. */
  function ListBars(stored: seq<Bar>, f: Filter): seq<Bar> {
    First(Following(Listing(stored, f.source, f.range, f.order), f.order, f.cursor), f.limit)
  }

  /** A reader that answers every query from the same rows. */
  ghost predicate Serves(reader: Reader, stored: seq<Bar>) {
    forall k, f :: reader(k, f) == Success(ListBars(stored, f))
  }

  lemma {:induction false} InsertOrdered(order: Order, bars: seq<Bar>, bar: Bar)
    requires Ordered(bars, order) && forall other :: other in bars ==> other.Time() != bar.Time()
    ensures Ordered(InsertBar(order, bars, bar), order)
    ensures forall other :: other in InsertBar(order, bars, bar) <==> other == bar || other in bars
  {
    if bars != [] && !After(order, bars[|bars| - 1].Time(), bar.Time()) {
      var n, last := |bars| - 1, bars[|bars| - 1];
      InsertOrdered(order, bars[..n], bar);
      var shorter := InsertBar(order, bars[..n], bar);
      assert last in bars;
      forall i | 0 <= i < |shorter|
        ensures After(order, shorter[i].Time(), last.Time())
      {
        assert shorter[i] in shorter;
        if shorter[i] != bar {
          var k :| 0 <= k < n && bars[..n][k] == shorter[i];
          assert After(order, bars[k].Time(), bars[n].Time());
        }
      }
    } else if bars != [] {
      forall i | 0 <= i < |bars|
        ensures After(order, bars[i].Time(), bar.Time())
      {
        assert i == |bars| - 1 || After(order, bars[i].Time(), bars[|bars| - 1].Time());
      }
    }
  }

  /** The listing holds exactly the matching rows, each once, in order. */
  lemma {:induction false} ListingIsComplete(stored: seq<Bar>, source: Source, range: TimeRange, order: Order)
    requires ValidStore(stored)
    ensures var all := Listing(stored, source, range, order);
            Ordered(all, order) && forall bar :: bar in all <==> bar in stored && Matches(bar, source, range)
  {
    if stored != [] {
      var n, bar := |stored| - 1, stored[|stored| - 1];
      ListingIsComplete(stored[..n], source, range, order);
      var before := Listing(stored[..n], source, range, order);
      if Matches(bar, source, range) {
        forall other | other in before
          ensures other.Time() != bar.Time()
        {
          var k :| 0 <= k < n && stored[k] == other;
        }
        hide Listing, InsertBar, Matches, Ordered;
        InsertOrdered(order, before, bar);
      }
      assert stored == stored[..n] + [bar];
    }
  }

  lemma {:induction false} FollowingSplits(all: seq<Bar>, order: Order, m: nat)
    requires Ordered(all, order) && 0 < m <= |all|
    ensures Following(all, order, Some(all[m - 1].Time())) == all[m..]
  {
    if m == 1 {
      assert all[1..] != [] ==> After(order, all[0].Time(), all[1].Time());
    } else {
      assert After(order, all[0].Time(), all[m - 1].Time());
      assert all[1..][m - 2] == all[m - 1];
      FollowingSplits(all[1..], order, m - 1);
      assert all[1..][m - 1..] == all[m..];
    }
  }

  /** Bars returned after n pages out of `total`. */
  function Taken(n: nat, limit: nat, total: nat): (taken: nat)
    ensures taken <= total
  {
    if n == 0 then 0
    else if Taken(n - 1, limit, total) + limit <= total then Taken(n - 1, limit, total) + limit
    else total
  }

  /** Where n pages of a served query stand. */
  function Standing(all: seq<Bar>, limit: nat, n: nat): Progress {
    var taken := Taken(n, limit, |all|);
    var more := n == 0 || taken < |all|;
    Progress(all[..taken], if n == 0 || !more || taken == 0 then None else Some(all[taken - 1].Time()), more)
  }

  /** One page of a served query from where the last one stopped. */
  lemma ServedPage(input: BarsInput, source: Source, reader: Reader, stored: seq<Bar>, k: nat, m: nat)
    requires ValidStore(stored) && Serves(reader, stored) && Parses(input)
    requires m <= |Listing(stored, source, input.range, OrderOf(input.order))|
    requires var all := Listing(stored, source, input.range, OrderOf(input.order));
             input.cursor == if m == 0 then None else Some(all[m - 1].Time())
    ensures var all := Listing(stored, source, input.range, OrderOf(input.order));
            PageOf(input, Success(source), f => reader(k, f)) == Success(Cut(all[m..], input.limit))
  {
    var order := OrderOf(input.order);
    var all := Listing(stored, source, input.range, order);
    ListingIsComplete(stored, source, input.range, order);
    var f := FilterOf(input, source);
    if m > 0 {
      FollowingSplits(all, order, m);
    } else {
      assert all[0..] == all;
    }
    var bars := First(all[m..], f.limit);
    assert reader(k, f) == Success(bars);
    assert ValidPage(bars, f) by {
      forall i | 0 <= i < |bars|
        ensures bars[i] == all[m + i] && Matches(bars[i], source, input.range)
      {
        assert all[m + i] in all;
      }
    }
    hide Listing, ValidPage, Matches, Ordered, Following;
    assert Cut(bars, input.limit) == Cut(all[m..], input.limit);
  }

  lemma {:induction false} ServedPages(input: BarsInput, source: Source, reader: Reader, stored: seq<Bar>, n: nat)
    requires ValidStore(stored) && Serves(reader, stored) && Parses(input) && input.cursor.None?
    ensures var all := Listing(stored, source, input.range, OrderOf(input.order));
            Pages(input, Success(source), reader, n) == Success(Standing(all, input.limit, n))
  {
    var all := Listing(stored, source, input.range, OrderOf(input.order));
    if n > 0 {
      ServedPages(input, source, reader, stored, n - 1);
      PaginationIsSafe(input, source, reader, n - 1);
      var p := Standing(all, input.limit, n - 1);
      var m := Taken(n - 1, input.limit, |all|);
      if p.more {
        var next := input.(cursor := p.cursor);
        hide Listing, PageOf, ValidStore, Serves, GoodProgress;
        ServedPage(next, source, reader, stored, n - 1, m);
        StandingStep(all, input.limit, n);
      }
    }
  }

  lemma StandingStep(all: seq<Bar>, limit: nat, n: nat)
    requires n > 0 && limit > 0 && Standing(all, limit, n - 1).more
    ensures var p, page := Standing(all, limit, n - 1), Cut(all[Taken(n - 1, limit, |all|)..], limit);
            Standing(all, limit, n) == Progress(p.bars + page.bars, page.next, page.next.Some?)
  {
    var m := Taken(n - 1, limit, |all|);
    var rest := all[m..];
    if |rest| > limit {
      assert all[..m] + rest[..limit] == all[..m + limit];
      assert rest[limit - 1] == all[m + limit - 1];
    } else {
      assert all[..m] + rest == all;
      assert all[..|all|] == all;
    }
  }

  /** Pages a served query takes. */
  function PagesNeeded(total: nat, limit: nat): (n: nat)
    requires limit > 0
    ensures n >= 1
  {
    if total <= limit then 1 else 1 + PagesNeeded(total - limit, limit)
  }

  lemma {:induction false} TakenAll(total: nat, limit: nat, k: nat, n: nat)
    requires limit > 0 && Taken(k, limit, total) == total - n && n <= total
    ensures Taken(k + PagesNeeded(n, limit), limit, total) == total
    decreases n
  {
    if n > limit {
      assert Taken(k + 1, limit, total) == total - (n - limit);
      TakenAll(total, limit, k + 1, n - limit);
      assert k + 1 + PagesNeeded(n - limit, limit) == k + PagesNeeded(n, limit);
    }
  }

  lemma StandingAtEnd(all: seq<Bar>, limit: nat)
    requires limit > 0
    ensures Standing(all, limit, PagesNeeded(|all|, limit)) == Progress(all, None, false)
  {
    TakenAll(|all|, limit, 0, |all|);
    assert all[..|all|] == all;
  }

  /** Main result: from a reader that serves a finite store, following cursors stops after the expected number of
      pages having returned every row of the query exactly once, in order. */
  lemma PaginationIsComplete(input: BarsInput, source: Source, reader: Reader, stored: seq<Bar>)
    requires ValidStore(stored) && Serves(reader, stored) && Parses(input) && input.cursor.None?
    ensures var order := OrderOf(input.order);
            var all := Listing(stored, source, input.range, order);
            && Pages(input, Success(source), reader, PagesNeeded(|all|, input.limit))
               == Success(Progress(all, None, false))
            && Ordered(all, order) && forall bar :: bar in all <==> bar in stored && Matches(bar, source, input.range)
  {
    var order := OrderOf(input.order);
    var all := Listing(stored, source, input.range, order);
    var n := PagesNeeded(|all|, input.limit);
    ListingIsComplete(stored, source, input.range, order);
    ServedPages(input, source, reader, stored, n);
    hide Listing, Pages, ValidStore, Serves, Ordered, Matches, Parses, Standing;
    StandingAtEnd(all, input.limit);
  }

  /** So whatever number of pages a served query took, its result is the whole listing. */
  lemma ServedResultIsListing(input: BarsInput, source: Source, reader: Reader, stored: seq<Bar>, n: nat,
                              r: Result<seq<Bar>>)
    requires ValidStore(stored) && Serves(reader, stored) && Parses(input) && input.cursor.None?
    requires IsResult(input, Success(source), reader, n, r)
    ensures r == Success(Listing(stored, source, input.range, OrderOf(input.order)))
  {
    ServedPages(input, source, reader, stored, n);
    var all := Listing(stored, source, input.range, OrderOf(input.order));
    hide Listing, Pages;
    assert all[..|all|] == all;
  }

  /** Main result: what a served query returns, on the rows' own fields: the rows of the source from the start on and
      before the end, oldest first when ascending order is asked for by name and newest first otherwise. */
  lemma ServedBarsExactly(input: BarsInput, source: Source, reader: Reader, stored: seq<Bar>, n: nat,
                          r: Result<seq<Bar>>)
    requires ValidStore(stored) && Serves(reader, stored) && Parses(input) && input.cursor.None?
    requires IsResult(input, Success(source), reader, n, r)
    ensures r.Success?
    ensures forall bar :: bar in r.value <==>
              bar in stored && bar.source == source && Within(bar.data.openTime, input.range.start, input.range.end)
    ensures forall i, j :: 0 <= i < j < |r.value| ==>
              if input.order == AscText then r.value[i].data.openTime < r.value[j].data.openTime
              else r.value[j].data.openTime < r.value[i].data.openTime
  {
    var order := OrderOf(input.order);
    ListingIsComplete(stored, source, input.range, order);
    ServedResultIsListing(input, source, reader, stored, n, r);
    hide Listing, Serves, Pages, IsResult;
    forall bar
      ensures bar in r.value <==>
              bar in stored && bar.source == source && Within(bar.data.openTime, input.range.start, input.range.end)
    {
      assert bar in r.value <==> bar in stored && Matches(bar, source, input.range);
      if bar in stored {
        var k :| 0 <= k < |stored| && stored[k] == bar;
      }
    }
    forall i, j | 0 <= i < j < |r.value|
      ensures if input.order == AscText then r.value[i].data.openTime < r.value[j].data.openTime
              else r.value[j].data.openTime < r.value[i].data.openTime
    {
      assert After(order, r.value[i].Time(), r.value[j].Time());
    }
  }

  /** The raw bars of a list. */
  function DataOf(bars: seq<Bar>): seq<Alignment.RawBar> {
    seq(|bars|, i requires 0 <= i < |bars| => bars[i].data)
  }

  /** Asking for everything opened before the end of a day, newest first, gives the answer that point-in-time pricing
      expects of the stored bars of the source. */
  lemma NewestFirstAnswer(stored: seq<Bar>, source: Source, asOf: int, rows: seq<Bar>)
    requires ValidStore(stored) && (asOf + 1) * Alignment.DAY != ZERO_TIME
    requires forall bar :: bar in rows <==> bar in stored && bar.source == source
    ensures var range := TimeRange(None, Some((asOf + 1) * Alignment.DAY));
            Valuation.AnswersNewestFirst(DataOf(Listing(stored, source, range, Descending)), DataOf(rows), asOf)
  {
    var range := TimeRange(None, Some((asOf + 1) * Alignment.DAY));
    var all := Listing(stored, source, range, Descending);
    ListingIsComplete(stored, source, range, Descending);
    hide Listing;
    forall data
      ensures data in DataOf(all) <==> data in DataOf(rows) && data.openTime < (asOf + 1) * Alignment.DAY
    {
      if data in DataOf(all) {
        var i :| 0 <= i < |all| && DataOf(all)[i] == data;
        assert all[i] in all;
        var k :| 0 <= k < |rows| && rows[k] == all[i];
        assert DataOf(rows)[k] == data;
      }
      if data in DataOf(rows) && data.openTime < (asOf + 1) * Alignment.DAY {
        var k :| 0 <= k < |rows| && DataOf(rows)[k] == data;
        assert rows[k] in rows;
        assert Matches(rows[k], source, range);
        var i :| 0 <= i < |all| && all[i] == rows[k];
        assert DataOf(all)[i] == data;
      }
    }
  }
}
