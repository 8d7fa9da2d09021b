/** The batch precision query (market-info-service/internal/application/instrument_precision.go).
    Identifiers are numbers, 0 being the zero ID; instants are numbers, 0 being the zero time. */
module PrecisionBatch {
  import opened Common
  import opened Domain

  type Id = int

  const MAXIMUM_BATCH_SIZE := 100

  datatype Instrument = Instrument(
    id: Id,
    isInstrumentCode: bool,
    active: bool,
    validFrom: Option<int>, validTo: Option<int>,
    priceScale: Option<int>, quantityScale: Option<int>,
    lotSize: Option<real>, minQuantity: Option<real>,
    updatedAt: int)

  datatype Item = Item(id: Id, precision: Precision)

  datatype Batch = Batch(items: seq<Item>, missing: seq<Id>)

  // ----- De-duplication -----

  /** The elements of a list in first-seen order, each once. */
  function FirstSeen<T(==)>(xs: seq<T>): seq<T> {
    if xs == [] then []
    else
      var before := FirstSeen(xs[..|xs| - 1]);
      if xs[|xs| - 1] in before then before else before + [xs[|xs| - 1]]
  }

  lemma FirstSeenStep<T>(xs: seq<T>, x: T)
    ensures FirstSeen(xs + [x]) == if x in FirstSeen(xs) then FirstSeen(xs) else FirstSeen(xs) + [x]
  {
    assert (xs + [x])[..|xs|] == xs;
  }

  /** De-duplicating keeps every element once and invents none. */
  lemma {:induction false} FirstSeenKeepsAll<T>(xs: seq<T>)
    ensures NoRepeats(FirstSeen(xs)) && |FirstSeen(xs)| <= |xs|
    ensures forall x :: x in FirstSeen(xs) <==> x in xs
    ensures xs != [] ==> FirstSeen(xs) != []
  {
    if xs != [] {
      FirstSeenKeepsAll(xs[..|xs| - 1]);
    }
  }

  /** A list without repeats is left as it is. */
  lemma {:induction false} FirstSeenOfDistinct<T>(xs: seq<T>)
    requires NoRepeats(xs)
    ensures FirstSeen(xs) == xs
  {
    if xs != [] {
      FirstSeenOfDistinct(xs[..|xs| - 1]);
    }
  }

  // ----- Parsing -----

  /** The canonical IDs among the first n raw ones. */
  function ParsedIds(parse: string -> Option<Id>, raw: seq<string>): seq<Id> {
    if raw == [] then []
    else
      var before, id := ParsedIds(parse, raw[..|raw| - 1]), parse(raw[|raw| - 1]);
      if id.Some? then before + [id.value] else before
  }

  predicate AllCanonical(parse: string -> Option<Id>, raw: seq<string>) {
    forall i :: 0 <= i < |raw| ==> parse(raw[i]).Some?
  }

  lemma ParsedStep(parse: string -> Option<Id>, raw: seq<string>, i: nat)
    requires i < |raw|
    ensures AllCanonical(parse, raw[..i + 1]) <==> AllCanonical(parse, raw[..i]) && parse(raw[i]).Some?
    ensures parse(raw[i]).None? ==> FirstSeen(ParsedIds(parse, raw[..i + 1])) == FirstSeen(ParsedIds(parse, raw[..i]))
    ensures parse(raw[i]).Some? ==>
              var before, id := FirstSeen(ParsedIds(parse, raw[..i])), parse(raw[i]).value;
              FirstSeen(ParsedIds(parse, raw[..i + 1])) == if id in before then before else before + [id]
  {
    assert raw[..i + 1][..i] == raw[..i];
    assert forall k :: 0 <= k < i ==> raw[..i + 1][k] == raw[..i][k];
    assert raw[..i + 1][i] == raw[i];
    var before := ParsedIds(parse, raw[..i]);
    if parse(raw[i]).Some? {
      assert ParsedIds(parse, raw[..i + 1]) == before + [parse(raw[i]).value];
      hide ParsedIds;
      FirstSeenStep(before, parse(raw[i]).value);
    }
  }

  /** `parseInstrumentPrecisionInput`. */
  method ParseInput(parse: string -> Option<Id>, raw: seq<string>) returns (r: Result<seq<Id>>)
    ensures r.Success? <==> 0 < |raw| <= 100 && AllCanonical(parse, raw)
    ensures r.Success? ==> r.value == FirstSeen(ParsedIds(parse, raw))
    ensures r.Failure? ==> r.error == InvalidArgument
  {
    if |raw| == 0 || |raw| > MAXIMUM_BATCH_SIZE {
      return Failure(InvalidArgument);
    }
    assert FirstSeen(ParsedIds(parse, raw[..0])) == [] && AllCanonical(parse, raw[..0]);
    hide FirstSeen, ParsedIds, AllCanonical;
    var violations: seq<int> := [];
    var seen: set<Id> := {};
    var ids: seq<Id> := [];
    for i := 0 to |raw|
      invariant ids == FirstSeen(ParsedIds(parse, raw[..i]))
      invariant forall id :: id in seen <==> id in ids
      invariant violations == [] <==> AllCanonical(parse, raw[..i])
    {
      var id := parse(raw[i]);
      ParsedStep(parse, raw, i);
      if id.None? {
        violations := violations + [i];
        continue;
      }
      if id.value in seen {
        continue;
      }
      seen := seen + {id.value};
      ids := ids + [id.value];
    }
    assert raw[..|raw|] == raw;
    if violations != [] {
      return Failure(InvalidArgument);
    }
    return Success(ids);
  }

  // ----- Resolving -----

  predicate EffectiveAtWithin(at: int, from: Option<int>, to: Option<int>) {
    at != 0 && (from.Some? ==> from.value <= at) && (to.Some? ==> at < to.value)
  }

  predicate HasUsablePrecision(x: Instrument, at: int) {
    && x.active && EffectiveAtWithin(at, x.validFrom, x.validTo)
    && x.priceScale.Some? && x.quantityScale.Some? && x.lotSize.Some? && x.minQuantity.Some?
  }

  predicate ValidProjection(x: Instrument) {
    x.id != 0 && x.isInstrumentCode
  }

  /** The catalog's answer for an ID: the last one given for it. */
  function Found(instruments: seq<Instrument>, id: Id): Option<Instrument> {
    if instruments == [] then None
    else if instruments[|instruments| - 1].id == id then Some(instruments[|instruments| - 1])
    else Found(instruments[..|instruments| - 1], id)
  }

  /** A requested ID that order sizes can be rounded for right now. */
  predicate Usable(instruments: seq<Instrument>, id: Id, at: int) {
    Found(instruments, id).Some? && HasUsablePrecision(Found(instruments, id).value, at)
  }

  function ItemOf(instruments: seq<Instrument>, id: Id, at: int): Item
    requires Usable(instruments, id, at)
  {
    var x := Found(instruments, id).value;
    Item(id, Precision(x.lotSize.value, x.minQuantity.value))
  }

  function Split(instruments: seq<Instrument>, ids: seq<Id>, at: int): Batch {
    if ids == [] then Batch([], [])
    else
      var before, id := Split(instruments, ids[..|ids| - 1], at), ids[|ids| - 1];
      if Usable(instruments, id, at) then Batch(before.items + [ItemOf(instruments, id, at)], before.missing)
      else Batch(before.items, before.missing + [id])
  }

  /** Every ID of a valid projection is found under its own ID. */
  lemma {:induction false} FoundHasId(instruments: seq<Instrument>, id: Id)
    ensures Found(instruments, id).Some? ==>
              Found(instruments, id).value.id == id && Found(instruments, id).value in instruments
    ensures Found(instruments, id).None? ==> forall x :: x in instruments ==> x.id != id
  {
    if instruments != [] {
      FoundHasId(instruments[..|instruments| - 1], id);
    }
  }

  // ----- What the answers carry -----

  /** The last row given for the ID. */
  ghost predicate IsRow(instruments: seq<Instrument>, id: Id, x: Instrument) {
    exists k :: 0 <= k < |instruments| && instruments[k] == x && x.id == id
                && forall j :: k < j < |instruments| ==> instruments[j].id != id
  }

  /** Active, within its period at the instant, and with all its precision fields. */
  predicate Serving(x: Instrument, at: int) {
    && x.active && at != 0
    && (x.validFrom.Some? ==> x.validFrom.value <= at) && (x.validTo.Some? ==> at < x.validTo.value)
    && x.priceScale.Some? && x.quantityScale.Some? && x.lotSize.Some? && x.minQuantity.Some?
  }

  /** The last row of the ID is serving, with this lot size and this minimum quantity. */
  ghost predicate Serves(instruments: seq<Instrument>, id: Id, at: int, precision: Precision) {
    exists x :: IsRow(instruments, id, x) && Serving(x, at)
                && x.lotSize == Some(precision.lotSize) && x.minQuantity == Some(precision.minQuantity)
  }

  ghost predicate ServesNothing(instruments: seq<Instrument>, id: Id, at: int) {
    forall x :: IsRow(instruments, id, x) ==> !Serving(x, at)
  }

  lemma {:induction false} FoundIsRow(instruments: seq<Instrument>, id: Id)
    ensures forall x :: IsRow(instruments, id, x) <==> Found(instruments, id) == Some(x)
  {
    if instruments != [] {
      var n := |instruments| - 1;
      if instruments[n].id == id {
        assert forall x :: IsRow(instruments, id, x) ==> x == instruments[n];
        assert IsRow(instruments, id, instruments[n]);
      } else {
        FoundIsRow(instruments[..n], id);
        forall x
          ensures IsRow(instruments, id, x) <==> IsRow(instruments[..n], id, x)
        {
          ShorterRow(instruments, id, x);
        }
      }
    }
  }

  lemma ShorterRow(instruments: seq<Instrument>, id: Id, x: Instrument)
    requires instruments != [] && instruments[|instruments| - 1].id != id
    ensures IsRow(instruments, id, x) <==> IsRow(instruments[..|instruments| - 1], id, x)
  {
    var before := instruments[..|instruments| - 1];
    if IsRow(instruments, id, x) {
      var k :| 0 <= k < |instruments| && instruments[k] == x && x.id == id
               && forall j :: k < j < |instruments| ==> instruments[j].id != id;
      assert before[k] == x;
    }
    if IsRow(before, id, x) {
      var k :| 0 <= k < |before| && before[k] == x && x.id == id && forall j :: k < j < |before| ==> before[j].id != id;
      assert instruments[k] == x;
    }
  }

  /** A usable ID is one that the rows serve, and its item carries what they say. */
  lemma UsableServes(instruments: seq<Instrument>, id: Id, at: int)
    ensures Usable(instruments, id, at) ==> Serves(instruments, id, at, ItemOf(instruments, id, at).precision)
    ensures !Usable(instruments, id, at) <==> ServesNothing(instruments, id, at)
  {
    FoundIsRow(instruments, id);
    hide IsRow, Found;
    if Usable(instruments, id, at) {
      assert IsRow(instruments, id, Found(instruments, id).value);
    }
  }

  /** There is one answer. */
  lemma ServesOne(instruments: seq<Instrument>, id: Id, at: int, x: Precision, y: Precision)
    requires Serves(instruments, id, at, x) && Serves(instruments, id, at, y)
    ensures x == y
  {
    FoundIsRow(instruments, id);
    hide IsRow, Found;
  }

  /** Every item is what the rows serve for its ID, and every missing ID is one they do not serve. */
  ghost predicate AnswersRows(instruments: seq<Instrument>, at: int, b: Batch) {
    && (forall i :: 0 <= i < |b.items| ==> Serves(instruments, b.items[i].id, at, b.items[i].precision))
    && forall i :: 0 <= i < |b.missing| ==> ServesNothing(instruments, b.missing[i], at)
  }

  /** Main result: a batch answers the lot size and the minimum quantity of the last catalog row of each ID, for exactly
      the requested IDs whose row is active, in force and complete. */
  lemma {:induction false} SplitAnswersRows(instruments: seq<Instrument>, ids: seq<Id>, at: int)
    ensures AnswersRows(instruments, at, Split(instruments, ids, at))
  {
    hide Serves, ServesNothing, Usable;
    if ids != [] {
      SplitAnswersRows(instruments, ids[..|ids| - 1], at);
      UsableServes(instruments, ids[|ids| - 1], at);
    }
  }

  /** Instants that a usable instrument needs: its last update must not be the zero time. */
  predicate Stamped(instruments: seq<Instrument>, id: Id, at: int) {
    Usable(instruments, id, at) ==> Found(instruments, id).value.updatedAt != 0
  }

  /** When a batch succeeds for IDs the catalog answered `instruments` for. */
  predicate Resolvable(instruments: seq<Instrument>, ids: seq<Id>, at: int) {
    && (forall i :: 0 <= i < |instruments| ==> ValidProjection(instruments[i]))
    && forall i :: 0 <= i < |ids| ==> Stamped(instruments, ids[i], at)
  }

  /** `Batch`, for any catalog, however many, few or repeated instruments it answers with. */
  method ResolveBatch(parse: string -> Option<Id>, catalog: seq<Id> -> Result<seq<Instrument>>, now: int,
                      raw: seq<string>)
    returns (r: Result<Batch>)
    ensures var ids := FirstSeen(ParsedIds(parse, raw));
            && (r.Success? <==>
                  && 0 < |raw| <= 100 && AllCanonical(parse, raw)
                  && catalog(ids).Success? && Resolvable(catalog(ids).value, ids, now))
            && (r.Success? ==> r.value == Split(catalog(ids).value, ids, now))
            && (r.Success? ==> AnswersRows(catalog(ids).value, now, r.value))
  {
    var ids :- ParseInput(parse, raw);
    var instruments :- catalog(ids);
    var byId: map<Id, Instrument> := map[];
    for i := 0 to |instruments|
      invariant forall k :: 0 <= k < i ==> ValidProjection(instruments[k])
      invariant forall id :: id in byId ==> Found(instruments[..i], id) == Some(byId[id])
      invariant forall id :: id !in byId ==> Found(instruments[..i], id) == None
    {
      assert instruments[..i + 1][..i] == instruments[..i];
      var instrument := instruments[i];
      if instrument.id == 0 || !instrument.isInstrumentCode {
        return Failure(InvalidData);
      }
      byId := byId[instrument.id := instrument];
    }
    assert instruments[..|instruments|] == instruments;

    var result := Batch([], []);
    for i := 0 to |ids|
      invariant result == Split(instruments, ids[..i], now)
      invariant forall k :: 0 <= k < i ==> Stamped(instruments, ids[k], now)
    {
      assert ids[..i + 1][..i] == ids[..i];
      var id := ids[i];
      if id !in byId || !HasUsablePrecision(byId[id], now) {
        result := Batch(result.items, result.missing + [id]);
        continue;
      }
      var instrument := byId[id];
      FoundHasId(instruments, id);
      if instrument.updatedAt == 0 {
        return Failure(InvalidData);
      }
      var precision := Precision(instrument.lotSize.value, instrument.minQuantity.value);
      result := Batch(result.items + [Item(instrument.id, precision)], result.missing);
    }
    assert ids[..|ids|] == ids;
    SplitAnswersRows(instruments, ids, now);
    return Success(result);
  }

  // ----- The partition -----

  function ItemIds(items: seq<Item>): seq<Id> {
    seq(|items|, i requires 0 <= i < |items| => items[i].id)
  }

  predicate HasItem(b: Batch, id: Id) {
    exists i :: 0 <= i < |b.items| && b.items[i].id == id
  }

  /** A response that answers for every requested ID. */
  predicate Covers(b: Batch, ids: seq<Id>) {
    forall i :: 0 <= i < |ids| ==> ids[i] in b.missing || HasItem(b, ids[i])
  }

  /** `xs` appear in `zs` in the same order. */
  predicate Subsequence(xs: seq<Id>, zs: seq<Id>) {
    xs == [] ||
    (zs != [] &&
     if xs[|xs| - 1] == zs[|zs| - 1] then Subsequence(xs[..|xs| - 1], zs[..|zs| - 1])
     else Subsequence(xs, zs[..|zs| - 1]))
  }

  /** Items and missing IDs split the requested ones exactly, the items being the usable ones: every ID is in one of
      the two and in one only, nothing is added, and each part has no repeats and keeps the request order. */
  ghost predicate Partitions(b: Batch, ids: seq<Id>, usable: Id -> bool) {
    && |b.items| + |b.missing| == |ids|
    && NoRepeats(ItemIds(b.items)) && NoRepeats(b.missing)
    && (forall id :: id in ItemIds(b.items) <==> id in ids && usable(id))
    && (forall id :: id in b.missing <==> id in ids && !usable(id))
    && Subsequence(ItemIds(b.items), ids) && Subsequence(b.missing, ids)
  }

  lemma AddUsable(b: Batch, ids: seq<Id>, usable: Id -> bool, item: Item)
    requires Partitions(b, ids, usable) && item.id !in ids && usable(item.id)
    ensures Partitions(Batch(b.items + [item], b.missing), ids + [item.id], usable)
  {
    assert ItemIds(b.items + [item]) == ItemIds(b.items) + [item.id];
    AppendBoth(ItemIds(b.items), ids, item.id);
    AppendRight(b.missing, ids, item.id);
  }

  lemma AddMissing(b: Batch, ids: seq<Id>, usable: Id -> bool, id: Id)
    requires Partitions(b, ids, usable) && id !in ids && !usable(id)
    ensures Partitions(Batch(b.items, b.missing + [id]), ids + [id], usable)
  {
    AppendBoth(b.missing, ids, id);
    AppendRight(ItemIds(b.items), ids, id);
  }

  lemma AppendBoth(xs: seq<Id>, zs: seq<Id>, z: Id)
    requires Subsequence(xs, zs)
    ensures Subsequence(xs + [z], zs + [z])
  {
    assert (xs + [z])[..|xs|] == xs && (zs + [z])[..|zs|] == zs;
  }

  lemma AppendRight(xs: seq<Id>, zs: seq<Id>, z: Id)
    requires Subsequence(xs, zs) && z !in xs
    ensures Subsequence(xs, zs + [z])
  {
    assert (zs + [z])[..|zs|] == zs;
    assert xs != [] ==> xs[|xs| - 1] in xs;
  }

  /** Main result: for distinct requested IDs, a batch is an exact split of them by usability. */
  lemma {:induction false} BatchPartitions(instruments: seq<Instrument>, ids: seq<Id>, at: int)
    requires NoRepeats(ids)
    ensures Partitions(Split(instruments, ids, at), ids, id => Usable(instruments, id, at))
  {
    var usable := (id: Id) => Usable(instruments, id, at);
    if ids != [] {
      var n, id := |ids| - 1, ids[|ids| - 1];
      BatchPartitions(instruments, ids[..n], at);
      var before := Split(instruments, ids[..n], at);
      assert ids == ids[..n] + [id];
      hide Partitions, NoRepeats, Found;
      if Usable(instruments, id, at) {
        AddUsable(before, ids[..n], usable, ItemOf(instruments, id, at));
      } else {
        AddMissing(before, ids[..n], usable, id);
      }
    }
  }

  /** What the precision cache relies on: a successful batch covers its request, and only its request. */
  lemma BatchCovers(instruments: seq<Instrument>, ids: seq<Id>, at: int)
    requires NoRepeats(ids)
    ensures Covers(Split(instruments, ids, at), ids)
    ensures forall i :: 0 <= i < |Split(instruments, ids, at).items| ==> Split(instruments, ids, at).items[i].id in ids
  {
    BatchPartitions(instruments, ids, at);
    var b := Split(instruments, ids, at);
    hide Split, Usable, Subsequence, NoRepeats;
    forall i | 0 <= i < |b.items|
      ensures b.items[i].id in ids
    {
      assert ItemIds(b.items)[i] == b.items[i].id;
    }
    forall i | 0 <= i < |ids|
      ensures ids[i] in b.missing || HasItem(b, ids[i])
    {
      if ids[i] !in b.missing {
        assert ids[i] in ItemIds(b.items);
        var k :| 0 <= k < |b.items| && ItemIds(b.items)[k] == ids[i];
        assert b.items[k].id == ids[i];
      }
    }
  }
}
