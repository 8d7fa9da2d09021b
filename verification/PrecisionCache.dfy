/** The TTL cache of instrument precision (backend/adapters/market_data/precision_cache.py).

    A lookup runs in atomic steps between its awaits. Everything outside those steps is an input:
    the clock readings, what concurrent callers left in the cache while it waited for the lock, and, for
    each batch request, the response and which entries were invalidated meanwhile. */
module PrecisionCache {
  import opened Common
  import opened Domain
  import opened PrecisionBatch

  const MAX_BATCH_SIZE: nat := 100

  /** `value` is missing when the catalog was last seen not to have the instrument. */
  datatype Entry = Entry(value: Option<Precision>, fetchedAt: int)

  type Entries = map<Id, Entry>

  /** What happens around one batch request: the response or a failure, the time it was stored, and the
      entries invalidated while it was awaited. */
  datatype Answer = Answer(response: Result<Batch>, fetchedAt: int, invalidated: set<Id>)

  /** What the world does to one lookup. Requests are numbered from 0. */
  datatype World = World(now: int, atLock: Entries, nowAtLock: int, answer: (nat, seq<Id>) -> Answer)

  predicate IsFresh(ttl: int, e: Entry, now: int) {
    now - e.fetchedAt < ttl
  }

  predicate FreshIn(ttl: int, entries: Entries, id: Id, now: int) {
    id in entries && IsFresh(ttl, entries[id], now)
  }

  // ----- Storing a response -----

  function StoreItems(entries: Entries, items: seq<Item>, fetchedAt: int): Entries {
    if items == [] then entries
    else
      StoreItems(entries, items[..|items| - 1], fetchedAt)
        [items[|items| - 1].id := Entry(Some(items[|items| - 1].precision), fetchedAt)]
  }

  function StoreMissing(entries: Entries, ids: seq<Id>, fetchedAt: int): Entries {
    if ids == [] then entries
    else StoreMissing(entries, ids[..|ids| - 1], fetchedAt)[ids[|ids| - 1] := Entry(None, fetchedAt)]
  }

  function Store(entries: Entries, b: Batch, fetchedAt: int): Entries {
    StoreMissing(StoreItems(entries, b.items, fetchedAt), b.missing, fetchedAt)
  }

  /** The response lists the ID, as an item or as missing. */
  predicate Mentions(b: Batch, id: Id) {
    id in b.missing || HasItem(b, id)
  }

  predicate Offers(b: Batch, id: Id, value: Precision) {
    exists i :: 0 <= i < |b.items| && b.items[i] == Item(id, value)
  }

  lemma {:induction false} StoredItems(entries: Entries, items: seq<Item>, fetchedAt: int, id: Id)
    ensures var after, b := StoreItems(entries, items, fetchedAt), Batch(items, []);
            && (HasItem(b, id) ==>
                  id in after && after[id].fetchedAt == fetchedAt && after[id].value.Some?
                    && Offers(b, id, after[id].value.value))
            && (!HasItem(b, id) ==> (id in after <==> id in entries) && (id in after ==> after[id] == entries[id]))
  {
    if items != [] {
      var n, b := |items| - 1, Batch(items, []);
      StoredItems(entries, items[..n], fetchedAt, id);
      var before := Batch(items[..n], []);
      if items[n].id == id {
        assert b.items[n] == Item(id, items[n].precision);
      } else if HasItem(before, id) {
        var i :| 0 <= i < n && before.items[i].id == id;
        assert b.items[i].id == id;
        var k :| 0 <= k < n && before.items[k] == Item(id, StoreItems(entries, items[..n], fetchedAt)[id].value.value);
        assert b.items[k] == before.items[k];
      } else if HasItem(b, id) {
        LastItem(items, id);
      }
    }
  }

  lemma LastItem(items: seq<Item>, id: Id)
    requires items != [] && HasItem(Batch(items, []), id)
    ensures items[|items| - 1].id == id || HasItem(Batch(items[..|items| - 1], []), id)
  {
    var n, before := |items| - 1, Batch(items[..|items| - 1], []);
    var i :| 0 <= i < |items| && Batch(items, []).items[i].id == id;
    assert i < n ==> before.items[i].id == id;
  }

  lemma {:induction false} StoredMissing(entries: Entries, ids: seq<Id>, fetchedAt: int, id: Id)
    ensures var after := StoreMissing(entries, ids, fetchedAt);
            if id in ids then id in after && after[id] == Entry(None, fetchedAt)
            else (id in after <==> id in entries) && (id in after ==> after[id] == entries[id])
  {
    if ids != [] {
      StoredMissing(entries, ids[..|ids| - 1], fetchedAt, id);
    }
  }

  /** After a response is stored, an entry it mentions is its own, and any other is what it was. */
  lemma Stored(entries: Entries, b: Batch, fetchedAt: int, id: Id)
    ensures var after := Store(entries, b, fetchedAt);
            && (Mentions(b, id) ==> id in after && after[id].fetchedAt == fetchedAt)
            && (id in b.missing ==> after[id].value.None?)
            && (Mentions(b, id) && after[id].value.Some? ==> id !in b.missing && Offers(b, id, after[id].value.value))
            && (!Mentions(b, id) ==> (id in after <==> id in entries) && (id in after ==> after[id] == entries[id]))
  {
    StoredItems(entries, b.items, fetchedAt, id);
    StoredMissing(StoreItems(entries, b.items, fetchedAt), b.missing, fetchedAt, id);
    hide StoreItems, StoreMissing;
    var alone := Batch(b.items, []);
    if HasItem(b, id) {
      var i :| 0 <= i < |b.items| && b.items[i].id == id;
      assert alone.items[i].id == id;
    }
    if HasItem(alone, id) {
      var i :| 0 <= i < |b.items| && alone.items[i].id == id;
      assert b.items[i].id == id;
      var value := StoreItems(entries, b.items, fetchedAt)[id].value.value;
      var k :| 0 <= k < |b.items| && alone.items[k] == Item(id, value);
      assert b.items[k] == Item(id, value);
    }
  }

  // ----- A lookup in steps -----

  /** The cached values of the first IDs, and the IDs left to fetch; a fresh negative entry raises. */
  datatype Hits = Hits(values: map<Id, Precision>, toFetch: seq<Id>)

  function HitsOf(ttl: int, entries: Entries, ids: seq<Id>, now: int): Result<Hits> {
    if ids == [] then Success(Hits(map[], []))
    else
      match HitsOf(ttl, entries, ids[..|ids| - 1], now)
      case Failure(error) => Failure(error)
      case Success(h) =>
        var id := ids[|ids| - 1];
        if !FreshIn(ttl, entries, id, now) then Success(Hits(h.values, h.toFetch + [id]))
        else if entries[id].value.None? then Failure(PrecisionUnavailable)
        else Success(Hits(h.values[id := entries[id].value.value], h.toFetch))
  }

  /** The IDs that are still not fresh once the lock is held. */
  function StillToFetch(ttl: int, entries: Entries, ids: seq<Id>, now: int): seq<Id> {
    if ids == [] then []
    else
      var before, id := StillToFetch(ttl, entries, ids[..|ids| - 1], now), ids[|ids| - 1];
      if FreshIn(ttl, entries, id, now) then before else before + [id]
  }

  function ChunkCount(ids: seq<Id>): nat {
    (|ids| + MAX_BATCH_SIZE - 1) / MAX_BATCH_SIZE
  }

  function Chunk(ids: seq<Id>, c: nat): seq<Id> {
    var start := c * MAX_BATCH_SIZE;
    if start >= |ids| then []
    else if start + MAX_BATCH_SIZE <= |ids| then ids[start..start + MAX_BATCH_SIZE]
    else ids[start..]
  }

  /** The cache after the first requests, and whether one of them failed. */
  datatype Progress = Progress(entries: Entries, failed: bool)

  function Requested(w: World, ids: seq<Id>, n: nat): Progress {
    if n == 0 then Progress(w.atLock, false)
    else
      var before := Requested(w, ids, n - 1);
      if before.failed then before
      else
        var a := w.answer(n - 1, Chunk(ids, n - 1));
        var kept := before.entries - a.invalidated;
        if a.response.Failure? then Progress(kept, true)
        else Progress(Store(kept, a.response.value, a.fetchedAt), false)
  }

  /** Reading the fetched IDs back from the cache. */
  function Collected(entries: Entries, values: map<Id, Precision>, ids: seq<Id>): Result<map<Id, Precision>> {
    if ids == [] then Success(values)
    else
      match Collected(entries, values, ids[..|ids| - 1])
      case Failure(error) => Failure(error)
      case Success(found) =>
        var id := ids[|ids| - 1];
        if id !in entries || entries[id].value.None? then Failure(PrecisionUnavailable)
        else Success(found[id := entries[id].value.value])
  }

  /** What a lookup answers, and the cache it leaves. */
  datatype Outcome = Outcome(answer: Result<map<Id, Precision>>, entries: Entries)

  function OutcomeOf(ttl: int, entries: Entries, w: World, requested: seq<Id>): Outcome {
    var hits := HitsOf(ttl, entries, FirstSeen(requested), w.now);
    if hits.Failure? then Outcome(Failure(hits.error), entries)
    else if hits.value.toFetch == [] then Outcome(Success(hits.value.values), entries)
    else
      var ids := StillToFetch(ttl, w.atLock, hits.value.toFetch, w.nowAtLock);
      var done := Requested(w, ids, ChunkCount(ids));
      if done.failed then Outcome(Failure(PrecisionUnavailable), done.entries)
      else Outcome(Collected(done.entries, hits.value.values, hits.value.toFetch), done.entries)
  }

  // ----- The cache -----

  lemma {:induction false} HitFailureSticks(ttl: int, entries: Entries, ids: seq<Id>, now: int, k: nat)
    requires k <= |ids| && HitsOf(ttl, entries, ids[..k], now).Failure?
    ensures HitsOf(ttl, entries, ids, now) == HitsOf(ttl, entries, ids[..k], now)
    decreases |ids|
  {
    if k < |ids| {
      assert ids[..|ids| - 1][..k] == ids[..k];
      HitFailureSticks(ttl, entries, ids[..|ids| - 1], now, k);
    } else {
      assert ids[..k] == ids;
    }
  }

  lemma {:induction false} CollectFailureSticks(entries: Entries, values: map<Id, Precision>, ids: seq<Id>, k: nat)
    requires k <= |ids| && Collected(entries, values, ids[..k]).Failure?
    ensures Collected(entries, values, ids) == Collected(entries, values, ids[..k])
    decreases |ids|
  {
    if k < |ids| {
      assert ids[..|ids| - 1][..k] == ids[..k];
      CollectFailureSticks(entries, values, ids[..|ids| - 1], k);
    } else {
      assert ids[..k] == ids;
    }
  }

  lemma {:induction false} RequestFailureSticks(w: World, ids: seq<Id>, m: nat, n: nat)
    requires m <= n && Requested(w, ids, m).failed
    ensures Requested(w, ids, n) == Requested(w, ids, m)
    decreases n
  {
    if m < n {
      RequestFailureSticks(w, ids, m, n - 1);
    }
  }

  lemma RequestedStart(w: World, ids: seq<Id>)
    ensures Requested(w, ids, 0) == Progress(w.atLock, false)
  {
  }

  lemma RequestedStep(w: World, ids: seq<Id>, n: nat)
    requires !Requested(w, ids, n).failed
    ensures var a, kept := w.answer(n, Chunk(ids, n)),
                           Requested(w, ids, n).entries - w.answer(n, Chunk(ids, n)).invalidated;
            Requested(w, ids, n + 1)
            == if a.response.Failure? then Progress(kept, true)
               else Progress(Store(kept, a.response.value, a.fetchedAt), false)
  {
    hide Chunk, Store;
  }

  class Cache {
    var entries: Entries
    const ttl: int

    constructor (ttl: int)
      ensures entries == map[] && this.ttl == ttl
    {
      this.ttl := ttl;
      entries := map[];
    }

    /** The lookup before the lock: one clock reading, no change. */
    method ReadCached(ids: seq<Id>, now: int) returns (r: Result<Hits>)
      ensures r == HitsOf(ttl, entries, ids, now)
    {
      var values: map<Id, Precision>, toFetch: seq<Id> := map[], [];
      for i := 0 to |ids|
        invariant HitsOf(ttl, entries, ids[..i], now) == Success(Hits(values, toFetch))
      {
        assert ids[..i + 1][..i] == ids[..i];
        var id := ids[i];
        if id !in entries || now - entries[id].fetchedAt >= ttl {
          toFetch := toFetch + [id];
          continue;
        }
        if entries[id].value.None? {
          HitFailureSticks(ttl, entries, ids, now, i + 1);
          return Failure(PrecisionUnavailable);
        }
        values := values[id := entries[id].value.value];
      }
      assert ids[..|ids|] == ids;
      return Success(Hits(values, toFetch));
    }

    /** The re-check under the lock, at the second clock reading. */
    method Recheck(toFetch: seq<Id>, now: int) returns (still: seq<Id>)
      ensures still == StillToFetch(ttl, entries, toFetch, now)
    {
      still := [];
      for i := 0 to |toFetch|
        invariant still == StillToFetch(ttl, entries, toFetch[..i], now)
      {
        assert toFetch[..i + 1][..i] == toFetch[..i];
        if toFetch[i] !in entries || now - entries[toFetch[i]].fetchedAt >= ttl {
          still := still + [toFetch[i]];
        }
      }
      assert toFetch[..|toFetch|] == toFetch;
    }

    method StoreBatch(b: Batch, fetchedAt: int)
      modifies this`entries
      ensures entries == Store(old(entries), b, fetchedAt)
    {
      for i := 0 to |b.items|
        invariant entries == StoreItems(old(entries), b.items[..i], fetchedAt)
      {
        assert b.items[..i + 1][..i] == b.items[..i];
        entries := entries[b.items[i].id := Entry(Some(b.items[i].precision), fetchedAt)];
      }
      assert b.items[..|b.items|] == b.items;
      ghost var stored := entries;
      for i := 0 to |b.missing|
        invariant entries == StoreMissing(stored, b.missing[..i], fetchedAt)
      {
        assert b.missing[..i + 1][..i] == b.missing[..i];
        entries := entries[b.missing[i] := Entry(None, fetchedAt)];
      }
      assert b.missing[..|b.missing|] == b.missing;
    }

    method Collect(values: map<Id, Precision>, toFetch: seq<Id>) returns (r: Result<map<Id, Precision>>)
      ensures r == Collected(entries, values, toFetch)
    {
      var found := values;
      for i := 0 to |toFetch|
        invariant Collected(entries, values, toFetch[..i]) == Success(found)
      {
        assert toFetch[..i + 1][..i] == toFetch[..i];
        var id := toFetch[i];
        if id !in entries || entries[id].value.None? {
          CollectFailureSticks(entries, values, toFetch, i + 1);
          return Failure(PrecisionUnavailable);
        }
        found := found[id := entries[id].value.value];
      }
      assert toFetch[..|toFetch|] == toFetch;
      return Success(found);
    }

    /** The requests made while holding the lock, chunk by chunk. */
    method Refresh(w: World, ids: seq<Id>) returns (ok: bool)
      requires entries == w.atLock
      modifies this`entries
      ensures Progress(entries, !ok) == Requested(w, ids, ChunkCount(ids))
    {
      hide Requested, Store;
      RequestedStart(w, ids);
      var start, c := 0, 0;
      while start < |ids|
        invariant start == c * MAX_BATCH_SIZE && c <= ChunkCount(ids) && (start >= |ids| ==> c == ChunkCount(ids))
        invariant Requested(w, ids, c) == Progress(entries, false)
        decreases |ids| - start
      {
        var chunk := if start + MAX_BATCH_SIZE <= |ids| then ids[start..start + MAX_BATCH_SIZE] else ids[start..];
        assert chunk == Chunk(ids, c);
        RequestedStep(w, ids, c);
        var a := w.answer(c, chunk);
        entries := entries - a.invalidated;
        if a.response.Failure? {
          RequestFailureSticks(w, ids, c + 1, ChunkCount(ids));
          return false;
        }
        StoreBatch(a.response.value, a.fetchedAt);
        start, c := start + MAX_BATCH_SIZE, c + 1;
      }
      return true;
    }

    /** `get_many`. */
    method GetMany(requested: seq<Id>, w: World) returns (r: Result<map<Id, Precision>>)
      modifies this`entries
      ensures Outcome(r, entries) == OutcomeOf(ttl, old(entries), w, requested)
    {
      if requested == [] {
        return Success(map[]);
      }
      var unique := Deduplicate(requested);
      var hits := ReadCached(unique, w.now);
      if hits.Failure? {
        return Failure(hits.error);
      }
      if hits.value.toFetch == [] {
        return Success(hits.value.values);
      }
      entries := w.atLock;
      var still := Recheck(hits.value.toFetch, w.nowAtLock);
      var ok := Refresh(w, still);
      if !ok {
        return Failure(PrecisionUnavailable);
      }
      r := Collect(hits.value.values, hits.value.toFetch);
    }

    /** `invalidate`: one entry, or all. */
    method Invalidate(id: Option<Id>)
      modifies this`entries
      ensures entries == if id.None? then map[] else old(entries) - {id.value}
    {
      if id.None? {
        entries := map[];
      } else {
        entries := entries - {id.value};
      }
    }
  }

  method Deduplicate(ids: seq<Id>) returns (unique: seq<Id>)
    ensures unique == FirstSeen(ids)
  {
    unique := [];
    for i := 0 to |ids|
      invariant unique == FirstSeen(ids[..i])
    {
      assert ids[..i + 1][..i] == ids[..i];
      if ids[i] !in unique {
        unique := unique + [ids[i]];
      }
    }
    assert ids[..|ids|] == ids;
  }

  // ----- What a lookup is made of -----

  lemma {:induction false} HitsSplit(ttl: int, entries: Entries, ids: seq<Id>, now: int)
    requires NoRepeats(ids)
    ensures HitsOf(ttl, entries, ids, now).Failure? <==>
            exists i :: 0 <= i < |ids| && FreshIn(ttl, entries, ids[i], now) && entries[ids[i]].value.None?
    ensures var h := HitsOf(ttl, entries, ids, now);
            h.Success? ==>
              && NoRepeats(h.value.toFetch)
              && (forall id :: id in h.value.toFetch <==> id in ids && !FreshIn(ttl, entries, id, now))
              && (forall id :: id in h.value.values <==> id in ids && FreshIn(ttl, entries, id, now))
              && (forall id :: id in h.value.values ==> entries[id].value == Some(h.value.values[id]))
  {
    if ids != [] {
      HitsSplit(ttl, entries, ids[..|ids| - 1], now);
      hide FreshIn;
      assert ids[|ids| - 1] !in ids[..|ids| - 1];
    }
  }

  lemma {:induction false} StillSplit(ttl: int, entries: Entries, ids: seq<Id>, now: int)
    requires NoRepeats(ids)
    ensures var still := StillToFetch(ttl, entries, ids, now);
            NoRepeats(still) && forall id :: id in still <==> id in ids && !FreshIn(ttl, entries, id, now)
  {
    if ids != [] {
      StillSplit(ttl, entries, ids[..|ids| - 1], now);
      hide FreshIn;
      assert ids[|ids| - 1] !in ids[..|ids| - 1];
    }
  }

  /** The chunks of a list are nonempty slices of at most 100 IDs that follow one another from its start to its end. */
  lemma ChunksTile(ids: seq<Id>, c: nat)
    requires c < ChunkCount(ids)
    ensures 1 <= |Chunk(ids, c)| <= 100
    ensures c * 100 + |Chunk(ids, c)| <= |ids|
    ensures Chunk(ids, c) == ids[c * 100..c * 100 + |Chunk(ids, c)|]
    ensures c * 100 + |Chunk(ids, c)| == if c + 1 == ChunkCount(ids) then |ids| else (c + 1) * 100
  {
  }

  lemma ChunkOf(ids: seq<Id>, i: nat) returns (c: nat)
    requires i < |ids|
    ensures c < ChunkCount(ids) && ids[i] in Chunk(ids, c)
  {
    c := i / MAX_BATCH_SIZE;
    ChunksTile(ids, c);
    assert Chunk(ids, c)[i - c * MAX_BATCH_SIZE] == ids[i];
  }

  lemma ChunksDisjoint(ids: seq<Id>, c: nat, c': nat, id: Id)
    requires NoRepeats(ids) && c < c' < ChunkCount(ids) && id in Chunk(ids, c)
    ensures id !in Chunk(ids, c')
  {
    ChunksTile(ids, c);
    ChunksTile(ids, c');
    hide Chunk, ChunkCount;
    var i :| 0 <= i < |Chunk(ids, c)| && Chunk(ids, c)[i] == id;
    forall j | 0 <= j < |Chunk(ids, c')|
      ensures Chunk(ids, c')[j] != id
    {
      assert ids[c * MAX_BATCH_SIZE + i] != ids[c' * MAX_BATCH_SIZE + j];
    }
  }

  // ----- Freshness -----

  /** Some response among the first n mentions the ID. */
  ghost predicate Mentioned(w: World, ids: seq<Id>, n: nat, id: Id) {
    exists c :: 0 <= c < n && ResponseMentions(w, ids, c, id)
  }

  ghost predicate ResponseMentions(w: World, ids: seq<Id>, c: nat, id: Id) {
    var response := w.answer(c, Chunk(ids, c)).response;
    response.Success? && Mentions(response.value, id)
  }

  ghost predicate ResponseOffers(w: World, ids: seq<Id>, c: nat, id: Id, value: Precision) {
    var response := w.answer(c, Chunk(ids, c)).response;
    response.Success? && Offers(response.value, id, value)
  }

  /** The value came with one of the first n responses. */
  ghost predicate Fetched(w: World, ids: seq<Id>, n: nat, id: Id, value: Precision) {
    exists c :: 0 <= c < n && ResponseOffers(w, ids, c, id, value)
  }

  /** While the lock is held, a surviving entry is the one found at the lock, unless a response mentions it,
      and then its value is a response's. */
  lemma {:induction false} EntryOrigin(w: World, ids: seq<Id>, n: nat, id: Id)
    requires !Requested(w, ids, n).failed && id in Requested(w, ids, n).entries
    ensures var e := Requested(w, ids, n).entries[id];
            if Mentioned(w, ids, n, id) then e.value.Some? ==> Fetched(w, ids, n, id, e.value.value)
            else id in w.atLock && w.atLock[id] == e
  {
    hide Mentions, Offers, Store, Chunk;
    if n > 0 {
      var a := w.answer(n - 1, Chunk(ids, n - 1));
      var kept := Requested(w, ids, n - 1).entries - a.invalidated;
      Stored(kept, a.response.value, a.fetchedAt, id);
      if Mentions(a.response.value, id) {
        assert ResponseMentions(w, ids, n - 1, id);
        var e := Requested(w, ids, n).entries[id];
        assert e.value.Some? ==> ResponseOffers(w, ids, n - 1, id, e.value.value);
      } else {
        EntryOrigin(w, ids, n - 1, id);
      }
    }
  }

  lemma {:induction false} CollectedValues(entries: Entries, values: map<Id, Precision>, ids: seq<Id>)
    requires NoRepeats(ids) && forall id :: id in ids ==> id !in values
    ensures Collected(entries, values, ids).Failure? <==>
            exists i :: 0 <= i < |ids| && (ids[i] !in entries || entries[ids[i]].value.None?)
    ensures var r := Collected(entries, values, ids);
            r.Success? ==>
              && (forall id :: id in r.value <==> id in values || id in ids)
              && (forall id :: id in values ==> r.value[id] == values[id])
              && (forall id :: id in ids ==> id in entries && entries[id].value == Some(r.value[id]))
  {
    if ids != [] {
      CollectedValues(entries, values, ids[..|ids| - 1]);
      assert ids[|ids| - 1] !in ids[..|ids| - 1];
    }
  }

  /** The IDs of a lookup that are fetched. */
  ghost function FetchedIds(ttl: int, entries: Entries, w: World, requested: seq<Id>): seq<Id>
    requires HitsOf(ttl, entries, FirstSeen(requested), w.now).Success?
  {
    StillToFetch(ttl, w.atLock, HitsOf(ttl, entries, FirstSeen(requested), w.now).value.toFetch, w.nowAtLock)
  }

  /** An ID is fetched exactly when its entry is missing or as old as its time to live, both at the first reading and
      again at the lock. */
  lemma FetchedExactly(ttl: int, entries: Entries, w: World, requested: seq<Id>, id: Id)
    requires HitsOf(ttl, entries, FirstSeen(requested), w.now).Success?
    ensures id in FetchedIds(ttl, entries, w, requested)
            <==> && id in requested && (id in entries ==> w.now - entries[id].fetchedAt >= ttl)
                 && (id in w.atLock ==> w.nowAtLock - w.atLock[id].fetchedAt >= ttl)
  {
    FirstSeenKeepsAll(requested);
    HitsSplit(ttl, entries, FirstSeen(requested), w.now);
    StillSplit(ttl, w.atLock, HitsOf(ttl, entries, FirstSeen(requested), w.now).value.toFetch, w.nowAtLock);
    hide HitsOf, StillToFetch, FirstSeen, NoRepeats;
  }

  /** The value was under its time to live at a clock reading that tested it, or came with a response. */
  ghost predicate Honest(ttl: int, entries: Entries, w: World, ids: seq<Id>, id: Id, value: Precision) {
    || (FreshIn(ttl, entries, id, w.now) && entries[id].value == Some(value))
    || (FreshIn(ttl, w.atLock, id, w.nowAtLock) && w.atLock[id].value == Some(value))
    || Fetched(w, ids, ChunkCount(ids), id, value)
  }

  /** Main result: a lookup that succeeds answers for exactly the requested IDs, and every value is honest,
      except an ID that had to be fetched and that no response mentions: that one is answered from an expired entry. */
  lemma AnswersAreHonest(ttl: int, entries: Entries, w: World, requested: seq<Id>)
    requires OutcomeOf(ttl, entries, w, requested).answer.Success?
    ensures HitsOf(ttl, entries, FirstSeen(requested), w.now).Success?
    ensures var r, ids := OutcomeOf(ttl, entries, w, requested).answer.value, FetchedIds(ttl, entries, w, requested);
            && (forall id :: id in r <==> id in requested)
            && (forall id :: id in r && (id in ids ==> Mentioned(w, ids, ChunkCount(ids), id)) ==>
                  Honest(ttl, entries, w, ids, id, r[id]))
            && (forall id :: id in r && id in ids && !Mentioned(w, ids, ChunkCount(ids), id) ==>
                  && id in w.atLock && !IsFresh(ttl, w.atLock[id], w.nowAtLock) && w.atLock[id].value == Some(r[id]))
  {
    FirstSeenKeepsAll(requested);
    HitsSplit(ttl, entries, FirstSeen(requested), w.now);
    var h := HitsOf(ttl, entries, FirstSeen(requested), w.now).value;
    var ids := FetchedIds(ttl, entries, w, requested);
    StillSplit(ttl, w.atLock, h.toFetch, w.nowAtLock);
    var r := OutcomeOf(ttl, entries, w, requested).answer.value;
    var n := ChunkCount(ids);
    hide HitsOf, StillToFetch, Requested, Collected, FirstSeen, NoRepeats, ChunkCount, Mentioned, Fetched;
    if h.toFetch != [] {
      var after := Requested(w, ids, n).entries;
      CollectedValues(after, h.values, h.toFetch);
      forall id | id in h.toFetch
        ensures id in ids ==> Mentioned(w, ids, n, id) ==> Fetched(w, ids, n, id, r[id])
        ensures !Mentioned(w, ids, n, id) ==> id in w.atLock && w.atLock[id].value == Some(r[id])
        ensures Mentioned(w, ids, n, id) ==> Fetched(w, ids, n, id, r[id])
      {
        EntryOrigin(w, ids, n, id);
      }
    }
  }

  lemma OffersMentions(w: World, ids: seq<Id>, n: nat, id: Id, value: Precision)
    requires Fetched(w, ids, n, id, value)
    ensures Mentioned(w, ids, n, id)
  {
    var c :| 0 <= c < n && ResponseOffers(w, ids, c, id, value);
    var b := w.answer(c, Chunk(ids, c)).response.value;
    var i :| 0 <= i < |b.items| && b.items[i] == Item(id, value);
    assert b.items[i].id == id;
    assert ResponseMentions(w, ids, c, id);
  }

  /** The exact condition: a value of a successful lookup is honest if and only if its ID needed no fetch or some
      response mentions it. */
  lemma HonestExactlyWhenMentioned(ttl: int, entries: Entries, w: World, requested: seq<Id>, id: Id)
    requires OutcomeOf(ttl, entries, w, requested).answer.Success? && id in requested
    ensures HitsOf(ttl, entries, FirstSeen(requested), w.now).Success?
    ensures var r, ids := OutcomeOf(ttl, entries, w, requested).answer.value, FetchedIds(ttl, entries, w, requested);
            && id in r
            && (Honest(ttl, entries, w, ids, id, r[id]) <==> id !in ids || Mentioned(w, ids, ChunkCount(ids), id))
  {
    FirstSeenKeepsAll(requested);
    HitsSplit(ttl, entries, FirstSeen(requested), w.now);
    var h := HitsOf(ttl, entries, FirstSeen(requested), w.now).value;
    StillSplit(ttl, w.atLock, h.toFetch, w.nowAtLock);
    var r, ids := OutcomeOf(ttl, entries, w, requested).answer.value, FetchedIds(ttl, entries, w, requested);
    AnswersAreHonest(ttl, entries, w, requested);
    hide OutcomeOf, HitsOf, StillToFetch, FirstSeen, NoRepeats, Mentioned, Fetched, ChunkCount;
    if Fetched(w, ids, ChunkCount(ids), id, r[id]) {
      OffersMentions(w, ids, ChunkCount(ids), id, r[id]);
    }
  }

  /** An ID that the cache knows, at the first reading, to be missing from the catalog. */
  ghost predicate KnownMissing(ttl: int, entries: Entries, now: int, ids: seq<Id>) {
    exists id :: id in ids && FreshIn(ttl, entries, id, now) && entries[id].value.None?
  }

  /** An ID without a positive entry. */
  ghost predicate Lacks(entries: Entries, ids: seq<Id>) {
    exists id :: id in ids && (id !in entries || entries[id].value.None?)
  }

  lemma {:induction false} HitsFailure(ttl: int, entries: Entries, ids: seq<Id>, now: int)
    ensures HitsOf(ttl, entries, ids, now).Failure? <==> KnownMissing(ttl, entries, now, ids)
  {
    hide FreshIn;
    if ids != [] {
      HitsFailure(ttl, entries, ids[..|ids| - 1], now);
      assert ids == ids[..|ids| - 1] + [ids[|ids| - 1]];
    }
  }

  lemma {:induction false} CollectedFailure(entries: Entries, values: map<Id, Precision>, ids: seq<Id>)
    ensures Collected(entries, values, ids).Failure? <==> Lacks(entries, ids)
  {
    if ids != [] {
      CollectedFailure(entries, values, ids[..|ids| - 1]);
      assert ids == ids[..|ids| - 1] + [ids[|ids| - 1]];
    }
  }

  /** Fail-closed, exactly: a lookup raises if and only if a requested ID is known to be missing, or some request
      fails, or an ID to fetch ends up without a positive entry; and what it raises is always the same error. */
  lemma FailsClosedExactly(ttl: int, entries: Entries, w: World, requested: seq<Id>)
    ensures KnownMissing(ttl, entries, w.now, FirstSeen(requested)) <==>
              HitsOf(ttl, entries, FirstSeen(requested), w.now).Failure?
    ensures var outcome := OutcomeOf(ttl, entries, w, requested);
            && (outcome.answer.Failure? ==> outcome.answer == Failure(PrecisionUnavailable))
            && (outcome.answer.Failure? <==>
                if KnownMissing(ttl, entries, w.now, FirstSeen(requested)) then true
                else
                  var toFetch := HitsOf(ttl, entries, FirstSeen(requested), w.now).value.toFetch;
                  var ids := FetchedIds(ttl, entries, w, requested);
                  toFetch != []
                  && (Requested(w, ids, ChunkCount(ids)).failed
                      || Lacks(Requested(w, ids, ChunkCount(ids)).entries, toFetch)))
  {
    hide FirstSeen, HitsOf, KnownMissing, Lacks, Collected, StillToFetch, Requested, ChunkCount;
    HitsFailure(ttl, entries, FirstSeen(requested), w.now);
    var hits := HitsOf(ttl, entries, FirstSeen(requested), w.now);
    if hits.Failure? {
      HitFailureKind(ttl, entries, FirstSeen(requested), w.now);
    } else {
      var ids := FetchedIds(ttl, entries, w, requested);
      var after := Requested(w, ids, ChunkCount(ids)).entries;
      CollectedFailure(after, hits.value.values, hits.value.toFetch);
      CollectedKind(after, hits.value.values, hits.value.toFetch);
    }
  }

  lemma {:induction false} HitFailureKind(ttl: int, entries: Entries, ids: seq<Id>, now: int)
    requires HitsOf(ttl, entries, ids, now).Failure?
    ensures HitsOf(ttl, entries, ids, now) == Failure(PrecisionUnavailable)
  {
    if ids != [] && HitsOf(ttl, entries, ids[..|ids| - 1], now).Failure? {
      HitFailureKind(ttl, entries, ids[..|ids| - 1], now);
    }
  }

  lemma {:induction false} CollectedKind(entries: Entries, values: map<Id, Precision>, ids: seq<Id>)
    ensures Collected(entries, values, ids).Failure? ==>
              Collected(entries, values, ids) == Failure(PrecisionUnavailable)
  {
    if ids != [] {
      CollectedKind(entries, values, ids[..|ids| - 1]);
    }
  }

  /** Every response covers its request. */
  ghost predicate Covering(w: World, ids: seq<Id>) {
    forall c :: 0 <= c < ChunkCount(ids) ==> CoversChunk(w, ids, c)
  }

  ghost predicate CoversChunk(w: World, ids: seq<Id>, c: nat) {
    var response := w.answer(c, Chunk(ids, c)).response;
    response.Success? ==> Covers(response.value, Chunk(ids, c))
  }

  lemma {:induction false} NoFailureSoFar(w: World, ids: seq<Id>, c: nat, n: nat)
    requires c < n && !Requested(w, ids, n).failed
    ensures w.answer(c, Chunk(ids, c)).response.Success?
  {
    hide Chunk, Store;
    if c < n - 1 {
      NoFailureSoFar(w, ids, c, n - 1);
    }
  }

  /** Main result: when every response covers its request, every value of a successful lookup is honest. */
  lemma CoveringIsHonest(ttl: int, entries: Entries, w: World, requested: seq<Id>)
    requires OutcomeOf(ttl, entries, w, requested).answer.Success?
    requires HitsOf(ttl, entries, FirstSeen(requested), w.now).Success?
    requires Covering(w, FetchedIds(ttl, entries, w, requested))
    ensures var r, ids := OutcomeOf(ttl, entries, w, requested).answer.value, FetchedIds(ttl, entries, w, requested);
            && (forall id :: id in r <==> id in requested)
            && (forall id :: id in r ==> Honest(ttl, entries, w, ids, id, r[id]))
  {
    var ids := FetchedIds(ttl, entries, w, requested);
    var r := OutcomeOf(ttl, entries, w, requested).answer.value;
    AnswersAreHonest(ttl, entries, w, requested);
    forall id | id in ids
      ensures Mentioned(w, ids, ChunkCount(ids), id)
    {
      var i :| 0 <= i < |ids| && ids[i] == id;
      var c := ChunkOf(ids, i);
      assert !Requested(w, ids, ChunkCount(ids)).failed;
      NoFailureSoFar(w, ids, c, ChunkCount(ids));
      assert CoversChunk(w, ids, c);
      CoveredIsMentioned(w, ids, c, id);
    }
  }

  lemma CoveredIsMentioned(w: World, ids: seq<Id>, c: nat, id: Id)
    requires CoversChunk(w, ids, c) && w.answer(c, Chunk(ids, c)).response.Success? && id in Chunk(ids, c)
    ensures ResponseMentions(w, ids, c, id)
  {
    var k :| 0 <= k < |Chunk(ids, c)| && Chunk(ids, c)[k] == id;
  }

  /** Coverage is needed: for any expired positive entry and any response that does not mention its ID, the lookup
      succeeds with the expired value. */
  lemma UncoveredAnswersStale(ttl: int, e: Entry, id: Id, now: int, b: Batch)
    requires !IsFresh(ttl, e, now) && e.value.Some? && !Mentions(b, id)
    ensures var entries: Entries := map[id := e];
            var w := World(now, entries, now, (c, chunk) => Answer(Success(b), now, {}));
            OutcomeOf(ttl, entries, w, [id]).answer == Success(map[id := e.value.value])
  {
    var entries: Entries := map[id := e];
    var w := World(now, entries, now, (c, chunk) => Answer(Success(b), now, {}));
    OneExpired(ttl, entries, id, now);
    OneRequest(w, id, b, now);
    Stored(entries, b, now, id);
    var after := Store(entries, b, now);
    OneCollected(after, id);
    hide FirstSeen, HitsOf, StillToFetch, Requested, Store, Collected, ChunkCount, Mentions;
    assert after[id] == e;
  }

  lemma OneExpired(ttl: int, entries: Entries, id: Id, now: int)
    requires !FreshIn(ttl, entries, id, now)
    ensures FirstSeen([id]) == [id]
    ensures HitsOf(ttl, entries, [id], now) == Success(Hits(map[], [id]))
    ensures StillToFetch(ttl, entries, [id], now) == [id]
  {
    FirstSeenOfDistinct([id]);
    assert [id][..0] == [];
    assert [] + [id] == [id];
  }

  lemma OneRequest(w: World, id: Id, b: Batch, now: int)
    requires w.answer(0, Chunk([id], 0)) == Answer(Success(b), now, {})
    ensures ChunkCount([id]) == 1 && Requested(w, [id], 1) == Progress(Store(w.atLock, b, now), false)
  {
    assert w.atLock - {} == w.atLock;
    assert Requested(w, [id], 0) == Progress(w.atLock, false);
  }

  lemma OneCollected(entries: Entries, id: Id)
    requires id in entries && entries[id].value.Some?
    ensures Collected(entries, map[], [id]) == Success(map[id := entries[id].value.value])
  {
    assert [id][..0] == [];
    assert Collected(entries, map[], []) == Success(map[]);
  }

  // ----- Refinement of the direct lookup -----

  /** What the catalog says of each ID. */
  type Catalog = Id -> Option<Precision>

  ghost predicate AgreesWith(entries: Entries, truth: Catalog) {
    forall id :: id in entries ==> entries[id].value == truth(id)
  }

  /** The response tells the truth about whatever it mentions. */
  ghost predicate Truthful(b: Batch, truth: Catalog) {
    && (forall i :: 0 <= i < |b.items| ==> truth(b.items[i].id) == Some(b.items[i].precision))
    && (forall i :: 0 <= i < |b.missing| ==> truth(b.missing[i]) == None)
  }

  /** Asking the catalog for each requested ID, and raising if it lacks one. */
  function DirectLookup(truth: Catalog, requested: seq<Id>): Result<map<Id, Precision>> {
    if exists i :: 0 <= i < |requested| && truth(requested[i]).None? then Failure(PrecisionUnavailable)
    else Success(map id | id in requested && truth(id).Some? :: truth(id).value)
  }

  /** Every response is truthful and covers its request. */
  ghost predicate HonestService(w: World, ids: seq<Id>, truth: Catalog) {
    Covering(w, ids) && forall c :: 0 <= c < ChunkCount(ids) ==> TruthfulChunk(w, ids, c, truth)
  }

  ghost predicate TruthfulChunk(w: World, ids: seq<Id>, c: nat, truth: Catalog) {
    var response := w.answer(c, Chunk(ids, c)).response;
    response.Success? ==> Truthful(response.value, truth)
  }

  lemma TruthfulOffers(b: Batch, truth: Catalog, id: Id, value: Precision)
    requires Truthful(b, truth) && Offers(b, id, value)
    ensures truth(id) == Some(value)
  {
  }

  lemma StoreAgrees(entries: Entries, b: Batch, fetchedAt: int, truth: Catalog)
    requires AgreesWith(entries, truth) && Truthful(b, truth)
    ensures AgreesWith(Store(entries, b, fetchedAt), truth)
  {
    hide Store, Truthful;
    var after := Store(entries, b, fetchedAt);
    forall id | id in after
      ensures after[id].value == truth(id)
    {
      Stored(entries, b, fetchedAt, id);
      if Mentions(b, id) {
        StoredIsTrue(entries, b, fetchedAt, truth, id);
      }
    }
  }

  /** What a truthful response mentions is stored with that truth. */
  lemma StoredIsTrue(entries: Entries, b: Batch, fetchedAt: int, truth: Catalog, id: Id)
    requires Truthful(b, truth) && Mentions(b, id)
    ensures var after := Store(entries, b, fetchedAt);
            id in after && after[id] == Entry(truth(id), fetchedAt)
  {
    hide Store, Truthful;
    Stored(entries, b, fetchedAt, id);
    if id in b.missing {
      MissingIsNone(b, truth, id);
    } else {
      MentionedItemIsSome(entries, b, fetchedAt, id);
      TruthfulOffers(b, truth, id, Store(entries, b, fetchedAt)[id].value.value);
    }
  }

  lemma MissingIsNone(b: Batch, truth: Catalog, id: Id)
    requires Truthful(b, truth) && id in b.missing
    ensures truth(id) == None
  {
  }

  lemma MentionedItemIsSome(entries: Entries, b: Batch, fetchedAt: int, id: Id)
    requires HasItem(b, id) && id !in b.missing
    ensures id in Store(entries, b, fetchedAt) && Store(entries, b, fetchedAt)[id].value.Some?
  {
    StoredItems(entries, b.items, fetchedAt, id);
    StoredMissing(StoreItems(entries, b.items, fetchedAt), b.missing, fetchedAt, id);
    var i :| 0 <= i < |b.items| && b.items[i].id == id;
    assert Batch(b.items, []).items[i].id == id;
  }

  /** Requests to a truthful service keep the cache truthful. */
  lemma {:induction false} RequestsAgree(w: World, ids: seq<Id>, n: nat, truth: Catalog)
    requires AgreesWith(w.atLock, truth) && forall c :: 0 <= c < n ==> TruthfulChunk(w, ids, c, truth)
    ensures AgreesWith(Requested(w, ids, n).entries, truth)
  {
    if n > 0 {
      RequestsAgree(w, ids, n - 1, truth);
      var before, a := Requested(w, ids, n - 1), w.answer(n - 1, Chunk(ids, n - 1));
      assert TruthfulChunk(w, ids, n - 1, truth);
      hide Store, Truthful, Chunk;
      if !before.failed && a.response.Success? {
        StoreAgrees(before.entries - a.invalidated, a.response.value, a.fetchedAt, truth);
      }
    }
  }

  /** No request fails and nothing is invalidated while the lock is held. */
  ghost predicate Undisturbed(w: World, ids: seq<Id>) {
    forall c :: 0 <= c < ChunkCount(ids) ==> QuietChunk(w, ids, c)
  }

  ghost predicate QuietChunk(w: World, ids: seq<Id>, c: nat) {
    var a := w.answer(c, Chunk(ids, c));
    a.response.Success? && a.invalidated == {}
  }

  /** Undisturbed requests succeed, and keep what was there and whatever a response mentions. */
  lemma {:induction false} QuietRequestsKeep(w: World, ids: seq<Id>, n: nat, id: Id)
    requires forall c :: 0 <= c < n ==> QuietChunk(w, ids, c)
    ensures !Requested(w, ids, n).failed
    ensures id in w.atLock || Mentioned(w, ids, n, id) ==> id in Requested(w, ids, n).entries
  {
    hide Store, Chunk, Mentions;
    if n > 0 {
      QuietRequestsKeep(w, ids, n - 1, id);
      assert QuietChunk(w, ids, n - 1);
      var a := w.answer(n - 1, Chunk(ids, n - 1));
      var before := Requested(w, ids, n - 1).entries;
      assert before - a.invalidated == before;
      Stored(before, a.response.value, a.fetchedAt, id);
      if Mentioned(w, ids, n, id) {
        var c :| 0 <= c < n && ResponseMentions(w, ids, c, id);
        if c < n - 1 {
          assert Mentioned(w, ids, n - 1, id);
        }
      }
    }
  }

  lemma CoveredIds(w: World, ids: seq<Id>, id: Id)
    requires Covering(w, ids) && Undisturbed(w, ids) && id in ids
    ensures Mentioned(w, ids, ChunkCount(ids), id)
  {
    var i :| 0 <= i < |ids| && ids[i] == id;
    var c := ChunkOf(ids, i);
    hide Chunk, ChunkCount, Covers;
    assert CoversChunk(w, ids, c) && QuietChunk(w, ids, c);
    CoveredIsMentioned(w, ids, c, id);
  }

  /** Main result: against a service that tells the truth about a catalog and covers every request, starting from
      truthful entries, a lookup never answers anything but the direct lookup's values; when no request fails and
      nothing is invalidated meanwhile it answers exactly what the direct lookup does, refusals included; and the
      entries it leaves are truthful again. */
  lemma CacheRefinesDirectLookup(ttl: int, entries: Entries, w: World, requested: seq<Id>, truth: Catalog)
    requires AgreesWith(entries, truth) && AgreesWith(w.atLock, truth)
    requires HitsOf(ttl, entries, FirstSeen(requested), w.now).Success? ==>
               HonestService(w, FetchedIds(ttl, entries, w, requested), truth)
    ensures var outcome := OutcomeOf(ttl, entries, w, requested);
            && AgreesWith(outcome.entries, truth)
            && (outcome.answer.Success? ==> outcome.answer == DirectLookup(truth, requested))
            && (HitsOf(ttl, entries, FirstSeen(requested), w.now).Success?
                && Undisturbed(w, FetchedIds(ttl, entries, w, requested)) ==>
                  outcome.answer == DirectLookup(truth, requested))
            && (HitsOf(ttl, entries, FirstSeen(requested), w.now).Failure? ==>
                outcome.answer == DirectLookup(truth, requested))
  {
    FirstSeenKeepsAll(requested);
    HitsSplit(ttl, entries, FirstSeen(requested), w.now);
    var unique := FirstSeen(requested);
    var hits := HitsOf(ttl, entries, unique, w.now);
    var outcome := OutcomeOf(ttl, entries, w, requested);
    hide FirstSeen, NoRepeats, HitsOf;
    if hits.Failure? {
      HitFailureKind(ttl, entries, unique, w.now);
      var i :| 0 <= i < |unique| && FreshIn(ttl, entries, unique[i], w.now) && entries[unique[i]].value.None?;
      RequestedNone(truth, requested, unique[i]);
    } else {
      var h := hits.value;
      HitValuesAgree(ttl, entries, truth, h.values);
      if h.toFetch == [] {
        SameMap(truth, requested, h.values);
      } else {
        FetchRefines(ttl, w, h, requested, truth);
      }
    }
  }

  lemma RequestedNone(truth: Catalog, requested: seq<Id>, id: Id)
    requires id in requested && truth(id).None?
    ensures DirectLookup(truth, requested) == Failure(PrecisionUnavailable)
  {
    var i :| 0 <= i < |requested| && requested[i] == id;
    assert truth(requested[i]).None?;
  }

  lemma SameMap(truth: Catalog, requested: seq<Id>, values: map<Id, Precision>)
    requires forall id :: id in values <==> id in requested
    requires forall id :: id in values ==> truth(id) == Some(values[id])
    ensures DirectLookup(truth, requested) == Success(values)
  {
    var direct := map id | id in requested && truth(id).Some? :: truth(id).value;
    assert forall id :: id in requested ==> id in values && truth(id) == Some(values[id]);
    assert forall id :: id in values ==> id in requested && id in direct;
    assert direct == values;
    assert forall i :: 0 <= i < |requested| ==> truth(requested[i]).Some?;
  }

  lemma HitValuesAgree(ttl: int, entries: Entries, truth: Catalog, values: map<Id, Precision>)
    requires AgreesWith(entries, truth)
    requires forall id :: id in values ==> id in entries && entries[id].value == Some(values[id])
    ensures forall id :: id in values ==> truth(id) == Some(values[id])
  {
  }

  /** The part of a lookup that goes to the service. */
  lemma FetchRefines(ttl: int, w: World, h: Hits, requested: seq<Id>, truth: Catalog)
    requires AgreesWith(w.atLock, truth) && NoRepeats(h.toFetch)
    requires forall id :: id in h.values ==> truth(id) == Some(h.values[id])
    requires forall id :: id in h.toFetch ==> id !in h.values
    requires forall id :: id in requested <==> id in h.values || id in h.toFetch
    requires HonestService(w, StillToFetch(ttl, w.atLock, h.toFetch, w.nowAtLock), truth)
    ensures var ids := StillToFetch(ttl, w.atLock, h.toFetch, w.nowAtLock);
            var done := Requested(w, ids, ChunkCount(ids));
            var answer := if done.failed then Failure(PrecisionUnavailable)
                          else Collected(done.entries, h.values, h.toFetch);
            && AgreesWith(done.entries, truth)
            && (answer.Success? || Undisturbed(w, ids) ==> answer == DirectLookup(truth, requested))
  {
    var ids := StillToFetch(ttl, w.atLock, h.toFetch, w.nowAtLock);
    var n := ChunkCount(ids);
    var done := Requested(w, ids, n);
    StillSplit(ttl, w.atLock, h.toFetch, w.nowAtLock);
    RequestsAgree(w, ids, n, truth);
    CollectedValues(done.entries, h.values, h.toFetch);
    hide StillToFetch, Requested, ChunkCount, NoRepeats, DirectLookup, TruthfulChunk, Covering;
    var answer := Collected(done.entries, h.values, h.toFetch);
    hide Collected;
    if !done.failed && answer.Success? {
      SameMap(truth, requested, answer.value);
    } else if Undisturbed(w, ids) {
      forall id | id in h.toFetch
        ensures !done.failed && id in done.entries
      {
        if id in ids {
          CoveredIds(w, ids, id);
        }
        QuietRequestsKeep(w, ids, n, id);
      }
      QuietRequestsKeep(w, ids, n, 0);
      CollectedKind(done.entries, h.values, h.toFetch);
      var i :| 0 <= i < |h.toFetch| && (h.toFetch[i] !in done.entries || done.entries[h.toFetch[i]].value.None?);
      RequestedNone(truth, requested, h.toFetch[i]);
    }
  }

  // ----- Served by the batch query -----

  /** What a table of instruments says of each ID at an instant. */
  function TruthOf(table: seq<Instrument>, at: int): Catalog {
    id => if Usable(table, id, at) then Some(ItemOf(table, id, at).precision) else None
  }

  /** The k-th request is answered by the batch query, from a catalog that finds the table's instrument for each ID
      asked for; or it fails. */
  ghost predicate ServedChunk(w: World, ids: seq<Id>, c: nat, catalog: seq<Id> -> seq<Instrument>,
                              table: seq<Instrument>, at: int) {
    var chunk := Chunk(ids, c);
    var response := w.answer(c, chunk).response;
    response.Success? ==>
      && response.value == Split(catalog(chunk), chunk, at)
      && forall id :: id in chunk ==> Found(catalog(chunk), id) == Found(table, id)
  }

  ghost predicate ServedByBatch(w: World, ids: seq<Id>, catalog: seq<Id> -> seq<Instrument>, table: seq<Instrument>,
                                at: int) {
    forall c :: 0 <= c < ChunkCount(ids) ==> ServedChunk(w, ids, c, catalog, table, at)
  }

  lemma {:induction false} SplitTells(instruments: seq<Instrument>, table: seq<Instrument>, ids: seq<Id>, at: int)
    requires forall id :: id in ids ==> Found(instruments, id) == Found(table, id)
    ensures Truthful(Split(instruments, ids, at), TruthOf(table, at))
  {
    if ids != [] {
      var n := |ids| - 1;
      SplitTells(instruments, table, ids[..n], at);
      assert ids[n] in ids;
      hide Found, HasUsablePrecision;
    }
  }

  lemma ChunkHasNoRepeats(ids: seq<Id>, c: nat)
    requires NoRepeats(ids) && c < ChunkCount(ids)
    ensures NoRepeats(Chunk(ids, c))
  {
    ChunksTile(ids, c);
    hide Chunk, ChunkCount;
    var start, chunk := c * MAX_BATCH_SIZE, Chunk(ids, c);
    forall i, j | 0 <= i < j < |chunk|
      ensures chunk[i] != chunk[j]
    {
      assert chunk[i] == ids[start + i] && chunk[j] == ids[start + j];
    }
  }

  /** A cache whose requests the batch query answers has an honest service. */
  lemma ServedIsHonest(w: World, ids: seq<Id>, catalog: seq<Id> -> seq<Instrument>, table: seq<Instrument>, at: int)
    requires NoRepeats(ids) && ServedByBatch(w, ids, catalog, table, at)
    ensures HonestService(w, ids, TruthOf(table, at))
  {
    hide Chunk, ChunkCount, NoRepeats, Truthful, Covers, Split, TruthOf;
    forall c | 0 <= c < ChunkCount(ids)
      ensures CoversChunk(w, ids, c) && TruthfulChunk(w, ids, c, TruthOf(table, at))
    {
      assert ServedChunk(w, ids, c, catalog, table, at);
      ChunkHasNoRepeats(ids, c);
      if w.answer(c, Chunk(ids, c)).response.Success? {
        BatchCovers(catalog(Chunk(ids, c)), Chunk(ids, c), at);
        SplitTells(catalog(Chunk(ids, c)), table, Chunk(ids, c), at);
      }
    }
  }

  lemma FetchedHasNoRepeats(ttl: int, entries: Entries, w: World, requested: seq<Id>)
    requires HitsOf(ttl, entries, FirstSeen(requested), w.now).Success?
    ensures NoRepeats(FetchedIds(ttl, entries, w, requested))
  {
    FirstSeenKeepsAll(requested);
    HitsSplit(ttl, entries, FirstSeen(requested), w.now);
    StillSplit(ttl, w.atLock, HitsOf(ttl, entries, FirstSeen(requested), w.now).value.toFetch, w.nowAtLock);
  }

  /** The truth of a table is what its rows serve. */
  lemma TruthIsServed(table: seq<Instrument>, at: int, id: Id, p: Precision)
    ensures TruthOf(table, at)(id) == Some(p) <==> Serves(table, id, at, p)
    ensures TruthOf(table, at)(id) == None <==> ServesNothing(table, id, at)
  {
    UsableServes(table, id, at);
    hide Usable, ItemOf;
    if Usable(table, id, at) && Serves(table, id, at, p) {
      ServesOne(table, id, at, p, ItemOf(table, id, at).precision);
    }
    hide IsRow, Serving;
  }

  /** A direct lookup in the table answers what its rows serve, and is refused exactly for an ID they do not serve. */
  lemma DirectIsServed(table: seq<Instrument>, at: int, requested: seq<Id>)
    ensures var direct := DirectLookup(TruthOf(table, at), requested);
            && (direct.Success? ==> forall id :: id in direct.value ==> Serves(table, id, at, direct.value[id]))
            && (direct.Failure? <==> exists i :: 0 <= i < |requested| && ServesNothing(table, requested[i], at))
  {
    var truth, direct := TruthOf(table, at), DirectLookup(TruthOf(table, at), requested);
    hide TruthOf, Serves, ServesNothing;
    forall i | 0 <= i < |requested|
      ensures truth(requested[i]).None? <==> ServesNothing(table, requested[i], at)
    {
      TruthIsServed(table, at, requested[i], Precision(0.0, 0.0));
    }
    if direct.Success? {
      forall id | id in direct.value
        ensures Serves(table, id, at, direct.value[id])
      {
        TruthIsServed(table, at, id, direct.value[id]);
      }
    }
  }

  /** Main result: the cache over the batch query refines looking each ID up in the instrument table: from entries
      that agree with the table it never answers anything but the lot size and minimum quantity of the table's own
      row, refuses exactly what the table cannot serve when no request fails and nothing is invalidated meanwhile, and
      leaves entries that agree again. */
  lemma CacheOverBatchRefinesTable(ttl: int, entries: Entries, w: World, requested: seq<Id>,
                                   catalog: seq<Id> -> seq<Instrument>, table: seq<Instrument>, at: int)
    requires AgreesWith(entries, TruthOf(table, at)) && AgreesWith(w.atLock, TruthOf(table, at))
    requires HitsOf(ttl, entries, FirstSeen(requested), w.now).Success? ==>
               ServedByBatch(w, FetchedIds(ttl, entries, w, requested), catalog, table, at)
    ensures var outcome := OutcomeOf(ttl, entries, w, requested);
            && AgreesWith(outcome.entries, TruthOf(table, at))
            && (outcome.answer.Success? ==> outcome.answer == DirectLookup(TruthOf(table, at), requested))
            && (HitsOf(ttl, entries, FirstSeen(requested), w.now).Success?
                && Undisturbed(w, FetchedIds(ttl, entries, w, requested)) ==>
                  outcome.answer == DirectLookup(TruthOf(table, at), requested))
            && (outcome.answer.Success? ==>
                  forall id :: id in outcome.answer.value ==> Serves(table, id, at, outcome.answer.value[id]))
    ensures DirectLookup(TruthOf(table, at), requested).Failure?
            <==> exists i :: 0 <= i < |requested| && ServesNothing(table, requested[i], at)
  {
    DirectIsServed(table, at, requested);
    hide OutcomeOf, HitsOf, FetchedIds, HonestService, ServedByBatch, DirectLookup, TruthOf, AgreesWith, Undisturbed,
         FirstSeen, NoRepeats;
    if HitsOf(ttl, entries, FirstSeen(requested), w.now).Success? {
      FetchedHasNoRepeats(ttl, entries, w, requested);
      ServedIsHonest(w, FetchedIds(ttl, entries, w, requested), catalog, table, at);
    }
    CacheRefinesDirectLookup(ttl, entries, w, requested, TruthOf(table, at));
  }

  // ----- Coalescing -----

  lemma {:induction false} NoneStill(ttl: int, entries: Entries, ids: seq<Id>, now: int)
    requires forall id :: id in ids ==> FreshIn(ttl, entries, id, now)
    ensures StillToFetch(ttl, entries, ids, now) == []
  {
    if ids != [] {
      NoneStill(ttl, entries, ids[..|ids| - 1], now);
      assert ids[|ids| - 1] in ids;
    }
  }

  /** A lookup that finds everything it needs fresh at the lock sends no request. */
  lemma FreshAtLockSendsNothing(ttl: int, entries: Entries, w: World, requested: seq<Id>)
    requires HitsOf(ttl, entries, FirstSeen(requested), w.now).Success?
    requires forall id :: id in HitsOf(ttl, entries, FirstSeen(requested), w.now).value.toFetch ==>
               FreshIn(ttl, w.atLock, id, w.nowAtLock)
    ensures FetchedIds(ttl, entries, w, requested) == [] && ChunkCount(FetchedIds(ttl, entries, w, requested)) == 0
  {
    hide HitsOf, FreshIn, FirstSeen, StillToFetch;
    NoneStill(ttl, w.atLock, HitsOf(ttl, entries, FirstSeen(requested), w.now).value.toFetch, w.nowAtLock);
  }

  /** While the lock is held, an entry that a response mentions carries the time of one of the responses. */
  lemma {:induction false} EntryTime(w: World, ids: seq<Id>, n: nat, id: Id) returns (c: nat)
    requires !Requested(w, ids, n).failed && id in Requested(w, ids, n).entries && Mentioned(w, ids, n, id)
    ensures c < n && Requested(w, ids, n).entries[id].fetchedAt == w.answer(c, Chunk(ids, c)).fetchedAt
  {
    hide Mentions, Store, Chunk;
    var a := w.answer(n - 1, Chunk(ids, n - 1));
    var kept := Requested(w, ids, n - 1).entries - a.invalidated;
    Stored(kept, a.response.value, a.fetchedAt, id);
    if Mentions(a.response.value, id) {
      c := n - 1;
    } else {
      var k :| 0 <= k < n && ResponseMentions(w, ids, k, id);
      assert k < n - 1;
      c := EntryTime(w, ids, n - 1, id);
    }
  }

  /** Every response of a lookup is under its TTL at an instant. */
  ghost predicate RecentAnswers(ttl: int, w: World, ids: seq<Id>, now: int) {
    forall c :: 0 <= c < ChunkCount(ids) ==> RecentAnswer(ttl, w, ids, c, now)
  }

  ghost predicate RecentAnswer(ttl: int, w: World, ids: seq<Id>, c: nat, now: int) {
    now - w.answer(c, Chunk(ids, c)).fetchedAt < ttl
  }

  lemma FetchedIsFresh(ttl: int, entries: Entries, w: World, requested: seq<Id>, now: int, id: Id)
    requires OutcomeOf(ttl, entries, w, requested).answer.Success?
    requires HitsOf(ttl, entries, FirstSeen(requested), w.now).Success?
    requires Covering(w, FetchedIds(ttl, entries, w, requested))
             && RecentAnswers(ttl, w, FetchedIds(ttl, entries, w, requested), now)
    requires id in FetchedIds(ttl, entries, w, requested)
    ensures FreshIn(ttl, OutcomeOf(ttl, entries, w, requested).entries, id, now)
  {
    var ids := FetchedIds(ttl, entries, w, requested);
    FirstSeenKeepsAll(requested);
    HitsSplit(ttl, entries, FirstSeen(requested), w.now);
    var h := HitsOf(ttl, entries, FirstSeen(requested), w.now).value;
    StillSplit(ttl, w.atLock, h.toFetch, w.nowAtLock);
    var n := ChunkCount(ids);
    hide HitsOf, StillToFetch, Requested, Collected, FirstSeen, NoRepeats, ChunkCount, Mentioned, Covering,
         RecentAnswer;
    var done := Requested(w, ids, n);
    CollectedFailure(done.entries, h.values, h.toFetch);
    assert id in done.entries;
    CoveredInRun(w, ids, id);
    var c := EntryTime(w, ids, n, id);
    assert RecentAnswer(ttl, w, ids, c, now);
    RecentTime(ttl, w, ids, c, now, done.entries[id]);
  }

  lemma RecentTime(ttl: int, w: World, ids: seq<Id>, c: nat, now: int, e: Entry)
    requires RecentAnswer(ttl, w, ids, c, now) && e.fetchedAt == w.answer(c, Chunk(ids, c)).fetchedAt
    ensures IsFresh(ttl, e, now)
  {
  }

  /** When no request failed and every response covers its request, every fetched ID was mentioned. */
  lemma CoveredInRun(w: World, ids: seq<Id>, id: Id)
    requires Covering(w, ids) && !Requested(w, ids, ChunkCount(ids)).failed && id in ids
    ensures Mentioned(w, ids, ChunkCount(ids), id)
  {
    var i :| 0 <= i < |ids| && ids[i] == id;
    var c := ChunkOf(ids, i);
    NoFailureSoFar(w, ids, c, ChunkCount(ids));
    hide Chunk, ChunkCount, Requested;
    assert CoversChunk(w, ids, c);
    CoveredIsMentioned(w, ids, c, id);
  }

  /** Main result: lookups for the same IDs are coalesced behind the lock. A lookup that was waiting while another one
      fetched, and needs only IDs that the other fetched, sends no request, as long as the responses are within the
      TTL. */
  lemma WaitingLookupSendsNothing(ttl: int, entries: Entries, w: World, requested: seq<Id>, entries': Entries,
                                  w': World, requested': seq<Id>)
    requires OutcomeOf(ttl, entries, w, requested).answer.Success?
    requires HitsOf(ttl, entries, FirstSeen(requested), w.now).Success?
             && HitsOf(ttl, entries', FirstSeen(requested'), w'.now).Success?
    requires Covering(w, FetchedIds(ttl, entries, w, requested))
    requires w'.atLock == OutcomeOf(ttl, entries, w, requested).entries
    requires RecentAnswers(ttl, w, FetchedIds(ttl, entries, w, requested), w'.nowAtLock)
    requires forall id :: id in HitsOf(ttl, entries', FirstSeen(requested'), w'.now).value.toFetch ==>
               id in FetchedIds(ttl, entries, w, requested)
    ensures FetchedIds(ttl, entries', w', requested') == []
            && ChunkCount(FetchedIds(ttl, entries', w', requested')) == 0
  {
    hide OutcomeOf, HitsOf, FirstSeen, FetchedIds, FreshIn, Covering, RecentAnswers, ChunkCount;
    forall id | id in HitsOf(ttl, entries', FirstSeen(requested'), w'.now).value.toFetch
      ensures FreshIn(ttl, w'.atLock, id, w'.nowAtLock)
    {
      FetchedIsFresh(ttl, entries, w, requested, w'.nowAtLock, id);
    }
    FreshAtLockSendsNothing(ttl, entries', w', requested');
  }
}
