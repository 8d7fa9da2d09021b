/** Bounded staleness of the precision cache: the instrument table changes while responses travel and entries age, and
    every answer is still one that the table gave not long ago. */
module CacheStaleness {
  import opened Common
  import opened Domain
  import opened PrecisionBatch
  import opened PrecisionCache

  /** What the table says of each ID at every instant. */
  type History = int -> Catalog

  /** The table said so at some instant of the interval. */
  ghost predicate WasSo(truth: History, id: Id, value: Option<Precision>, from: int, to: int) {
    exists t :: from <= t <= to && truth(t)(id) == value
  }

  /** The table said so when the entry was fetched, or at most `delay` before. */
  ghost predicate EntryWasSo(truth: History, delay: nat, id: Id, e: Entry) {
    WasSo(truth, id, e.value, e.fetchedAt - delay, e.fetchedAt)
  }

  ghost predicate EntriesWereSo(truth: History, delay: nat, entries: Entries) {
    forall id :: id in entries ==> EntryWasSo(truth, delay, id, entries[id])
  }

  /** The response tells the truth of an instant at most `delay` before it was stored. */
  ghost predicate ToldInTime(truth: History, delay: nat, b: Batch, fetchedAt: int) {
    exists t :: fetchedAt - delay <= t <= fetchedAt && Truthful(b, truth(t))
  }

  ghost predicate ChunkToldInTime(truth: History, delay: nat, w: World, ids: seq<Id>, c: nat) {
    var a := w.answer(c, Chunk(ids, c));
    a.response.Success? ==> ToldInTime(truth, delay, a.response.value, a.fetchedAt)
  }

  /** Every response covers its request and is in time. */
  ghost predicate TimelyService(truth: History, delay: nat, w: World, ids: seq<Id>) {
    Covering(w, ids) && forall c :: 0 <= c < ChunkCount(ids) ==> ChunkToldInTime(truth, delay, w, ids, c)
  }

  // ----- Entries stay dated truths -----

  lemma StoreWasSo(truth: History, delay: nat, entries: Entries, b: Batch, fetchedAt: int)
    requires EntriesWereSo(truth, delay, entries) && ToldInTime(truth, delay, b, fetchedAt)
    ensures EntriesWereSo(truth, delay, Store(entries, b, fetchedAt))
  {
    var t :| fetchedAt - delay <= t <= fetchedAt && Truthful(b, truth(t));
    hide Store, Truthful, Mentions;
    var after := Store(entries, b, fetchedAt);
    forall id | id in after
      ensures EntryWasSo(truth, delay, id, after[id])
    {
      Stored(entries, b, fetchedAt, id);
      if Mentions(b, id) {
        StoredIsTrue(entries, b, fetchedAt, truth(t), id);
      } else {
        assert EntryWasSo(truth, delay, id, entries[id]);
      }
    }
  }

  lemma {:induction false} RequestsWereSo(truth: History, delay: nat, w: World, ids: seq<Id>, n: nat)
    requires EntriesWereSo(truth, delay, w.atLock)
             && forall c :: 0 <= c < n ==> ChunkToldInTime(truth, delay, w, ids, c)
    ensures EntriesWereSo(truth, delay, Requested(w, ids, n).entries)
  {
    if n > 0 {
      RequestsWereSo(truth, delay, w, ids, n - 1);
      var before, a := Requested(w, ids, n - 1), w.answer(n - 1, Chunk(ids, n - 1));
      assert ChunkToldInTime(truth, delay, w, ids, n - 1);
      hide Store, ToldInTime, Chunk, EntryWasSo;
      if !before.failed && a.response.Success? {
        StoreWasSo(truth, delay, before.entries - a.invalidated, a.response.value, a.fetchedAt);
      }
    }
  }

  // ----- The clock -----

  /** The clock never runs back: nothing was stored later than it is read, and the lookup ends at `end`. */
  ghost predicate ClockRuns(entries: Entries, w: World, ids: seq<Id>, end: int) {
    && w.now <= w.nowAtLock <= end
    && StampedBy(entries, w.now) && StampedBy(w.atLock, w.nowAtLock)
    && forall c :: 0 <= c < ChunkCount(ids) ==> w.nowAtLock <= w.answer(c, Chunk(ids, c)).fetchedAt <= end
  }

  ghost predicate StampedBy(entries: Entries, now: int) {
    forall id :: id in entries ==> entries[id].fetchedAt <= now
  }

  /** The earliest time from which a lookup uses entries. */
  function Oldest(ttl: int, w: World): int {
    if ttl > 0 then w.now - ttl else w.now
  }

  /** An entry read back after the requests was fetched by one of them, or was fresh at the lock. */
  lemma ReadBackIsRecent(ttl: int, entries: Entries, w: World, ids: seq<Id>, id: Id, end: int)
    requires ClockRuns(entries, w, ids, end) && Covering(w, ids)
    requires !Requested(w, ids, ChunkCount(ids)).failed && id in Requested(w, ids, ChunkCount(ids)).entries
    requires id !in ids ==> FreshIn(ttl, w.atLock, id, w.nowAtLock)
    ensures Oldest(ttl, w) <= Requested(w, ids, ChunkCount(ids)).entries[id].fetchedAt <= end
  {
    var n := ChunkCount(ids);
    if id in ids {
      CoveredInRun(w, ids, id);
    }
    hide Requested, ChunkCount, Covering, Mentioned, Chunk;
    if Mentioned(w, ids, n, id) {
      var c := EntryTime(w, ids, n, id);
    } else {
      EntryOrigin(w, ids, n, id);
    }
  }

  lemma ShiftedWasSo(truth: History, delay: nat, id: Id, e: Entry, oldest: int, end: int)
    requires EntryWasSo(truth, delay, id, e) && oldest <= e.fetchedAt <= end
    ensures WasSo(truth, id, e.value, oldest - delay, end)
  {
    var t :| e.fetchedAt - delay <= t <= e.fetchedAt && truth(t)(id) == e.value;
  }

  // ----- Lookups -----

  /** Every answered value is one that the table gave after `from`. */
  ghost predicate ValuesWereSo(truth: History, values: map<Id, Precision>, from: int, to: int) {
    forall id :: id in values ==> WasSo(truth, id, Some(values[id]), from, to)
  }

  /** The table lacked one of the IDs. */
  ghost predicate SomeWasMissing(truth: History, requested: seq<Id>, from: int, to: int) {
    exists id :: id in requested && WasSo(truth, id, None, from, to)
  }

  /** The part of a lookup that goes to the service. */
  lemma FetchIsRecent(ttl: int, entries: Entries, w: World, h: Hits, truth: History, delay: nat, end: int)
    requires EntriesWereSo(truth, delay, w.atLock) && NoRepeats(h.toFetch)
             && forall id :: id in h.toFetch ==> id !in h.values
    requires ValuesWereSo(truth, h.values, Oldest(ttl, w) - delay, end)
    requires var ids := StillToFetch(ttl, w.atLock, h.toFetch, w.nowAtLock);
             TimelyService(truth, delay, w, ids) && ClockRuns(entries, w, ids, end)
    ensures var ids := StillToFetch(ttl, w.atLock, h.toFetch, w.nowAtLock);
            var done := Requested(w, ids, ChunkCount(ids));
            var answer := Collected(done.entries, h.values, h.toFetch);
            && EntriesWereSo(truth, delay, done.entries)
            && (!done.failed && answer.Success? ==> ValuesWereSo(truth, answer.value, Oldest(ttl, w) - delay, end))
            && (Undisturbed(w, ids) ==> !done.failed)
            && (Undisturbed(w, ids) && answer.Failure? ==>
                SomeWasMissing(truth, h.toFetch, Oldest(ttl, w) - delay, end))
  {
    var ids := StillToFetch(ttl, w.atLock, h.toFetch, w.nowAtLock);
    var n := ChunkCount(ids);
    var done := Requested(w, ids, n);
    var answer := Collected(done.entries, h.values, h.toFetch);
    StillSplit(ttl, w.atLock, h.toFetch, w.nowAtLock);
    RequestsWereSo(truth, delay, w, ids, n);
    CollectedValues(done.entries, h.values, h.toFetch);
    hide StillToFetch, Requested, ChunkCount, NoRepeats, ChunkToldInTime, Covering, Collected, ClockRuns, WasSo,
         EntryWasSo, Oldest;
    forall id | id in h.toFetch && !done.failed && id in done.entries
      ensures WasSo(truth, id, done.entries[id].value, Oldest(ttl, w) - delay, end)
    {
      ReadBackIsRecent(ttl, entries, w, ids, id, end);
      ShiftedWasSo(truth, delay, id, done.entries[id], Oldest(ttl, w), end);
    }
    if Undisturbed(w, ids) {
      QuietRequestsKeep(w, ids, n, 0);
      if answer.Failure? {
        var i :| 0 <= i < |h.toFetch| && (h.toFetch[i] !in done.entries || done.entries[h.toFetch[i]].value.None?);
        var id := h.toFetch[i];
        if id in ids {
          CoveredIds(w, ids, id);
        }
        QuietRequestsKeep(w, ids, n, id);
        assert id in h.toFetch && done.entries[id].value == None;
      }
    }
  }

  /** Main result: however the table changes, and though responses are up to `delay` old when they are stored, every
      value a lookup answers is one that the table gave no earlier than the time to live and the delay before the
      lookup; a refused lookup that nothing disturbed asked for an ID that the table lacked in that time; and the
      entries it leaves are dated truths again. */
  lemma AnswersAreRecent(ttl: int, entries: Entries, w: World, requested: seq<Id>, truth: History, delay: nat, end: int)
    requires EntriesWereSo(truth, delay, entries) && EntriesWereSo(truth, delay, w.atLock)
    requires StampedBy(entries, w.now) && w.now <= end
    requires HitsOf(ttl, entries, FirstSeen(requested), w.now).Success? ==>
               var ids := FetchedIds(ttl, entries, w, requested);
               TimelyService(truth, delay, w, ids) && ClockRuns(entries, w, ids, end)
    ensures var outcome := OutcomeOf(ttl, entries, w, requested);
            && EntriesWereSo(truth, delay, outcome.entries)
            && (outcome.answer.Success? ==>
                  && (forall id :: id in outcome.answer.value <==> id in requested)
                  && ValuesWereSo(truth, outcome.answer.value, Oldest(ttl, w) - delay, end))
            && (outcome.answer.Failure?
                && (HitsOf(ttl, entries, FirstSeen(requested), w.now).Success? ==>
                    Undisturbed(w, FetchedIds(ttl, entries, w, requested)))
                ==> SomeWasMissing(truth, requested, Oldest(ttl, w) - delay, end))
  {
    FirstSeenKeepsAll(requested);
    var unique := FirstSeen(requested);
    HitsSplit(ttl, entries, unique, w.now);
    var hits := HitsOf(ttl, entries, unique, w.now);
    var outcome := OutcomeOf(ttl, entries, w, requested);
    if outcome.answer.Success? {
      AnswersAreHonest(ttl, entries, w, requested);
    }
    hide FirstSeen, NoRepeats, HitsOf, WasSo, EntryWasSo, Requested, Collected, StillToFetch, ChunkCount, Honest,
         Mentioned;
    forall id | FreshIn(ttl, entries, id, w.now)
      ensures WasSo(truth, id, entries[id].value, Oldest(ttl, w) - delay, end)
    {
      assert EntryWasSo(truth, delay, id, entries[id]);
      ShiftedWasSo(truth, delay, id, entries[id], Oldest(ttl, w), end);
    }
    if hits.Failure? {
      var i :| 0 <= i < |unique| && FreshIn(ttl, entries, unique[i], w.now) && entries[unique[i]].value.None?;
      assert unique[i] in requested;
    } else {
      assert ValuesWereSo(truth, hits.value.values, Oldest(ttl, w) - delay, end);
      if hits.value.toFetch != [] {
        FetchIsRecent(ttl, entries, w, hits.value, truth, delay, end);
      }
    }
  }

  // ----- Over the batch query -----

  /** The table as it changes. */
  type Tables = int -> seq<Instrument>

  function HistoryOf(tables: Tables): History {
    at => TruthOf(tables(at), at)
  }

  /** The batch query found, for each ID asked for, the instrument that the table had at that instant. */
  ghost predicate AskedAt(tables: Tables, rows: seq<Instrument>, chunk: seq<Id>, b: Batch, at: int) {
    b == Split(rows, chunk, at) && forall id :: id in chunk ==> Found(rows, id) == Found(tables(at), id)
  }

  /** The k-th request is answered by the batch query, at some instant at most `delay` before the response is stored;
      or it fails. */
  ghost predicate ServedInTime(tables: Tables, delay: nat, w: World, ids: seq<Id>, c: nat) {
    var a := w.answer(c, Chunk(ids, c));
    a.response.Success? ==>
      exists rows, at :: a.fetchedAt - delay <= at <= a.fetchedAt
        && AskedAt(tables, rows, Chunk(ids, c), a.response.value, at)
  }

  ghost predicate AllServedInTime(tables: Tables, delay: nat, w: World, ids: seq<Id>) {
    forall c :: 0 <= c < ChunkCount(ids) ==> ServedInTime(tables, delay, w, ids, c)
  }

  lemma ServedIsTimely(tables: Tables, delay: nat, w: World, ids: seq<Id>)
    requires NoRepeats(ids) && AllServedInTime(tables, delay, w, ids)
    ensures TimelyService(HistoryOf(tables), delay, w, ids)
  {
    hide Chunk, ChunkCount, NoRepeats, Truthful, Covers, Split, TruthOf;
    forall c | 0 <= c < ChunkCount(ids)
      ensures CoversChunk(w, ids, c) && ChunkToldInTime(HistoryOf(tables), delay, w, ids, c)
    {
      assert ServedInTime(tables, delay, w, ids, c);
      ChunkHasNoRepeats(ids, c);
      var a, chunk := w.answer(c, Chunk(ids, c)), Chunk(ids, c);
      if a.response.Success? {
        var rows, at :| a.fetchedAt - delay <= at <= a.fetchedAt && AskedAt(tables, rows, chunk, a.response.value, at);
        BatchCovers(rows, chunk, at);
        SplitTells(rows, tables(at), chunk, at);
        assert Truthful(a.response.value, HistoryOf(tables)(at));
      }
    }
  }

  /** The table's row served this at some instant of the interval. */
  ghost predicate RowServed(tables: Tables, id: Id, precision: Precision, from: int, to: int) {
    exists t :: from <= t <= to && Serves(tables(t), id, t, precision)
  }

  lemma ValuesServed(tables: Tables, values: map<Id, Precision>, from: int, to: int)
    requires ValuesWereSo(HistoryOf(tables), values, from, to)
    ensures forall id :: id in values ==> RowServed(tables, id, values[id], from, to)
  {
    hide WasSo, RowServed;
    forall id | id in values
      ensures RowServed(tables, id, values[id], from, to)
    {
      WasServed(tables, id, values[id], from, to);
    }
  }

  lemma WasServed(tables: Tables, id: Id, precision: Precision, from: int, to: int)
    requires WasSo(HistoryOf(tables), id, Some(precision), from, to)
    ensures RowServed(tables, id, precision, from, to)
  {
    var t :| from <= t <= to && HistoryOf(tables)(t)(id) == Some(precision);
    assert HistoryOf(tables)(t) == TruthOf(tables(t), t);
    TruthIsServed(tables(t), t, id, precision);
  }

  /** Main result: the same for the cache over the batch query and an instrument table that changes at any time. */
  lemma CacheOverChangingTable(ttl: int, entries: Entries, w: World, requested: seq<Id>, tables: Tables, delay: nat,
                               end: int)
    requires EntriesWereSo(HistoryOf(tables), delay, entries) && EntriesWereSo(HistoryOf(tables), delay, w.atLock)
    requires StampedBy(entries, w.now) && w.now <= end
    requires HitsOf(ttl, entries, FirstSeen(requested), w.now).Success? ==>
               var ids := FetchedIds(ttl, entries, w, requested);
               AllServedInTime(tables, delay, w, ids) && ClockRuns(entries, w, ids, end)
    ensures var outcome, truth := OutcomeOf(ttl, entries, w, requested), HistoryOf(tables);
            && EntriesWereSo(truth, delay, outcome.entries)
            && (outcome.answer.Success? ==>
                  && (forall id :: id in outcome.answer.value <==> id in requested)
                  && (forall id :: id in outcome.answer.value ==>
                        RowServed(tables, id, outcome.answer.value[id], Oldest(ttl, w) - delay, end)))
            && (outcome.answer.Failure?
                && (HitsOf(ttl, entries, FirstSeen(requested), w.now).Success? ==>
                    Undisturbed(w, FetchedIds(ttl, entries, w, requested)))
                ==> SomeWasMissing(truth, requested, Oldest(ttl, w) - delay, end))
  {
    hide OutcomeOf, HitsOf, FetchedIds, TimelyService, AllServedInTime, HistoryOf, EntriesWereSo, Undisturbed,
         FirstSeen, NoRepeats, ValuesWereSo, SomeWasMissing, ClockRuns, StampedBy, Oldest;
    if HitsOf(ttl, entries, FirstSeen(requested), w.now).Success? {
      FetchedHasNoRepeats(ttl, entries, w, requested);
      ServedIsTimely(tables, delay, w, FetchedIds(ttl, entries, w, requested));
    }
    AnswersAreRecent(ttl, entries, w, requested, HistoryOf(tables), delay, end);
    var answer := OutcomeOf(ttl, entries, w, requested).answer;
    if answer.Success? {
      ValuesServed(tables, answer.value, Oldest(ttl, w) - delay, end);
    }
  }
}
