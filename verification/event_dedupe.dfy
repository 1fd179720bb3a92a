/** The cache of recent event ids, bounded in size and in time. */
module EventDedupe {
  import opened Wrappers

  /** An entry of the Map, in insertion order. */
  datatype Entry = Entry(id: string, expiresAt: int)

  /** An event that asks whether it is new. */
  datatype Offer = Offer(id: string, now: int)

  function IndexOf(seen: seq<Entry>, id: string): (i: nat)
    ensures i <= |seen|
    ensures i < |seen| ==> seen[i].id == id
    ensures forall j :: 0 <= j < i ==> seen[j].id != id
  {
    if seen == [] || seen[0].id == id then 0 else 1 + IndexOf(seen[1..], id)
  }

  /** Reported as a duplicate. */
  predicate Known(seen: seq<Entry>, o: Offer) {
    var i := IndexOf(seen, o.id);
    i < |seen| && seen[i].expiresAt > o.now
  }

  /** Map.set: a key that is there keeps its place. */
  function Put(seen: seq<Entry>, e: Entry): seq<Entry> {
    var i := IndexOf(seen, e.id);
    if i < |seen| then seen[i := e] else seen + [e]
  }

  function Cap(maxEntries: int): nat { if maxEntries < 0 then 0 else maxEntries }

  /**
   What is left of the entries: without those over the size, oldest place first, or else without an expired first
   one.
   */
  function Evict(seen: seq<Entry>, now: int, maxEntries: int): seq<Entry> {
    if |seen| > maxEntries then seen[|seen| - Cap(maxEntries)..]
    else if seen != [] && seen[0].expiresAt <= now then seen[1..]
    else seen
  }

  lemma EvictOneByOne(seen: seq<Entry>, now: int, maxEntries: int)
    requires |seen| > maxEntries && seen != []
    ensures Evict(seen, now, maxEntries) ==
            if |seen| - 1 > maxEntries then Evict(seen[1..], now, maxEntries) else seen[1..]
  {
  }

  /**
   Entries go from the front: the first one if it has expired, and then as many as are over the size,
   but no more; the others stay in place.
   */
  lemma EvictsNoMore(seen: seq<Entry>, now: int, maxEntries: int)
    ensures var after := Evict(seen, now, maxEntries); var gone := |seen| - |after|;
      && 0 <= gone && after == seen[gone..] && |after| <= Cap(maxEntries)
      && (gone >= 1 ==> seen[0].expiresAt <= now || |seen| > Cap(maxEntries))
      && (gone >= 2 ==> |seen| - gone + 1 > Cap(maxEntries))
      && (seen != [] && seen[0].expiresAt <= now ==> gone >= 1)
  {
  }

  /** The cache after an event. */
  function AfterOffer(seen: seq<Entry>, o: Offer, ttl: int, maxEntries: int): seq<Entry> {
    if Known(seen, o) then seen else Evict(Put(seen, Entry(o.id, o.now + ttl)), o.now, maxEntries)
  }

  class EventIdDedupe {
    const ttlMs: Option<int>
    const maxEntries: int
    var seen: seq<Entry>

    constructor (ttlMs: Option<int>, maxEntries: int)
      ensures this.ttlMs == ttlMs && this.maxEntries == maxEntries && seen == []
    {
      this.ttlMs, this.maxEntries, seen := ttlMs, maxEntries, [];
    }

    method IsDuplicate(id: string, now: int) returns (duplicate: bool)
      modifies this
      ensures ttlMs.None? || ttlMs.value <= 0 ==> !duplicate && seen == old(seen)
      ensures ttlMs.Some? && ttlMs.value > 0 ==>
                duplicate == Known(old(seen), Offer(id, now))
                && seen == AfterOffer(old(seen), Offer(id, now), ttlMs.value, maxEntries)
    {
      if ttlMs.None? || ttlMs.value <= 0 {
        return false;
      }
      var i := IndexOf(seen, id);
      if i < |seen| && seen[i].expiresAt > now {
        return true;
      }
      seen := Put(seen, Entry(id, now + ttlMs.value));
      MakeRoom(now);
      return false;
    }

    /** The loop over the entries of the Map. */
    method MakeRoom(now: int)
      modifies this
      ensures seen == Evict(old(seen), now, maxEntries)
    {
      ghost var full := seen;
      while seen != []
        invariant Evict(seen, now, maxEntries) == Evict(full, now, maxEntries)
        decreases |seen|
      {
        if |seen| > maxEntries {
          EvictOneByOne(seen, now, maxEntries);
        }
        if seen[0].expiresAt <= now || |seen| > maxEntries {
          seen := seen[1..];
        }
        if |seen| <= maxEntries {
          return;
        }
      }
    }
  }

  // ---------- runs ----------

  /** The cache, and the events it let through, after some events. */
  datatype Run = Run(seen: seq<Entry>, passed: seq<Offer>)

  function RunOf(offers: seq<Offer>, ttl: int, maxEntries: int): Run {
    if offers == [] then Run([], [])
    else Advance(RunOf(offers[..|offers| - 1], ttl, maxEntries), offers[|offers| - 1], ttl, maxEntries)
  }

  function Advance(r: Run, o: Offer, ttl: int, maxEntries: int): Run {
    Run(AfterOffer(r.seen, o, ttl, maxEntries), if Known(r.seen, o) then r.passed else r.passed + [o])
  }

  /** The reference: an event is a duplicate if its id passed less than the TTL earlier. */
  ghost predicate Recent(passed: seq<Offer>, o: Offer, ttl: int) {
    exists k :: 0 <= k < |passed| && passed[k].id == o.id && o.now < passed[k].now + ttl
  }

  /** What an unbounded log lets through. */
  ghost function LogOf(offers: seq<Offer>, ttl: int): seq<Offer> {
    if offers == [] then []
    else
      var o := offers[|offers| - 1];
      var log := LogOf(offers[..|offers| - 1], ttl);
      if Recent(log, o, ttl) then log else log + [o]
  }

  ghost predicate Ordered(offers: seq<Offer>) {
    forall i, j :: 0 <= i < j < |offers| ==> offers[i].now <= offers[j].now
  }

  ghost function Ids(offers: seq<Offer>): set<string> { set o | o in offers :: o.id }

  ghost function Keys(seen: seq<Entry>): set<string> { set e | e in seen :: e.id }

  ghost predicate UniqueKeys(seen: seq<Entry>) {
    forall i, j :: Differ(seen, i, j)
  }

  ghost predicate Differ(seen: seq<Entry>, i: int, j: int) {
    0 <= i < j < |seen| ==> seen[i].id != seen[j].id
  }

  /** Every entry stands for an event that passed. */
  ghost predicate Sound(seen: seq<Entry>, passed: seq<Offer>, ttl: int) {
    forall e :: Backed(seen, passed, ttl, e)
  }

  ghost predicate Backed(seen: seq<Entry>, passed: seq<Offer>, ttl: int, e: Entry) {
    e in seen ==> Offer(e.id, e.expiresAt - ttl) in passed
  }

  /** Every event that passed and is not over yet is still in the cache. */
  ghost predicate Full(seen: seq<Entry>, passed: seq<Offer>, ttl: int, now: int) {
    forall p :: Kept(seen, passed, ttl, now, p)
  }

  ghost predicate Kept(seen: seq<Entry>, passed: seq<Offer>, ttl: int, now: int, p: Offer) {
    p in passed && p.now + ttl > now ==> Remembers(seen, p.id, p.now + ttl)
  }

  /** The id is in the cache, and stays a duplicate until then at least. */
  ghost predicate Remembers(seen: seq<Entry>, id: string, until: int) {
    var i := IndexOf(seen, id);
    i < |seen| && seen[i].expiresAt >= until
  }

  lemma IndexIs(seen: seq<Entry>, i: nat)
    requires UniqueKeys(seen) && i < |seen|
    ensures IndexOf(seen, seen[i].id) == i
  {
    assert Differ(seen, IndexOf(seen, seen[i].id), i);
  }

  lemma PutKeeps(seen: seq<Entry>, e: Entry)
    requires UniqueKeys(seen)
    ensures UniqueKeys(Put(seen, e)) && e in Put(seen, e)
    ensures forall x :: x in Put(seen, e) ==> x == e || (x in seen && x.id != e.id)
    ensures forall x :: x in seen && x.id != e.id ==> x in Put(seen, e)
    ensures Keys(Put(seen, e)) == Keys(seen) + {e.id}
  {
    var i := IndexOf(seen, e.id);
    var p := Put(seen, e);
    forall j, k ensures Differ(p, j, k) {
      assert Differ(seen, j, k) && Differ(seen, i, k) && Differ(seen, j, i);
    }
    if i < |seen| {
      assert p[i] == e;
      forall x | x in seen && x.id != e.id ensures x in p {
        var j :| 0 <= j < |seen| && seen[j] == x;
        assert p[j] == x;
      }
      forall x | x in p ensures x == e || (x in seen && x.id != e.id) {
        var j :| 0 <= j < |p| && p[j] == x;
        assert Differ(seen, i, j) && Differ(seen, j, i);
      }
    } else {
      assert p[|seen|] == e;
    }
    forall k ensures k in Keys(p) <==> k in Keys(seen) + {e.id} {
      if k in Keys(seen) && k != e.id {
        var x :| x in seen && x.id == k;
        assert x in p;
      }
    }
  }

  lemma PutIsUnique(seen: seq<Entry>, e: Entry)
    requires UniqueKeys(seen)
    ensures UniqueKeys(Put(seen, e)) && Keys(Put(seen, e)) == Keys(seen) + {e.id}
  {
    PutKeeps(seen, e);
  }

  lemma PutIsSound(seen: seq<Entry>, passed: seq<Offer>, o: Offer, ttl: int)
    requires UniqueKeys(seen) && Sound(seen, passed, ttl)
    ensures Sound(Put(seen, Entry(o.id, o.now + ttl)), passed + [o], ttl)
  {
    var e := Entry(o.id, o.now + ttl);
    PutKeeps(seen, e);
    forall x ensures Backed(Put(seen, e), passed + [o], ttl, x) {
      assert Backed(seen, passed, ttl, x);
    }
  }

  lemma EvictKeeps(seen: seq<Entry>, passed: seq<Offer>, now: int, ttl: int, maxEntries: int)
    requires UniqueKeys(seen) && Sound(seen, passed, ttl)
    ensures Consistent(Run(Evict(seen, now, maxEntries), passed), ttl, maxEntries)
    ensures Keys(Evict(seen, now, maxEntries)) <= Keys(seen)
  {
    var after := Evict(seen, now, maxEntries);
    var k := |seen| - |after|;
    assert after == seen[k..];
    forall i, j ensures Differ(after, i, j) {
      assert Differ(seen, i + k, j + k);
    }
    forall e ensures Backed(after, passed, ttl, e) {
      assert Backed(seen, passed, ttl, e);
    }
  }

  ghost predicate Consistent(r: Run, ttl: int, maxEntries: int) {
    UniqueKeys(r.seen) && Sound(r.seen, r.passed, ttl) && |r.seen| <= Cap(maxEntries)
  }

  lemma AdvanceKeeps(r: Run, o: Offer, ttl: int, maxEntries: int)
    requires ttl > 0 && Consistent(r, ttl, maxEntries)
    ensures Consistent(Advance(r, o, ttl, maxEntries), ttl, maxEntries)
    ensures Keys(Advance(r, o, ttl, maxEntries).seen) <= Keys(r.seen) + {o.id}
  {
    if !Known(r.seen, o) {
      var e := Entry(o.id, o.now + ttl);
      PutIsUnique(r.seen, e);
      PutIsSound(r.seen, r.passed, o, ttl);
      EvictKeeps(Put(r.seen, e), r.passed + [o], o.now, ttl, maxEntries);
    }
  }

  lemma {:induction false} RunKeeps(offers: seq<Offer>, ttl: int, maxEntries: int)
    requires ttl > 0
    ensures Consistent(RunOf(offers, ttl, maxEntries), ttl, maxEntries)
  {
    if offers != [] {
      var init, o := offers[..|offers| - 1], offers[|offers| - 1];
      RunKeeps(init, ttl, maxEntries);
      AdvanceKeeps(RunOf(init, ttl, maxEntries), o, ttl, maxEntries);
    }
  }

  lemma {:induction false} KeysWereOffered(offers: seq<Offer>, ttl: int, maxEntries: int)
    requires ttl > 0
    ensures Keys(RunOf(offers, ttl, maxEntries).seen) <= Ids(offers)
  {
    if offers != [] {
      var init, o := offers[..|offers| - 1], offers[|offers| - 1];
      KeysWereOffered(init, ttl, maxEntries);
      RunKeeps(init, ttl, maxEntries);
      assert offers == init + [o];
      IdsOfExtended(init, o);
      AdvanceKeeps(RunOf(init, ttl, maxEntries), o, ttl, maxEntries);
    }
  }

  lemma IdsOfExtended(offers: seq<Offer>, o: Offer)
    ensures Ids(offers + [o]) == Ids(offers) + {o.id}
  {
    assert forall x :: x in offers + [o] <==> x in offers || x == o;
  }

  lemma {:induction false} PassedWereOffered(offers: seq<Offer>, ttl: int, maxEntries: int, p: Offer)
    requires p in RunOf(offers, ttl, maxEntries).passed
    ensures p in offers
  {
    if p != offers[|offers| - 1] {
      PassedWereOffered(offers[..|offers| - 1], ttl, maxEntries, p);
    }
  }

  /**
   Under a clock that does not run backwards, an event is reported as a duplicate only if its id
   was let through less than the TTL before; and the cache never exceeds its bound.
   */
  lemma DuplicatesAreRecent(offers: seq<Offer>, o: Offer, ttl: int, maxEntries: int)
    requires ttl > 0 && Ordered(offers + [o])
    ensures var r := RunOf(offers, ttl, maxEntries);
      && |r.seen| <= Cap(maxEntries)
      && (Known(r.seen, o) ==>
            exists p :: p in r.passed && p in offers && p.id == o.id && p.now <= o.now < p.now + ttl)
  {
    RunKeeps(offers, ttl, maxEntries);
    var r := RunOf(offers, ttl, maxEntries);
    if Known(r.seen, o) {
      var p := Source(r, o, ttl, maxEntries);
      PassedWereOffered(offers, ttl, maxEntries, p);
      var k :| 0 <= k < |offers| && offers[k] == p;
      assert (offers + [o])[k] == p && (offers + [o])[|offers|] == o;
    }
  }

  /** The event that makes another one a duplicate. */
  lemma Source(r: Run, o: Offer, ttl: int, maxEntries: int) returns (p: Offer)
    requires Consistent(r, ttl, maxEntries) && Known(r.seen, o)
    ensures p in r.passed && p.id == o.id && o.now < p.now + ttl
  {
    var e := r.seen[IndexOf(r.seen, o.id)];
    assert e in r.seen && Backed(r.seen, r.passed, ttl, e);
    p := Offer(e.id, e.expiresAt - ttl);
  }
}
