/** When the dedupe cache is exact. */
module EventDedupeTheorems {
  import opened Collections
  import opened EventDedupe

  lemma RunOfExtended(offers: seq<Offer>, o: Offer, ttl: int, maxEntries: int)
    ensures RunOf(offers + [o], ttl, maxEntries) == Advance(RunOf(offers, ttl, maxEntries), o, ttl, maxEntries)
  {
    assert (offers + [o])[..|offers|] == offers;
  }

  // ---------- dropping a live entry ----------

  /** The eviction loses an entry that has not expired. */
  ghost predicate Loses(put: seq<Entry>, now: int, maxEntries: int, e: Entry) {
    e in put && e.expiresAt > now && e !in Evict(put, now, maxEntries)
  }

  ghost predicate LosesNothing(put: seq<Entry>, now: int, maxEntries: int) {
    forall e :: !Loses(put, now, maxEntries, e)
  }

  /** The event drops a live entry. */
  ghost predicate DropsLive(seen: seq<Entry>, o: Offer, ttl: int, maxEntries: int) {
    !Known(seen, o) && !LosesNothing(Put(seen, Entry(o.id, o.now + ttl)), o.now, maxEntries)
  }

  /** The guard: a new id finds the cache full, and the first entry - or without any the new one - is live. */
  predicate OverflowsLive(seen: seq<Entry>, o: Offer, maxEntries: int) {
    IndexOf(seen, o.id) == |seen| && |seen| >= maxEntries && (seen == [] || seen[0].expiresAt > o.now)
  }

  lemma SmallLosesNothing(put: seq<Entry>, now: int, maxEntries: int, e: Entry)
    requires |put| <= maxEntries
    ensures !Loses(put, now, maxEntries, e)
  {
    if e in put && e.expiresAt > now {
      var i :| 0 <= i < |put| && put[i] == e;
      var after := Evict(put, now, maxEntries);
      assert after[i - (|put| - |after|)] == e;
    }
  }

  /** A full cache loses its first entry, and no other. */
  lemma FullLosesFirst(put: seq<Entry>, now: int, maxEntries: int, e: Entry)
    requires UniqueKeys(put) && put != [] && |put| == Cap(maxEntries) + 1
    ensures Loses(put, now, maxEntries, e) <==> e == put[0] && e.expiresAt > now
  {
    var after := Evict(put, now, maxEntries);
    assert after == put[1..];
    if e in put && e != put[0] {
      var i :| 0 <= i < |put| && put[i] == e;
      assert after[i - 1] == e;
    }
    if put[0] in after {
      var i :| 0 <= i < |after| && after[i] == put[0];
      assert Differ(put, 0, i + 1);
    }
  }

  lemma RoomLosesNothing(put: seq<Entry>, now: int, maxEntries: int)
    requires |put| <= maxEntries
    ensures LosesNothing(put, now, maxEntries)
  {
    forall x ensures !Loses(put, now, maxEntries, x) {
      SmallLosesNothing(put, now, maxEntries, x);
    }
  }

  lemma FullLosesLive(put: seq<Entry>, now: int, maxEntries: int)
    requires UniqueKeys(put) && put != [] && |put| == Cap(maxEntries) + 1
    ensures LosesNothing(put, now, maxEntries) <==> put[0].expiresAt <= now
  {
    FullLosesFirst(put, now, maxEntries, put[0]);
    if put[0].expiresAt <= now {
      forall x ensures !Loses(put, now, maxEntries, x) {
        FullLosesFirst(put, now, maxEntries, x);
      }
    }
  }

  lemma PutLosesLive(seen: seq<Entry>, e: Entry, now: int, maxEntries: int)
    requires e.expiresAt > now && UniqueKeys(seen) && |seen| <= Cap(maxEntries)
    ensures !LosesNothing(Put(seen, e), now, maxEntries) <==>
            IndexOf(seen, e.id) == |seen| && |seen| >= maxEntries && (seen == [] || seen[0].expiresAt > now)
  {
    if |Put(seen, e)| <= maxEntries {
      RoomLosesNothing(Put(seen, e), now, maxEntries);
    } else {
      PutIsUnique(seen, e);
      FullLosesLive(Put(seen, e), now, maxEntries);
    }
  }

  /** An event drops a live entry exactly under the guard. */
  lemma DropsLiveExactly(seen: seq<Entry>, o: Offer, ttl: int, maxEntries: int)
    requires ttl > 0 && UniqueKeys(seen) && |seen| <= Cap(maxEntries)
    ensures DropsLive(seen, o, ttl, maxEntries) <==> OverflowsLive(seen, o, maxEntries)
  {
    PutLosesLive(seen, Entry(o.id, o.now + ttl), o.now, maxEntries);
  }

  // ---------- staying complete ----------

  /** Without losses, what is live stays. */
  lemma StillThere(put: seq<Entry>, x: Entry, now: int, maxEntries: int)
    requires UniqueKeys(put) && x in put && x.expiresAt > now && !Loses(put, now, maxEntries, x)
    ensures Remembers(Evict(put, now, maxEntries), x.id, x.expiresAt)
  {
    var after := Evict(put, now, maxEntries);
    var k := |put| - |after|;
    var i :| 0 <= i < |after| && after[i] == x;
    assert forall i, j :: Differ(put, i + k, j + k) ==> Differ(after, i, j);
    IndexIs(after, i);
  }

  lemma NewStays(seen: seq<Entry>, e: Entry, now: int, maxEntries: int)
    requires UniqueKeys(seen) && e.expiresAt > now && !Loses(Put(seen, e), now, maxEntries, e)
    ensures Remembers(Evict(Put(seen, e), now, maxEntries), e.id, e.expiresAt)
  {
    PutKeeps(seen, e);
    StillThere(Put(seen, e), e, now, maxEntries);
  }

  lemma OthersStay(seen: seq<Entry>, e: Entry, id: string, until: int, now: int, maxEntries: int)
    requires UniqueKeys(seen) && Remembers(seen, id, until) && id != e.id && until > now
    requires !Loses(Put(seen, e), now, maxEntries, seen[IndexOf(seen, id)])
    ensures Remembers(Evict(Put(seen, e), now, maxEntries), id, until)
  {
    PutKeeps(seen, e);
    var x := seen[IndexOf(seen, id)];
    assert x in seen;
    StillThere(Put(seen, e), x, now, maxEntries);
  }

  lemma OneStays(seen: seq<Entry>, passed: seq<Offer>, o: Offer, ttl: int, maxEntries: int, p: Offer)
    requires ttl > 0 && UniqueKeys(seen) && !Known(seen, o) && Kept(seen, passed, ttl, o.now, p)
    requires LosesNothing(Put(seen, Entry(o.id, o.now + ttl)), o.now, maxEntries)
    ensures Kept(Evict(Put(seen, Entry(o.id, o.now + ttl)), o.now, maxEntries), passed + [o], ttl, o.now, p)
  {
    if p in passed + [o] && p.now + ttl > o.now {
      var e := Entry(o.id, o.now + ttl);
      if p == o {
        NewStays(seen, e, o.now, maxEntries);
      } else if p.id != o.id {
        OthersStay(seen, e, p.id, p.now + ttl, o.now, maxEntries);
      }
    }
  }

  lemma FullStays(seen: seq<Entry>, passed: seq<Offer>, o: Offer, ttl: int, maxEntries: int)
    requires ttl > 0 && UniqueKeys(seen) && Full(seen, passed, ttl, o.now) && !Known(seen, o)
    requires LosesNothing(Put(seen, Entry(o.id, o.now + ttl)), o.now, maxEntries)
    ensures Full(Evict(Put(seen, Entry(o.id, o.now + ttl)), o.now, maxEntries), passed + [o], ttl, o.now)
  {
    var e := Entry(o.id, o.now + ttl);
    forall p ensures Kept(Evict(Put(seen, e), o.now, maxEntries), passed + [o], ttl, o.now, p) {
      OneStays(seen, passed, o, ttl, maxEntries, p);
    }
  }

  lemma AdvanceStaysFull(r: Run, o: Offer, ttl: int, maxEntries: int)
    requires ttl > 0 && UniqueKeys(r.seen) && Full(r.seen, r.passed, ttl, o.now)
             && !DropsLive(r.seen, o, ttl, maxEntries)
    ensures Full(Advance(r, o, ttl, maxEntries).seen, Advance(r, o, ttl, maxEntries).passed, ttl, o.now)
  {
    if !Known(r.seen, o) {
      FullStays(r.seen, r.passed, o, ttl, maxEntries);
    }
  }

  lemma FullLater(seen: seq<Entry>, passed: seq<Offer>, ttl: int, now: int, later: int)
    requires Full(seen, passed, ttl, now) && now <= later
    ensures Full(seen, passed, ttl, later)
  {
    forall p ensures Kept(seen, passed, ttl, later, p) {
      assert Kept(seen, passed, ttl, now, p);
    }
  }

  lemma KnownIsRecent(seen: seq<Entry>, passed: seq<Offer>, o: Offer, ttl: int)
    requires Sound(seen, passed, ttl) && Full(seen, passed, ttl, o.now)
    ensures Known(seen, o) <==> Recent(passed, o, ttl)
  {
    var i := IndexOf(seen, o.id);
    if Known(seen, o) {
      assert seen[i] in seen && Backed(seen, passed, ttl, seen[i]);
      var k :| 0 <= k < |passed| && passed[k] == Offer(o.id, seen[i].expiresAt - ttl);
    }
    if Recent(passed, o, ttl) {
      var k :| 0 <= k < |passed| && passed[k].id == o.id && o.now < passed[k].now + ttl;
      assert passed[k] in passed && Kept(seen, passed, ttl, o.now, passed[k]);
    }
  }

  // ---------- agreement with the log ----------

  ghost predicate LiveDropAt(offers: seq<Offer>, n: int, ttl: int, maxEntries: int) {
    0 <= n < |offers| && DropsLive(RunOf(offers[..n], ttl, maxEntries).seen, offers[n], ttl, maxEntries)
  }

  /** No event of the run drops a live entry. */
  ghost predicate NothingLiveDropped(offers: seq<Offer>, ttl: int, maxEntries: int) {
    forall n :: !LiveDropAt(offers, n, ttl, maxEntries)
  }

  /** After n events, the cache and what has passed agree about an event that comes next. */
  ghost predicate AgreesAt(offers: seq<Offer>, n: int, o: Offer, ttl: int, maxEntries: int) {
    0 <= n <= |offers| && Ordered(offers[..n] + [o]) ==>
      (Known(RunOf(offers[..n], ttl, maxEntries).seen, o) <==>
       Recent(RunOf(offers[..n], ttl, maxEntries).passed, o, ttl))
  }

  ghost predicate Agrees(offers: seq<Offer>, ttl: int, maxEntries: int) {
    forall n, o :: AgreesAt(offers, n, o, ttl, maxEntries)
  }

  lemma PrefixOf(offers: seq<Offer>, n: nat)
    requires n < |offers|
    ensures offers[..n + 1] == offers[..n] + [offers[n]]
    ensures Ordered(offers) ==> Ordered(offers[..n + 1])
  {
  }

  lemma {:induction false} FullWithoutDrops(offers: seq<Offer>, n: nat, o: Offer, ttl: int, maxEntries: int)
    requires ttl > 0 && n <= |offers| && Ordered(offers[..n] + [o])
    requires NothingLiveDropped(offers, ttl, maxEntries)
    ensures Full(RunOf(offers[..n], ttl, maxEntries).seen, RunOf(offers[..n], ttl, maxEntries).passed, ttl, o.now)
  {
    if n > 0 {
      var last := offers[n - 1];
      PrefixOf(offers, n - 1);
      assert last.now <= o.now && Ordered(offers[..n - 1] + [last]) by {
        assert forall i :: 0 <= i < n ==> (offers[..n] + [o])[i] == offers[i];
        assert (offers[..n] + [o])[n] == o;
      }
      FullWithoutDrops(offers, n - 1, last, ttl, maxEntries);
      assert !LiveDropAt(offers, n - 1, ttl, maxEntries);
      StepStaysFull(offers[..n - 1], last, o.now, ttl, maxEntries);
    }
  }

  lemma StepStaysFull(offers: seq<Offer>, last: Offer, later: int, ttl: int, maxEntries: int)
    requires ttl > 0 && last.now <= later
    requires var r := RunOf(offers, ttl, maxEntries);
      Full(r.seen, r.passed, ttl, last.now) && !DropsLive(r.seen, last, ttl, maxEntries)
    ensures var t := RunOf(offers + [last], ttl, maxEntries); Full(t.seen, t.passed, ttl, later)
  {
    var r := RunOf(offers, ttl, maxEntries);
    RunKeeps(offers, ttl, maxEntries);
    AdvanceStaysFull(r, last, ttl, maxEntries);
    RunOfExtended(offers, last, ttl, maxEntries);
    FullLater(Advance(r, last, ttl, maxEntries).seen, Advance(r, last, ttl, maxEntries).passed, ttl, last.now, later);
  }

  lemma AgreesWithoutDrops(offers: seq<Offer>, n: nat, o: Offer, ttl: int, maxEntries: int)
    requires ttl > 0 && n <= |offers| && Ordered(offers[..n] + [o]) && NothingLiveDropped(offers, ttl, maxEntries)
    ensures Known(RunOf(offers[..n], ttl, maxEntries).seen, o) <==>
            Recent(RunOf(offers[..n], ttl, maxEntries).passed, o, ttl)
  {
    var r := RunOf(offers[..n], ttl, maxEntries);
    FullWithoutDrops(offers, n, o, ttl, maxEntries);
    RunKeeps(offers[..n], ttl, maxEntries);
    KnownIsRecent(r.seen, r.passed, o, ttl);
  }

  /** What is lost while it is live is let through again. */
  lemma LostIsForgotten(r: Run, o: Offer, ttl: int, maxEntries: int, e: Entry)
    requires ttl > 0 && Consistent(r, ttl, maxEntries) && !Known(r.seen, o)
    requires Loses(Put(r.seen, Entry(o.id, o.now + ttl)), o.now, maxEntries, e)
    ensures var t := Advance(r, o, ttl, maxEntries);
      !Known(t.seen, Offer(e.id, o.now)) && Recent(t.passed, Offer(e.id, o.now), ttl)
  {
    var t := Advance(r, o, ttl, maxEntries);
    assert Recent(t.passed, Offer(e.id, o.now), ttl) by {
      LostHasPassed(r.seen, r.passed, o, ttl, e);
    }
    assert IndexOf(t.seen, e.id) == |t.seen| by {
      LostFromPut(r.seen, Entry(o.id, o.now + ttl), o.now, maxEntries, e);
    }
  }

  lemma LostFromPut(seen: seq<Entry>, put: Entry, now: int, maxEntries: int, e: Entry)
    requires UniqueKeys(seen) && Loses(Put(seen, put), now, maxEntries, e)
    ensures var after := Evict(Put(seen, put), now, maxEntries); IndexOf(after, e.id) == |after|
  {
    PutKeeps(seen, put);
    IdIsLost(Put(seen, put), now, maxEntries, e);
  }

  lemma LostHasPassed(seen: seq<Entry>, passed: seq<Offer>, o: Offer, ttl: int, e: Entry)
    requires UniqueKeys(seen) && Sound(seen, passed, ttl) && e in Put(seen, Entry(o.id, o.now + ttl))
             && e.expiresAt > o.now
    ensures Recent(passed + [o], Offer(e.id, o.now), ttl)
  {
    PutIsSound(seen, passed, o, ttl);
    assert Backed(Put(seen, Entry(o.id, o.now + ttl)), passed + [o], ttl, e);
    var k :| 0 <= k < |passed + [o]| && (passed + [o])[k] == Offer(e.id, e.expiresAt - ttl);
  }

  /** What is evicted stood before everything that stays. */
  lemma EvictedStoodFirst(put: seq<Entry>, now: int, maxEntries: int, i: nat)
    requires i < |put| && put[i] !in Evict(put, now, maxEntries)
    ensures i < |put| - |Evict(put, now, maxEntries)|
  {
    var after := Evict(put, now, maxEntries);
    var k := |put| - |after|;
    forall m | k <= m < |put| ensures put[m] in after {
      assert after[m - k] == put[m];
    }
  }

  lemma IdIsLost(put: seq<Entry>, now: int, maxEntries: int, e: Entry)
    requires UniqueKeys(put) && Loses(put, now, maxEntries, e)
    ensures var after := Evict(put, now, maxEntries); IndexOf(after, e.id) == |after|
  {
    var after := Evict(put, now, maxEntries);
    var k := |put| - |after|;
    var i :| 0 <= i < |put| && put[i] == e;
    EvictedStoodFirst(put, now, maxEntries, i);
    assert forall j :: 0 <= j < |after| ==> after[j] == put[j + k] && Differ(put, i, j + k);
  }

  lemma DropDisagrees(offers: seq<Offer>, n: nat, ttl: int, maxEntries: int)
    requires ttl > 0 && Ordered(offers) && LiveDropAt(offers, n, ttl, maxEntries)
    ensures !Agrees(offers, ttl, maxEntries)
  {
    var r, last := RunOf(offers[..n], ttl, maxEntries), offers[n];
    var e :| Loses(Put(r.seen, Entry(last.id, last.now + ttl)), last.now, maxEntries, e);
    var o := Offer(e.id, last.now);
    RunKeeps(offers[..n], ttl, maxEntries);
    LostIsForgotten(r, last, ttl, maxEntries, e);
    PrefixOf(offers, n);
    RunOfExtended(offers[..n], last, ttl, maxEntries);
    OrderedWith(offers, n, o);
    assert !AgreesAt(offers, n + 1, o, ttl, maxEntries);
  }

  lemma OrderedWith(offers: seq<Offer>, n: nat, o: Offer)
    requires Ordered(offers) && n < |offers| && o.now == offers[n].now
    ensures Ordered(offers[..n + 1] + [o])
  {
  }

  /**
   For any bound and any run under a clock that does not run backwards: the cache decides every
   event that could come next, at any moment of the run, as the events that passed demand - if and
   only if no event of the run drops a live entry.
   */
  lemma AgreesExactly(offers: seq<Offer>, ttl: int, maxEntries: int)
    requires ttl > 0 && Ordered(offers)
    ensures Agrees(offers, ttl, maxEntries) <==> NothingLiveDropped(offers, ttl, maxEntries)
  {
    if NothingLiveDropped(offers, ttl, maxEntries) {
      forall n, o ensures AgreesAt(offers, n, o, ttl, maxEntries) {
        if 0 <= n <= |offers| && Ordered(offers[..n] + [o]) {
          AgreesWithoutDrops(offers, n, o, ttl, maxEntries);
        }
      }
    } else {
      var n :| LiveDropAt(offers, n, ttl, maxEntries);
      DropDisagrees(offers, n, ttl, maxEntries);
    }
  }

  /** Without such drops, what passes is what an unbounded log lets through. */
  lemma {:induction false} PassedIsLog(offers: seq<Offer>, n: nat, ttl: int, maxEntries: int)
    requires ttl > 0 && n <= |offers| && Ordered(offers) && NothingLiveDropped(offers, ttl, maxEntries)
    ensures RunOf(offers[..n], ttl, maxEntries).passed == LogOf(offers[..n], ttl)
  {
    if n > 0 {
      PrefixOf(offers, n - 1);
      assert offers[..n][..n - 1] == offers[..n - 1];
      PassedIsLog(offers, n - 1, ttl, maxEntries);
      AgreesWithoutDrops(offers, n - 1, offers[n - 1], ttl, maxEntries);
      RunOfExtended(offers[..n - 1], offers[n - 1], ttl, maxEntries);
    }
  }

  /** After n events, the cache decides about the next one as an unbounded log of the same events does. */
  ghost predicate LogAgreesAt(offers: seq<Offer>, n: int, o: Offer, ttl: int, maxEntries: int) {
    0 <= n <= |offers| && Ordered(offers[..n] + [o]) ==>
      (Known(RunOf(offers[..n], ttl, maxEntries).seen, o) <==> Recent(LogOf(offers[..n], ttl), o, ttl))
  }

  ghost predicate LogAgrees(offers: seq<Offer>, ttl: int, maxEntries: int) {
    forall n, o :: LogAgreesAt(offers, n, o, ttl, maxEntries)
  }

  /** A cache that decides as the log does lets through what the log does. */
  lemma {:induction false} PassedFollowsLog(offers: seq<Offer>, n: nat, ttl: int, maxEntries: int)
    requires n <= |offers| && Ordered(offers) && LogAgrees(offers, ttl, maxEntries)
    ensures RunOf(offers[..n], ttl, maxEntries).passed == LogOf(offers[..n], ttl)
  {
    if n > 0 {
      PrefixOf(offers, n - 1);
      assert offers[..n][..n - 1] == offers[..n - 1];
      PassedFollowsLog(offers, n - 1, ttl, maxEntries);
      assert LogAgreesAt(offers, n - 1, offers[n - 1], ttl, maxEntries);
      RunOfExtended(offers[..n - 1], offers[n - 1], ttl, maxEntries);
    }
  }

  /** For any bound and any such run: the cache decides as an unbounded log if and only if it drops nothing live. */
  lemma AgreesWithLogExactly(offers: seq<Offer>, ttl: int, maxEntries: int)
    requires ttl > 0 && Ordered(offers)
    ensures LogAgrees(offers, ttl, maxEntries) <==> NothingLiveDropped(offers, ttl, maxEntries)
  {
    if NothingLiveDropped(offers, ttl, maxEntries) {
      forall n, o ensures LogAgreesAt(offers, n, o, ttl, maxEntries) {
        if 0 <= n <= |offers| && Ordered(offers[..n] + [o]) {
          PassedIsLog(offers, n, ttl, maxEntries);
          AgreesWithoutDrops(offers, n, o, ttl, maxEntries);
        }
      }
    }
    if LogAgrees(offers, ttl, maxEntries) {
      forall n, o ensures AgreesAt(offers, n, o, ttl, maxEntries) {
        if 0 <= n <= |offers| {
          PassedFollowsLog(offers, n, ttl, maxEntries);
          assert LogAgreesAt(offers, n, o, ttl, maxEntries);
        }
      }
      AgreesExactly(offers, ttl, maxEntries);
    }
  }

  lemma {:induction false} KeyCount(seen: seq<Entry>)
    requires UniqueKeys(seen)
    ensures |Keys(seen)| == |seen|
  {
    if seen != [] {
      var n := |seen| - 1;
      assert forall i, j :: Differ(seen, i, j) ==> Differ(seen[..n], i, j);
      KeyCount(seen[..n]);
      assert seen == seen[..n] + [seen[n]];
      assert Keys(seen) == Keys(seen[..n]) + {seen[n].id};
      assert seen[n].id !in Keys(seen[..n]) by {
        forall i | 0 <= i < n ensures seen[..n][i].id != seen[n].id {
          assert Differ(seen, i, n);
        }
      }
    }
  }

  lemma PutFits(seen: seq<Entry>, e: Entry, ids: set<string>)
    requires UniqueKeys(seen) && Keys(seen) + {e.id} <= ids
    ensures |Put(seen, e)| <= |ids|
  {
    PutIsUnique(seen, e);
    KeyCount(Put(seen, e));
    SubsetSize(Keys(Put(seen, e)), ids);
  }

  /** A cache that has room for every id drops nothing live. */
  lemma RoomDropsNothing(offers: seq<Offer>, ttl: int, maxEntries: int)
    requires ttl > 0 && |Ids(offers)| <= maxEntries
    ensures NothingLiveDropped(offers, ttl, maxEntries)
  {
    forall n ensures !LiveDropAt(offers, n, ttl, maxEntries) {
      if 0 <= n < |offers| {
        PutHasRoom(offers, n, ttl, maxEntries);
        RoomLosesNothing(Put(RunOf(offers[..n], ttl, maxEntries).seen, Entry(offers[n].id, offers[n].now + ttl)),
                         offers[n].now, maxEntries);
      }
    }
  }

  lemma PutHasRoom(offers: seq<Offer>, n: nat, ttl: int, maxEntries: int)
    requires ttl > 0 && |Ids(offers)| <= maxEntries && n < |offers|
    ensures |Put(RunOf(offers[..n], ttl, maxEntries).seen, Entry(offers[n].id, offers[n].now + ttl))| <= maxEntries
  {
    var r, o := RunOf(offers[..n], ttl, maxEntries), offers[n];
    RunKeeps(offers[..n], ttl, maxEntries);
    KeysWereOffered(offers[..n], ttl, maxEntries);
    assert Ids(offers[..n]) <= Ids(offers) && o.id in Ids(offers) by {
      assert forall x :: x in offers[..n] ==> x in offers;
    }
    PutFits(r.seen, Entry(o.id, o.now + ttl), Ids(offers));
  }

  /**
   While at most maxEntries different ids are offered, the cache decides event by event as an
   unbounded log does.
   */
  lemma AgreesWithLog(offers: seq<Offer>, o: Offer, ttl: int, maxEntries: int)
    requires ttl > 0 && Ordered(offers + [o]) && |Ids(offers + [o])| <= maxEntries
    ensures var r := RunOf(offers, ttl, maxEntries);
      && r.passed == LogOf(offers, ttl)
      && (Known(r.seen, o) <==> Recent(LogOf(offers, ttl), o, ttl))
  {
    assert Ordered(offers) by {
      assert forall i :: 0 <= i < |offers| ==> (offers + [o])[i] == offers[i];
    }
    IdsOfExtended(offers, o);
    SubsetSize(Ids(offers), Ids(offers + [o]));
    RoomDropsNothing(offers, ttl, maxEntries);
    assert offers[..|offers|] == offers;
    PassedIsLog(offers, |offers|, ttl, maxEntries);
    AgreesWithoutDrops(offers, |offers|, o, ttl, maxEntries);
  }

  // ---------- the order of eviction ----------

  ghost predicate InOrder(seen: seq<Entry>, i: int, j: int) {
    0 <= i < j < |seen| ==> seen[i].expiresAt <= seen[j].expiresAt
  }

  /** The entries stand in the order in which they expire, so that the oldest is evicted first. */
  ghost predicate Sorted(seen: seq<Entry>) {
    forall i, j :: InOrder(seen, i, j)
  }

  /** The event renews an expired entry behind which stands one that will expire before it. */
  predicate RenewsInPlace(seen: seq<Entry>, o: Offer, ttl: int) {
    var i := IndexOf(seen, o.id);
    !Known(seen, o) && i + 1 < |seen| && seen[i + 1].expiresAt < o.now + ttl
  }

  lemma SuffixStaysSorted(seen: seq<Entry>, k: nat)
    requires Sorted(seen) && k <= |seen|
    ensures Sorted(seen[k..])
  {
    forall i, j ensures InOrder(seen[k..], i, j) {
      assert InOrder(seen, i + k, j + k);
    }
  }

  /** Put keeps the order, unless it renews in place. */
  lemma PutSorted(seen: seq<Entry>, o: Offer, ttl: int)
    requires Sorted(seen) && !Known(seen, o) && !RenewsInPlace(seen, o, ttl)
    requires forall i :: 0 <= i < |seen| ==> seen[i].expiresAt <= o.now + ttl
    ensures Sorted(Put(seen, Entry(o.id, o.now + ttl)))
  {
    var put, k := Put(seen, Entry(o.id, o.now + ttl)), IndexOf(seen, o.id);
    forall i, j ensures InOrder(put, i, j) {
      assert InOrder(seen, i, j) && InOrder(seen, k + 1, j);
    }
  }

  lemma RenewalUnsorts(seen: seq<Entry>, o: Offer, ttl: int, maxEntries: int)
    requires ttl > 0 && Sorted(seen) && |seen| <= Cap(maxEntries) && RenewsInPlace(seen, o, ttl)
    ensures !Sorted(AfterOffer(seen, o, ttl, maxEntries))
  {
    var put, i := Put(seen, Entry(o.id, o.now + ttl)), IndexOf(seen, o.id);
    var after := AfterOffer(seen, o, ttl, maxEntries);
    var k := |put| - |after|;
    assert after == put[k..] && (k == 0 || (k == 1 && i > 0));
    assert after[i - k] == put[i] && after[i - k + 1] == put[i + 1];
    assert !InOrder(after, i - k, i - k + 1);
  }

  /** An event keeps the order exactly if it does not renew in place. */
  lemma AdvanceKeepsOrder(seen: seq<Entry>, o: Offer, ttl: int, maxEntries: int)
    requires ttl > 0 && Sorted(seen) && |seen| <= Cap(maxEntries)
    requires forall i :: 0 <= i < |seen| ==> seen[i].expiresAt <= o.now + ttl
    ensures Sorted(AfterOffer(seen, o, ttl, maxEntries)) <==> !RenewsInPlace(seen, o, ttl)
  {
    if RenewsInPlace(seen, o, ttl) {
      RenewalUnsorts(seen, o, ttl, maxEntries);
    } else if !Known(seen, o) {
      var put := Put(seen, Entry(o.id, o.now + ttl));
      PutSorted(seen, o, ttl);
      SuffixStaysSorted(put, |put| - |Evict(put, o.now, maxEntries)|);
      assert Evict(put, o.now, maxEntries) == put[|put| - |Evict(put, o.now, maxEntries)|..];
    }
  }

  lemma EntriesExpireInTime(offers: seq<Offer>, o: Offer, ttl: int, maxEntries: int)
    requires ttl > 0 && Ordered(offers + [o])
    ensures var seen := RunOf(offers, ttl, maxEntries).seen;
      forall i :: 0 <= i < |seen| ==> seen[i].expiresAt <= o.now + ttl
  {
    var r := RunOf(offers, ttl, maxEntries);
    RunKeeps(offers, ttl, maxEntries);
    forall i | 0 <= i < |r.seen| ensures r.seen[i].expiresAt <= o.now + ttl {
      assert Backed(r.seen, r.passed, ttl, r.seen[i]);
      PassedBefore(offers, o, ttl, maxEntries, Offer(r.seen[i].id, r.seen[i].expiresAt - ttl));
    }
  }

  lemma PassedBefore(offers: seq<Offer>, o: Offer, ttl: int, maxEntries: int, p: Offer)
    requires Ordered(offers + [o]) && p in RunOf(offers, ttl, maxEntries).passed
    ensures p.now <= o.now
  {
    PassedWereOffered(offers, ttl, maxEntries, p);
    var k :| 0 <= k < |offers| && offers[k] == p;
    assert (offers + [o])[k] == p && (offers + [o])[|offers|] == o;
  }

  /** In any run, a sorted cache stays sorted over an event if and only if the event does not renew in place. */
  lemma OrderIsKeptExactly(offers: seq<Offer>, o: Offer, ttl: int, maxEntries: int)
    requires ttl > 0 && Ordered(offers + [o]) && Sorted(RunOf(offers, ttl, maxEntries).seen)
    ensures Sorted(RunOf(offers + [o], ttl, maxEntries).seen) <==>
            !RenewsInPlace(RunOf(offers, ttl, maxEntries).seen, o, ttl)
  {
    RunKeeps(offers, ttl, maxEntries);
    EntriesExpireInTime(offers, o, ttl, maxEntries);
    RunOfExtended(offers, o, ttl, maxEntries);
    AdvanceKeepsOrder(RunOf(offers, ttl, maxEntries).seen, o, ttl, maxEntries);
  }

  /** What is evicted from a sorted cache expires no later than anything that stays. */
  lemma SortedEvictsOldest(put: seq<Entry>, now: int, maxEntries: int, gone: Entry, kept: Entry)
    requires Sorted(put) && gone in put && gone !in Evict(put, now, maxEntries) && kept in Evict(put, now, maxEntries)
    ensures gone.expiresAt <= kept.expiresAt
  {
    var after := Evict(put, now, maxEntries);
    var k := |put| - |after|;
    var i :| 0 <= i < |put| && put[i] == gone;
    var j :| 0 <= j < |after| && after[j] == kept;
    EvictedStoodFirst(put, now, maxEntries, i);
    assert InOrder(put, i, j + k);
  }

  /**
   A renewed id is forgotten first: if the first entry of a full cache has expired and is renewed,
   the next new id pushes it out while it is live, and every other entry stays, expired or not.
   */
  lemma RenewedIdIsForgottenFirst(r: Run, again: Offer, c: Offer, ttl: int, maxEntries: int)
    requires Consistent(r, ttl, maxEntries) && |r.seen| == maxEntries > 0
    requires r.seen[0].id == again.id && r.seen[0].expiresAt <= again.now <= c.now < again.now + ttl
    requires IndexOf(r.seen, c.id) == |r.seen|
    ensures var t := Advance(Advance(r, again, ttl, maxEntries), c, ttl, maxEntries);
      && t.seen == r.seen[1..] + [Entry(c.id, c.now + ttl)]
      && !Known(t.seen, Offer(again.id, c.now)) && Recent(t.passed, Offer(again.id, c.now), ttl)
  {
    var renewed := r.seen[0 := Entry(again.id, again.now + ttl)];
    FirstIsRenewed(r, again, ttl, maxEntries);
    NotThere(r.seen, renewed, c.id);
    FirstIsPushedOut(Run(renewed, r.passed + [again]), c, ttl, maxEntries);
    assert renewed[1..] == r.seen[1..];
    assert (r.passed + [again] + [c])[|r.passed|] == again;
    FirstIsGone(r.seen, Entry(c.id, c.now + ttl));
  }

  lemma FirstIsRenewed(r: Run, again: Offer, ttl: int, maxEntries: int)
    requires 0 < |r.seen| <= maxEntries && r.seen[0].id == again.id
             && r.seen[0].expiresAt <= again.now < again.now + ttl
    ensures Advance(r, again, ttl, maxEntries) == Run(r.seen[0 := Entry(again.id, again.now + ttl)], r.passed + [again])
  {
  }

  lemma FirstIsPushedOut(r: Run, c: Offer, ttl: int, maxEntries: int)
    requires |r.seen| == maxEntries > 0 && IndexOf(r.seen, c.id) == |r.seen|
    ensures Advance(r, c, ttl, maxEntries) == Run(r.seen[1..] + [Entry(c.id, c.now + ttl)], r.passed + [c])
  {
    assert (r.seen + [Entry(c.id, c.now + ttl)])[1..] == r.seen[1..] + [Entry(c.id, c.now + ttl)];
  }

  lemma NotThere(seen: seq<Entry>, renewed: seq<Entry>, id: string)
    requires |renewed| == |seen| && IndexOf(seen, id) == |seen|
    requires forall i :: 0 <= i < |seen| ==> renewed[i].id == seen[i].id
    ensures IndexOf(renewed, id) == |renewed|
  {
    assert forall i :: 0 <= i < |seen| ==> seen[i].id != id;
  }

  lemma FirstIsGone(seen: seq<Entry>, e: Entry)
    requires UniqueKeys(seen) && seen != [] && IndexOf(seen, e.id) == |seen|
    ensures var t := seen[1..] + [e]; IndexOf(t, seen[0].id) == |t|
  {
    var t := seen[1..] + [e];
    assert forall i :: 0 <= i < |seen| - 1 ==> t[i] == seen[i + 1] && Differ(seen, 0, i + 1);
    assert t[|seen| - 1] == e && seen[0].id != e.id;
  }

  /** Such a full cache is reached, and an expired entry can outlive the renewed one: two slots are enough. */
  lemma ExpiredOutlivesRenewed(a: Offer, b: Offer, again: Offer, c: Offer, ttl: int)
    requires a.id != b.id && again.id == a.id && c.id != a.id && c.id != b.id
    requires a.now <= b.now < a.now + ttl <= again.now <= c.now < again.now + ttl
    ensures var r := RunOf([a] + [b] + [again] + [c], ttl, 2);
      && !Known(r.seen, Offer(a.id, c.now)) && Recent(r.passed, Offer(a.id, c.now), ttl)
      && Entry(b.id, b.now + ttl) in r.seen
  {
    TwoNewIds(a, b, ttl);
    RunOfExtended([a] + [b], again, ttl, 2);
    RunOfExtended([a] + [b] + [again], c, ttl, 2);
    RunKeeps([a] + [b], ttl, 2);
    var r := RunOf([a] + [b], ttl, 2);
    assert IndexOf(r.seen, c.id) == 2;
    RenewedIdIsForgottenFirst(r, again, c, ttl, 2);
    assert r.seen[1..] == [Entry(b.id, b.now + ttl)];
    assert RunOf([a] + [b] + [again] + [c], ttl, 2).seen[0] == Entry(b.id, b.now + ttl);
  }

  lemma TwoNewIds(a: Offer, b: Offer, ttl: int)
    requires a.id != b.id && a.now <= b.now < a.now + ttl
    ensures RunOf([a] + [b], ttl, 2) == Run([Entry(a.id, a.now + ttl), Entry(b.id, b.now + ttl)], [a] + [b])
  {
    RunOfExtended([], a, ttl, 2);
    assert [] + [a] == [a];
    RunOfExtended([a], b, ttl, 2);
  }
}
