/**
 What each event does to a relay batch: which command a response goes to, what is kept for later, and what fails it.
 */
module RelayBatchEffects {
  import opened Collections
  import opened Wrappers
  import opened RelayBatchSpec
  import opened RelayBatchSafety

  // ---------- responses ----------

  /** The response is meant for this key; on the fast path only the batch's own ids are keys. */
  predicate Carries(s: State, r: Reply, key: string) {
    if s.fast then r.bodyId == Some(key) && key in s.ids else r.requestId == Some(key)
  }

  ghost predicate SameBatch(s: State, t: State) {
    t.fast == s.fast && t.ids == s.ids && t.isOpen == s.isOpen && t.items == s.items && t.failures == s.failures
  }

  /** The command that waits for the key has the response, and no other command gets or loses one. */
  ghost predicate MatchesOnly(s: State, r: Reply, t: State) {
    && (forall k :: k in t.pending <==> k in s.pending && !Carries(s, r, k))
    && (forall k :: k in t.pending ==> t.pending[k] == s.pending[k])
    && (forall k :: k in s.pending && Carries(s, r, k) ==>
          s.pending[k] in t.matched && t.matched[s.pending[k]] == Match(k, r))
    && (forall c :: c in s.matched && !WaitsFor(s, r, c) ==> c in t.matched && t.matched[c] == s.matched[c])
    && (forall c :: c in t.matched && c !in s.matched ==> WaitsFor(s, r, c))
  }

  /** The command waits for a key that the response is meant for. */
  ghost predicate WaitsFor(s: State, r: Reply, c: string) {
    exists k :: k in s.pending && s.pending[k] == c && Carries(s, r, k)
  }

  /** A response nobody waits for is kept under its key as long as there is room, in place of an earlier one. */
  ghost predicate BuffersOnly(s: State, r: Reply, t: State) {
    forall k :: if Carries(s, r, k) && k !in s.pending && |s.buffered| < |s.ids| then
                  k in t.buffered && t.buffered[k] == r
                else (k in t.buffered <==> k in s.buffered) && (k in s.buffered ==> t.buffered[k] == s.buffered[k])
  }

  /**
   A response fails the batch exactly if it carries no id on the fast path; otherwise it goes to the
   command that waits for its key, or into the buffer, and one for no key of the batch changes nothing.
   */
  lemma RepliesExactly(s: State, r: Reply)
    ensures var t := Step(s, Replied(r));
      && SameBatch(s, t) && (t.failed <==> s.failed || (s.fast && r.bodyId.None?))
      && (if s.failed then t == s else MatchesOnly(s, r, t) && BuffersOnly(s, r, t))
      && ((forall k :: !Carries(s, r, k)) ==> t == s.(failed := t.failed))
  {
    if !s.failed {
      if key :| Carries(s, r, key) {
        assert ReplyStep(s, r) == Receive(s, key, r);
        ReceiveMatches(s, key, r);
        ReceiveBuffers(s, key, r);
        ReceiveKeepsBatch(s, key, r);
      } else {
        StrayChangesNothing(s, r);
      }
    }
  }

  lemma StrayChangesNothing(s: State, r: Reply)
    requires !s.failed && forall k :: !Carries(s, r, k)
    ensures ReplyStep(s, r) == s.(failed := s.fast && r.bodyId.None?)
    ensures MatchesOnly(s, r, ReplyStep(s, r)) && BuffersOnly(s, r, ReplyStep(s, r))
  {
    if KeyOf(s.fast, r).Some? {
      assert !Carries(s, r, KeyOf(s.fast, r).value);
    }
  }

  lemma ReceiveKeepsBatch(s: State, key: string, r: Reply)
    ensures SameBatch(s, Receive(s, key, r)) && Receive(s, key, r).failed == s.failed
  {
    var t := s.(arrived := s.arrived + {key});
    assert SameBatch(s, t);
    if key in s.pending {
      assert Receive(s, key, r) ==
             t.(pending := s.pending - {key}, matched := s.matched[s.pending[key] := Match(key, r)]);
    } else if |s.buffered| < |s.ids| {
      assert Receive(s, key, r) == t.(buffered := s.buffered[key := r]);
    }
  }

  lemma ReceiveMatches(s: State, key: string, r: Reply)
    requires Carries(s, r, key)
    ensures MatchesOnly(s, r, Receive(s, key, r))
  {
    if key in s.pending {
      assert WaitsFor(s, r, s.pending[key]);
    }
  }

  lemma ReceiveBuffers(s: State, key: string, r: Reply)
    requires Carries(s, r, key)
    ensures BuffersOnly(s, r, Receive(s, key, r))
  {
  }

  /** What breaks the batch fails it, and changes nothing else. */
  lemma BreaksExactly(s: State)
    ensures Step(s, Broke).failed && SameBatch(s, Step(s, Broke)) && Step(s, Broke).matched == s.matched
  {
  }

  /** The event fails a batch: an error, or on the fast path a response without an id. */
  predicate Fails(fast: bool, e: Event) {
    e.Broke? || (fast && e.Replied? && e.reply.bodyId.None?)
  }

  /** In every run a batch has failed if and only if one of its events fails it; no response to others does. */
  lemma {:induction false} FailsExactly(s: State, es: seq<Event>)
    requires ValidRun(s, es)
    ensures After(s, es).failed <==> s.failed || exists n :: 0 <= n < |es| && Fails(s.fast, es[n])
    decreases |es|
  {
    if es != [] {
      var t := Step(s, es[0]);
      StepFollows(s, es[0]);
      if es[0].Opened? { OpenEachTouches(s, es[0].items, s.ids); }
      assert t.failed <==> s.failed || Fails(s.fast, es[0]);
      FailsExactly(t, es[1..]);
      if n :| 0 <= n < |es| && Fails(s.fast, es[n]) {
        if n > 0 { assert es[1..][n - 1] == es[n]; }
      }
    }
  }

  /** In every run a command that has its response keeps it: a second one under its key changes nothing for it. */
  lemma {:induction false} MatchedForGood(s: State, es: seq<Event>, c: string)
    requires Inv(s) && ValidRun(s, es) && s.isOpen && c in s.matched
    ensures c in After(s, es).matched && After(s, es).matched[c] == s.matched[c]
    decreases |es|
  {
    if es != [] {
      StepKeeps(s, es[0]);
      StepFollows(s, es[0]);
      if es[0].Replied? && !s.failed {
        RepliesExactly(s, es[0].reply);
        MatchedWaitsForNone(s, es[0].reply, c);
      }
      MatchedForGood(Step(s, es[0]), es[1..], c);
    }
  }

  lemma MatchedWaitsForNone(s: State, r: Reply, c: string)
    requires Inv(s) && s.isOpen && !s.failed && c in s.matched
    ensures !WaitsFor(s, r, c)
  {
    assert c in Keys(s) && Keys(s)[c] !in s.pending;
    assert forall k :: k in s.pending ==> s.pending[k] != c;
  }

  // ---------- the acceptance ----------

  /** The hub's word on a command. */
  ghost predicate Accepted(items: seq<AcceptItem>, c: string, requestId: string) {
    AcceptItem(c, Some(requestId)) in items
  }

  ghost predicate Mentioned(items: seq<AcceptItem>, c: string) {
    exists item :: item in items && item.clientId == c
  }

  /** The key of a command: its own id on the fast path, the accepted request id on the classic one. */
  ghost predicate HasKey(fast: bool, items: seq<AcceptItem>, c: string, key: string) {
    if fast then key == c else Accepted(items, c, key)
  }

  /** A command with a key has the response kept under it, or waits for it; one without is refused, and why. */
  ghost predicate OpensCommand(s: State, items: seq<AcceptItem>, c: string, t: State) {
    && (forall key :: HasKey(s.fast, items, c, key) ==>
          && c !in t.failures && key !in t.buffered
          && if key in s.buffered then
               c in t.matched && t.matched[c] == Match(key, s.buffered[key]) && key !in t.pending
             else c !in t.matched && key in t.pending && t.pending[key] == c)
    && (!s.fast && Mentioned(items, c) && !(exists key :: Accepted(items, c, key)) ==>
          c in t.failures && t.failures[c] == RefusedItem && c !in t.matched)
    && (!s.fast && !Mentioned(items, c) ==> c in t.failures && t.failures[c] == Missing && c !in t.matched)
  }

  /** The hub names a command at most once. */
  lemma ItemIs(items: seq<AcceptItem>, c: string)
    requires UniqueItems(items)
    ensures Mentioned(items, c) <==> Find(items, c).Some?
    ensures Find(items, c).Some? ==>
              forall key :: Accepted(items, c, key) <==> Find(items, c).value.requestId == Some(key)
  {
    FindIs(items, c);
    if Find(items, c).Some? {
      var item := Find(items, c).value;
      forall key | Accepted(items, c, key) ensures item.requestId == Some(key) {
        var i :| 0 <= i < |items| && items[i] == item;
        var j :| 0 <= j < |items| && items[j] == AcceptItem(c, Some(key));
      }
      forall key | item.requestId == Some(key) ensures Accepted(items, c, key) {
        assert item == AcceptItem(c, Some(key));
      }
    }
  }

  lemma KeyIs(fast: bool, items: seq<AcceptItem>, c: string)
    requires UniqueItems(items)
    ensures forall key :: HasKey(fast, items, c, key) <==> MemberKey(fast, items, c) == Some(key)
  {
    ItemIs(items, c);
  }

  /** The same by the key map: what the command opened got, and why it was refused. */
  ghost predicate OpenedBy(s: State, keys: map<string, string>, items: seq<AcceptItem>, c: string, t: State) {
    if c in keys then
      && c !in t.failures && keys[c] !in t.buffered
      && if keys[c] in s.buffered then
           c in t.matched && t.matched[c] == Match(keys[c], s.buffered[keys[c]]) && keys[c] !in t.pending
         else c !in t.matched && keys[c] in t.pending && t.pending[keys[c]] == c
    else c in t.failures && t.failures[c] == RefusalCode(items, c) && c !in t.matched
  }

  /** What is left in the buffer is as it was, and what is gone belongs to the commands opened so far. */
  ghost predicate BufferLeft(s: State, keys: map<string, string>, members: set<string>, t: State) {
    && (forall k :: k in t.buffered ==> k in s.buffered && t.buffered[k] == s.buffered[k])
    && (forall k :: k in s.buffered && k !in t.buffered ==> BelongsToOne(keys, members, k))
  }

  ghost predicate OpenedSoFar(s: State, keys: map<string, string>, items: seq<AcceptItem>, members: set<string>,
                              t: State) {
    BufferLeft(s, keys, members, t) && forall c :: c in members ==> OpenedBy(s, keys, items, c, t)
  }

  lemma AwaitsNew(s: State, keys: map<string, string>, items: seq<AcceptItem>, members: set<string>, m: State,
                  c: string)
    requires Injective(keys) && MembersOk(m, keys, members) && BufferLeft(s, keys, members, m)
    requires c !in members && c in keys
    ensures OpenedBy(s, keys, items, c, Await(m, keys[c], c))
  {
    IsNew(keys, members, m, c);
    assert keys[c] in s.buffered <==> keys[c] in m.buffered;
  }

  lemma IsNew(keys: map<string, string>, members: set<string>, m: State, c: string)
    requires Injective(keys) && MembersOk(m, keys, members) && c !in members && c in keys
    ensures keys[c] !in m.pending && !BelongsToOne(keys, members, keys[c]) && c !in m.matched && c !in m.failures
  {
  }

  lemma AwaitsFromBuffer(s: State, keys: map<string, string>, members: set<string>, m: State, c: string)
    requires BufferLeft(s, keys, members, m) && c in keys
    ensures BufferLeft(s, keys, members + {c}, Await(m, keys[c], c))
  {
    MoreBelong(keys, members, c);
  }

  lemma AwaitsKeepsOld(s: State, keys: map<string, string>, items: seq<AcceptItem>, m: State, c: string, d: string)
    requires Injective(keys) && OpenedBy(s, keys, items, d, m) && c != d && c in keys
    ensures OpenedBy(s, keys, items, d, Await(m, keys[c], c))
  {
    assert d in keys ==> keys[d] != keys[c];
    var t := Await(m, keys[c], c);
    if keys[c] in m.buffered {
      assert t == m.(buffered := m.buffered - {keys[c]},
                     matched := m.matched[c := Match(keys[c], m.buffered[keys[c]])]);
    } else {
      assert t == m.(pending := m.pending[keys[c] := c]);
    }
  }

  lemma OpensNext(s: State, keys: map<string, string>, items: seq<AcceptItem>, members: set<string>, m: State,
                  c: string)
    requires Injective(keys) && MembersOk(m, keys, members) && OpenedSoFar(s, keys, items, members, m) && c !in members
    ensures OpenedSoFar(s, keys, items, members + {c},
                        if c in keys then Await(m, keys[c], c) else Refuse(m, c, RefusalCode(items, c)))
  {
    if c in keys {
      AwaitsNew(s, keys, items, members, m, c);
      AwaitsFromBuffer(s, keys, members, m, c);
      forall d | d in members ensures OpenedBy(s, keys, items, d, Await(m, keys[c], c)) {
        AwaitsKeepsOld(s, keys, items, m, c, d);
      }
    } else {
      MoreBelong(keys, members, c);
    }
  }

  /** Nothing but the commands opened so far is in the maps. */
  lemma MembersSoFar(s: State, items: seq<AcceptItem>, n: nat)
    requires UniqueItems(items) && Unique(s.ids) && n <= |s.ids| && BufferOk(s)
    requires s.pending == map[] && s.matched == map[] && s.failures == map[]
    ensures var m := OpenEach(s, items, s.ids[..n]);
      MembersOk(m, KeyMap(s.fast, items, s.ids), Members(s.ids[..n])) && SameBut(s, m)
  {
    OpenEachKeeps(s, items, s.ids, s.buffered.Keys, n);
    OpenEachTouches(s, items, s.ids[..n]);
  }

  lemma OpensOne(s: State, items: seq<AcceptItem>, members: set<string>, m: State, c: string)
    requires UniqueItems(items) && c in s.ids && c !in members && m.fast == s.fast
    requires MembersOk(m, KeyMap(s.fast, items, s.ids), members)
    requires OpenedSoFar(s, KeyMap(s.fast, items, s.ids), items, members, m)
    ensures OpenedSoFar(s, KeyMap(s.fast, items, s.ids), items, members + {c}, OpenOne(m, items, c))
  {
    KeysAreDistinct(s.fast, items, s.ids);
    OpensNext(s, KeyMap(s.fast, items, s.ids), items, members, m, c);
    OpenOneIs(m, items, s.ids, c);
  }

  lemma {:induction false} OpensEach(s: State, items: seq<AcceptItem>, n: nat)
    requires UniqueItems(items) && Unique(s.ids) && n <= |s.ids| && BufferOk(s)
    requires s.pending == map[] && s.matched == map[] && s.failures == map[]
    ensures OpenedSoFar(s, KeyMap(s.fast, items, s.ids), items, Members(s.ids[..n]), OpenEach(s, items, s.ids[..n]))
  {
    if n == 0 {
      assert Members(s.ids[..n]) == {};
    } else {
      var m, c := OpenEach(s, items, s.ids[..n - 1]), s.ids[n - 1];
      OpensEach(s, items, n - 1);
      MembersSoFar(s, items, n - 1);
      OpensOne(s, items, Members(s.ids[..n - 1]), m, c);
      assert s.ids[..n][..n - 1] == s.ids[..n - 1];
      assert Members(s.ids[..n]) == Members(s.ids[..n - 1]) + {c};
    }
  }

  lemma OpenedByIs(s: State, items: seq<AcceptItem>, c: string, t: State)
    requires UniqueItems(items) && c in s.ids && OpenedBy(s, KeyMap(s.fast, items, s.ids), items, c, t)
    ensures OpensCommand(s, items, c, t)
  {
    KeyIs(s.fast, items, c);
    ItemIs(items, c);
  }

  /** Some command of the batch has the key. */
  ghost predicate Awaited(s: State, items: seq<AcceptItem>, key: string) {
    exists i :: 0 <= i < |s.ids| && HasKey(s.fast, items, s.ids[i], key)
  }

  lemma AwaitedIs(s: State, items: seq<AcceptItem>, key: string)
    requires UniqueItems(items)
    ensures Awaited(s, items, key) <==> BelongsToOne(KeyMap(s.fast, items, s.ids), Members(s.ids), key)
  {
    if i :| 0 <= i < |s.ids| && HasKey(s.fast, items, s.ids[i], key) {
      KeyIs(s.fast, items, s.ids[i]);
      assert s.ids[i] in Members(s.ids);
    }
    if c :| c in Members(s.ids) && c in KeyMap(s.fast, items, s.ids) && KeyMap(s.fast, items, s.ids)[c] == key {
      KeyIs(s.fast, items, c);
      var i :| 0 <= i < |s.ids| && s.ids[i] == c;
    }
  }

  /**
   Opening the batch serves each command by itself: from the buffer, or by waiting under its key, or
   by refusing it for what the hub said about it.
   */
  lemma OpensExactly(s: State, items: seq<AcceptItem>)
    requires Inv(s) && Enabled(s, Opened(items)) && !s.failed
    ensures var t := Step(s, Opened(items));
      && t.fast == s.fast && t.ids == s.ids && t.isOpen && t.items == items && !t.failed
      && (forall i :: 0 <= i < |s.ids| ==> OpensCommand(s, items, s.ids[i], t))
      && (forall k :: k in t.pending ==> t.pending[k] in s.ids && HasKey(s.fast, items, t.pending[k], k))
      && (forall c :: c in t.matched || c in t.failures ==> c in s.ids)
      && (forall k :: k in t.buffered <==> k in s.buffered && !Awaited(s, items, k))
      && (forall k :: k in t.buffered ==> t.buffered[k] == s.buffered[k])
  {
    var n := |s.ids|;
    OpensEach(s, items, n);
    MembersSoFar(s, items, n);
    assert s.ids[..n] == s.ids;
    var m := OpenEach(s, items, s.ids);
    forall k | k in m.pending ensures m.pending[k] in s.ids && HasKey(s.fast, items, m.pending[k], k) {
      KeyIs(s.fast, items, m.pending[k]);
    }
    forall i | 0 <= i < n ensures OpensCommand(s, items, s.ids[i], Step(s, Opened(items))) {
      assert s.ids[i] in Members(s.ids);
      OpenedByIs(s, items, s.ids[i], m);
    }
    forall k ensures k in m.buffered <==> k in s.buffered && !Awaited(s, items, k) {
      AwaitedIs(s, items, k);
    }
  }

  // ---------- the results ----------

  /** A response is of the right identity if its id is the command's or the hub's, or it has none. */
  predicate RightId(fast: bool, c: string, key: string, bodyId: Option<string>) {
    bodyId.None? || bodyId.value == c || (!fast && bodyId.value == key)
  }

  lemma AllAnswered(s: State)
    requires Inv(s) && Complete(s)
    ensures forall i :: 0 <= i < |s.ids| ==> s.ids[i] in s.matched || s.ids[i] in s.failures
    ensures forall c :: c in s.matched ==> c in s.ids
  {
    assert s.pending == map[];
    forall i | 0 <= i < |s.ids| ensures s.ids[i] in s.matched || s.ids[i] in s.failures {
      assert s.ids[i] in Members(s.ids);
    }
  }

  /** A batch gives no result at all exactly if one of its responses is unsound, too large, or of the wrong identity. */
  lemma ResultsExactly(s: State)
    requires Inv(s) && Complete(s)
    ensures Results(s).None? <==>
              exists c :: c in s.matched
                && !(s.matched[c].reply.sound && s.matched[c].reply.fits
                     && RightId(s.fast, c, s.matched[c].key, s.matched[c].reply.bodyId))
    ensures Results(s).Some? ==>
              && |Results(s).value| == |s.ids|
              && forall i :: 0 <= i < |s.ids| ==> ResultIs(s, s.ids[i], Results(s).value[i])
  {
    AllAnswered(s);
    if c :| c in s.matched && !Acceptable(s, c, s.matched[c]) {
      var i :| 0 <= i < |s.ids| && s.ids[i] == c;
    }
  }

  /** A matched command has the payload and the request id of its response; any other one what it was refused for. */
  ghost predicate ResultIs(s: State, c: string, result: ItemResult) {
    if c in s.matched then
      var r := s.matched[c].reply;
      var requestId := if !s.fast then s.matched[c].key else if r.requestId.Some? then r.requestId.value else c;
      result == Success(c, requestId, r.payload)
    else c in s.failures && result == Failure(c, s.failures[c])
  }
}
