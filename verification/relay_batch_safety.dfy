/** What a relay batch guarantees, whatever the order of its responses and its acceptance. */
module RelayBatchSafety {
  import opened Collections
  import opened Wrappers
  import opened RelayBatchSpec

  /** The key the response of a command will carry, if the hub accepted the command. */
  function MemberKey(fast: bool, items: seq<AcceptItem>, clientId: string): Option<string> {
    if fast then Some(clientId)
    else
      var item := Find(items, clientId);
      if item.Some? then item.value.requestId else None
  }

  /** The keys of the commands the hub accepted. */
  ghost function KeyMap(fast: bool, items: seq<AcceptItem>, ids: seq<string>): map<string, string> {
    map c | c in ids && MemberKey(fast, items, c).Some? :: MemberKey(fast, items, c).value
  }

  ghost function Keys(s: State): map<string, string> { KeyMap(s.fast, s.items, s.ids) }

  // ---------- acceptance items ----------

  lemma {:induction false} FindIs(items: seq<AcceptItem>, clientId: string)
    ensures var r := Find(items, clientId);
      && (r.Some? ==> r.value in items && r.value.clientId == clientId)
      && (r.None? ==> forall item :: item in items ==> item.clientId != clientId)
  {
    if items != [] && items[0].clientId != clientId {
      FindIs(items[1..], clientId);
      assert items == [items[0]] + items[1..];
    }
  }

  ghost predicate Injective(keys: map<string, string>) {
    forall a, b :: a in keys && b in keys && keys[a] == keys[b] ==> a == b
  }

  /** Different commands are correlated by different keys. */
  lemma KeysAreDistinct(fast: bool, items: seq<AcceptItem>, ids: seq<string>)
    requires UniqueItems(items)
    ensures Injective(KeyMap(fast, items, ids))
  {
    var keys := KeyMap(fast, items, ids);
    forall a, b | a in keys && b in keys && keys[a] == keys[b] ensures a == b {
      if !fast {
        FindIs(items, a);
        FindIs(items, b);
        var i :| 0 <= i < |items| && items[i] == Find(items, a).value;
        var j :| 0 <= j < |items| && items[j] == Find(items, b).value;
      }
    }
  }

  // ---------- the invariant ----------

  /** Until the batch is open, everything that arrived is in the buffer, unless the buffer is full. */
  ghost predicate BufferOk(s: State) {
    && s.buffered.Keys <= s.arrived
    && (s.buffered.Keys == s.arrived || |s.buffered| >= |s.ids|)
    && KeysOk(s)
  }

  /** What is in the buffer has come in under its own key. */
  ghost predicate KeysOk(s: State) {
    forall k :: k in s.buffered ==> KeyOf(s.fast, s.buffered[k]) == Some(k) && k in s.arrived
  }

  /** A command is waited for under its own key. */
  ghost predicate PendingOk(keys: map<string, string>, pending: map<string, string>, members: set<string>) {
    forall k :: k in pending ==> pending[k] in members && pending[k] in keys && keys[pending[k]] == k
  }

  /** A command is matched with a response that carries its own key. */
  ghost predicate MatchedOk(fast: bool, keys: map<string, string>, matched: map<string, Match>, members: set<string>,
                            arrived: set<string>) {
    forall c :: c in matched ==>
      && c in members && c in keys && keys[c] == matched[c].key
      && KeyOf(fast, matched[c].reply) == Some(matched[c].key) && matched[c].key in arrived
  }

  ghost predicate FailuresOk(keys: map<string, string>, failures: map<string, Code>, members: set<string>) {
    forall c :: c in failures ==> c in members && c !in keys
  }

  /** Every command is refused, matched or waited for. */
  ghost predicate Covered(keys: map<string, string>, pending: map<string, string>, matched: map<string, Match>,
                          failures: map<string, Code>, members: set<string>) {
    forall c :: c in members ==>
      if c !in keys then c in failures else (c in matched <==> keys[c] !in pending)
  }

  ghost predicate MembersOk(s: State, keys: map<string, string>, members: set<string>) {
    && PendingOk(keys, s.pending, members)
    && MatchedOk(s.fast, keys, s.matched, members, s.arrived)
    && FailuresOk(keys, s.failures, members)
    && Covered(keys, s.pending, s.matched, s.failures, members)
  }

  function Members(ids: seq<string>): set<string> { set c | c in ids }

  ghost predicate Inv(s: State) {
    && Unique(s.ids)
    && UniqueItems(s.items)
    && (!s.isOpen && !s.failed ==> BufferOk(s) && s.pending == map[] && s.matched == map[] && s.failures == map[])
    && (s.isOpen && !s.failed ==> MembersOk(s, Keys(s), Members(s.ids)))
  }

  // ---------- every step keeps it ----------

  lemma MoreArrived(fast: bool, keys: map<string, string>, matched: map<string, Match>, members: set<string>,
                    arrived: set<string>, key: string)
    requires MatchedOk(fast, keys, matched, members, arrived)
    ensures MatchedOk(fast, keys, matched, members, arrived + {key})
  {
  }

  /** The response a command waited for. */
  lemma TakeMatches(fast: bool, keys: map<string, string>, matched: map<string, Match>, members: set<string>,
                    arrived: set<string>, c: string, r: Reply)
    requires MatchedOk(fast, keys, matched, members, arrived)
    requires c in members && c in keys && KeyOf(fast, r) == Some(keys[c])
    ensures MatchedOk(fast, keys, matched[c := Match(keys[c], r)], members, arrived + {keys[c]})
  {
  }

  lemma TakeCovers(keys: map<string, string>, pending: map<string, string>, matched: map<string, Match>,
                   failures: map<string, Code>, members: set<string>, c: string, m: Match)
    requires Covered(keys, pending, matched, failures, members) && c in keys
    requires forall d :: d in keys && keys[d] == keys[c] ==> d == c
    ensures Covered(keys, pending - {keys[c]}, matched[c := m], failures, members)
  {
  }

  lemma TakeKeeps(s: State, keys: map<string, string>, members: set<string>, c: string, r: Reply)
    requires MembersOk(s, keys, members) && c in members && c in keys && keys[c] in s.pending && s.pending[keys[c]] == c
    requires forall d :: d in keys && keys[d] == keys[c] ==> d == c
    requires KeyOf(s.fast, r) == Some(keys[c])
    ensures MembersOk(Receive(s, keys[c], r), keys, members)
  {
    TakeMatches(s.fast, keys, s.matched, members, s.arrived, c, r);
    TakeCovers(keys, s.pending, s.matched, s.failures, members, c, Match(keys[c], r));
  }

  lemma StrayKeeps(s: State, keys: map<string, string>, members: set<string>, key: string, r: Reply)
    requires MembersOk(s, keys, members) && key !in s.pending
    ensures MembersOk(Receive(s, key, r), keys, members)
  {
    MoreArrived(s.fast, keys, s.matched, members, s.arrived, key);
    assert Receive(s, key, r) == s.(arrived := s.arrived + {key}, buffered := Receive(s, key, r).buffered);
  }

  lemma EarlyKeeps(s: State, key: string, r: Reply)
    requires BufferOk(s) && s.pending == map[] && KeyOf(s.fast, r) == Some(key)
    ensures BufferOk(Receive(s, key, r))
  {
    var t := Receive(s, key, r);
    assert t == s.(arrived := s.arrived + {key},
                   buffered := if |s.buffered| < |s.ids| then s.buffered[key := r] else s.buffered);
    if |s.buffered| < |s.ids| {
      assert t.buffered.Keys == s.buffered.Keys + {key};
    }
  }

  lemma ReceiveKeeps(s: State, key: string, r: Reply)
    requires Inv(s) && !s.failed && KeyOf(s.fast, r) == Some(key)
    ensures Inv(Receive(s, key, r))
  {
    if s.isOpen {
      KeysAreDistinct(s.fast, s.items, s.ids);
      if key in s.pending {
        TakeKeeps(s, Keys(s), Members(s.ids), s.pending[key], r);
      } else {
        StrayKeeps(s, Keys(s), Members(s.ids), key, r);
      }
    } else {
      EarlyKeeps(s, key, r);
    }
  }

  /** What has come in early for a command is still in the buffer when its turn comes. */
  ghost predicate Buffered(s: State, keys: map<string, string>, members: set<string>, early: set<string>) {
    && (forall k :: k in early && k !in s.buffered ==> BelongsToOne(keys, members, k))
    && (forall c :: c in members && c in keys && keys[c] in early ==> c in s.matched)
  }

  ghost predicate BelongsToOne(keys: map<string, string>, members: set<string>, key: string) {
    exists c :: c in members && c in keys && keys[c] == key
  }

  /** One more command waits for its response. */
  lemma WaitKeeps(s: State, keys: map<string, string>, members: set<string>, c: string)
    requires MembersOk(s, keys, members) && c !in members && c in keys
    requires forall d :: d in members && d in keys ==> keys[d] != keys[c]
    ensures MembersOk(s.(pending := s.pending[keys[c] := c]), keys, members + {c})
  {
  }

  /** One more command has its response already. */
  lemma MatchKeeps(s: State, keys: map<string, string>, members: set<string>, c: string, r: Reply)
    requires MembersOk(s, keys, members) && c !in members && c in keys
    requires forall d :: d in members && d in keys ==> keys[d] != keys[c]
    requires KeyOf(s.fast, r) == Some(keys[c]) && keys[c] in s.arrived
    ensures MembersOk(s.(matched := s.matched[c := Match(keys[c], r)]), keys, members + {c})
  {
  }

  /** One more command starts to wait, or takes its response from the buffer. */
  lemma AwaitKeeps(s: State, keys: map<string, string>, members: set<string>, c: string)
    requires Injective(keys) && MembersOk(s, keys, members) && KeysOk(s) && c !in members && c in keys
    ensures MembersOk(Await(s, keys[c], c), keys, members + {c}) && KeysOk(Await(s, keys[c], c))
  {
    assert forall d :: d in members && d in keys ==> keys[d] != keys[c];
    if keys[c] in s.buffered {
      MatchKeeps(s.(buffered := s.buffered - {keys[c]}), keys, members, c, s.buffered[keys[c]]);
    } else {
      WaitKeeps(s, keys, members, c);
    }
  }

  lemma AwaitKeepsBuffered(s: State, keys: map<string, string>, members: set<string>, early: set<string>, c: string)
    requires Injective(keys) && c !in members && c in keys && Buffered(s, keys, members, early)
    ensures Buffered(Await(s, keys[c], c), keys, members + {c}, early)
  {
    MoreBelong(keys, members, c);
    assert keys[c] in early ==> keys[c] in s.buffered;
  }

  /** One more command that the hub did not take. */
  lemma RefuseKeeps(s: State, keys: map<string, string>, members: set<string>, early: set<string>, c: string,
                    code: Code)
    requires MembersOk(s, keys, members) && KeysOk(s) && Buffered(s, keys, members, early) && c !in keys
    ensures var t := Refuse(s, c, code);
      MembersOk(t, keys, members + {c}) && KeysOk(t) && Buffered(t, keys, members + {c}, early)
  {
    MoreBelong(keys, members, c);
  }

  lemma MoreBelong(keys: map<string, string>, members: set<string>, c: string)
    ensures forall k :: BelongsToOne(keys, members, k) ==> BelongsToOne(keys, members + {c}, k)
    ensures c in keys ==> BelongsToOne(keys, members + {c}, keys[c])
  {
    assert c in members + {c};
    forall k | BelongsToOne(keys, members, k) ensures BelongsToOne(keys, members + {c}, k) {
      var d :| d in members && d in keys && keys[d] == k;
      assert d in members + {c};
    }
  }

  /** Opening goes by the keys. */
  lemma OpenOneIs(s: State, items: seq<AcceptItem>, ids: seq<string>, c: string)
    requires c in ids
    ensures var keys := KeyMap(s.fast, items, ids);
      if c in keys then OpenOne(s, items, c) == Await(s, keys[c], c)
      else OpenOne(s, items, c) == Refuse(s, c, RefusalCode(items, c))
  {
  }

  function RefusalCode(items: seq<AcceptItem>, c: string): Code {
    if Find(items, c).None? then Missing else RefusedItem
  }

  function Refuse(s: State, c: string, code: Code): State {
    s.(failures := s.failures[c := code])
  }

  lemma OpenOneKeeps(s: State, items: seq<AcceptItem>, ids: seq<string>, members: set<string>, early: set<string>,
                     c: string)
    requires UniqueItems(items) && c in ids && c !in members
    requires var keys := KeyMap(s.fast, items, ids);
             MembersOk(s, keys, members) && KeysOk(s) && Buffered(s, keys, members, early)
    ensures var keys := KeyMap(s.fast, items, ids); var t := OpenOne(s, items, c);
      MembersOk(t, keys, members + {c}) && KeysOk(t) && Buffered(t, keys, members + {c}, early)
  {
    var keys := KeyMap(s.fast, items, ids);
    OpenOneIs(s, items, ids, c);
    if c in keys {
      KeysAreDistinct(s.fast, items, ids);
      AwaitKeeps(s, keys, members, c);
      AwaitKeepsBuffered(s, keys, members, early, c);
    } else {
      RefuseKeeps(s, keys, members, early, c, RefusalCode(items, c));
    }
  }

  /** What a state keeps when nothing but the maps of the batch change. */
  ghost predicate SameBut(s: State, t: State) {
    && t.fast == s.fast && t.ids == s.ids && t.isOpen == s.isOpen && t.items == s.items
    && t.failed == s.failed && t.arrived == s.arrived
  }

  lemma AwaitTouches(s: State, key: string, clientId: string)
    ensures SameBut(s, Await(s, key, clientId))
  {
  }

  lemma OpenOneTouches(s: State, items: seq<AcceptItem>, clientId: string)
    ensures SameBut(s, OpenOne(s, items, clientId))
  {
    var key := MemberKey(s.fast, items, clientId);
    if key.Some? {
      AwaitTouches(s, key.value, clientId);
      assert OpenOne(s, items, clientId) == Await(s, key.value, clientId);
    }
  }

  lemma {:induction false} OpenEachTouches(s: State, items: seq<AcceptItem>, ids: seq<string>)
    ensures SameBut(s, OpenEach(s, items, ids))
  {
    if ids != [] {
      OpenEachTouches(s, items, ids[..|ids| - 1]);
      OpenOneTouches(OpenEach(s, items, ids[..|ids| - 1]), items, ids[|ids| - 1]);
    }
  }

  lemma {:induction false} OpenEachKeeps(s: State, items: seq<AcceptItem>, ids: seq<string>, early: set<string>, n: nat)
    requires UniqueItems(items) && Unique(ids) && n <= |ids|
    requires var keys := KeyMap(s.fast, items, ids); MembersOk(s, keys, {}) && KeysOk(s) && Buffered(s, keys, {}, early)
    ensures var keys := KeyMap(s.fast, items, ids); var t := OpenEach(s, items, ids[..n]);
      MembersOk(t, keys, Members(ids[..n])) && KeysOk(t) && Buffered(t, keys, Members(ids[..n]), early)
  {
    if n == 0 {
      assert Members(ids[..n]) == {};
    } else {
      var m := OpenEach(s, items, ids[..n - 1]);
      OpenEachKeeps(s, items, ids, early, n - 1);
      OpenEachTouches(s, items, ids[..n - 1]);
      OpenOneKeeps(m, items, ids, Members(ids[..n - 1]), early, ids[n - 1]);
      assert ids[..n][..n - 1] == ids[..n - 1];
      assert Members(ids[..n]) == Members(ids[..n - 1]) + {ids[n - 1]};
    }
  }

  /** Opening the batch serves every command whose response is in the buffer. */
  lemma OpenKeeps(s: State, items: seq<AcceptItem>)
    requires Inv(s) && !s.isOpen && !s.failed && UniqueItems(items)
    ensures Inv(Step(s, Opened(items))) && Step(s, Opened(items)).isOpen
    ensures s.buffered.Keys == s.arrived ==> Served(Step(s, Opened(items)))
  {
    OpenEachKeeps(s, items, s.ids, s.buffered.Keys, |s.ids|);
    OpenEachTouches(s, items, s.ids);
    assert s.ids[..|s.ids|] == s.ids;
    assert Keys(Step(s, Opened(items))) == KeyMap(s.fast, items, s.ids);
  }

  lemma StepKeeps(s: State, e: Event)
    requires Inv(s) && Enabled(s, e)
    ensures Inv(Step(s, e))
  {
    match e
    case Replied(r) =>
      if !s.failed && KeyOf(s.fast, r).Some? {
        ReceiveKeeps(s, KeyOf(s.fast, r).value, r);
      }
    case Opened(items) => if !s.failed { OpenKeeps(s, items); }
    case Broke =>
  }

  // ---------- runs ----------

  ghost predicate ValidRun(s: State, es: seq<Event>)
    decreases |es|
  {
    es == [] || (Enabled(s, es[0]) && ValidRun(Step(s, es[0]), es[1..]))
  }

  ghost function After(s: State, es: seq<Event>): State
    requires ValidRun(s, es)
    decreases |es|
  {
    if es == [] then s else After(Step(s, es[0]), es[1..])
  }

  /** What a step takes over from the state before it. */
  ghost predicate Follows(s: State, t: State) {
    t.ids == s.ids && t.fast == s.fast && (s.isOpen ==> t.isOpen && t.items == s.items) && (s.failed ==> t.failed)
  }

  lemma StepFollows(s: State, e: Event)
    requires Enabled(s, e)
    ensures Follows(s, Step(s, e))
  {
    if e.Opened? {
      OpenEachTouches(s, e.items, s.ids);
    }
  }

  lemma {:induction false} RunKeeps(s: State, es: seq<Event>)
    requires Inv(s) && ValidRun(s, es)
    ensures Inv(After(s, es)) && Follows(s, After(s, es))
    decreases |es|
  {
    if es != [] {
      StepKeeps(s, es[0]);
      StepFollows(s, es[0]);
      RunKeeps(Step(s, es[0]), es[1..]);
    }
  }

  /**
   One result a command, in command order, each with that command's id.  A success carries a
   response that arrived under the key the hub assigned to that very command, and passed the
   checks; a failure belongs to a command the hub did not take.
   */
  ghost predicate Correlated(s: State, results: seq<ItemResult>) {
    && |results| == |s.ids|
    && forall i :: 0 <= i < |s.ids| ==>
         && results[i].clientId == s.ids[i]
         && (results[i].Failure? <==> MemberKey(s.fast, s.items, s.ids[i]).None?)
         && (results[i].Success? ==>
               && s.ids[i] in s.matched
               && results[i].payload == s.matched[s.ids[i]].reply.payload
               && KeyOf(s.fast, s.matched[s.ids[i]].reply) == MemberKey(s.fast, s.items, s.ids[i])
               && (!s.fast ==> Some(results[i].requestId) == MemberKey(s.fast, s.items, s.ids[i]))
               && Acceptable(s, s.ids[i], s.matched[s.ids[i]]))
  }

  lemma CompleteIsCorrelated(s: State)
    requires Inv(s) && Complete(s) && Results(s).Some?
    ensures Correlated(s, Results(s).value)
  {
    assert s.pending == map[];
    forall i | 0 <= i < |s.ids| ensures s.ids[i] in Members(s.ids) {
    }
  }

  /** A batch that resolves gives correlated results, in every run. */
  lemma ResultsAreCorrelated(fast: bool, ids: seq<string>, es: seq<Event>)
    requires Unique(ids) && ValidRun(Initial(fast, ids), es)
    requires Complete(After(Initial(fast, ids), es)) && Results(After(Initial(fast, ids), es)).Some?
    ensures var s := After(Initial(fast, ids), es);
      s.ids == ids && s.fast == fast && Correlated(s, Results(s).value)
  {
    RunKeeps(Initial(fast, ids), es);
    CompleteIsCorrelated(After(Initial(fast, ids), es));
  }

  /** Every command whose response has arrived has it. */
  ghost predicate Served(s: State) {
    ServedBy(s, Keys(s))
  }

  ghost predicate ServedBy(s: State, keys: map<string, string>) {
    forall c :: ServedAt(s, keys, c)
  }

  ghost predicate ServedAt(s: State, keys: map<string, string>, c: string) {
    c in keys && keys[c] in s.arrived ==> c in s.matched
  }

  lemma ReceiveServes(s: State, keys: map<string, string>, members: set<string>, key: string, r: Reply, c: string)
    requires Injective(keys) && PendingOk(keys, s.pending, members) && c in keys
    requires c in s.matched || keys[c] in s.pending
    requires ServedAt(s, keys, c)
    ensures ServedAt(Receive(s, key, r), keys, c)
  {
    if keys[c] == key && c !in s.matched {
      assert s.pending[key] == c;
    }
  }

  lemma ServedStays(s: State, e: Event)
    requires Inv(s) && Served(s) && s.isOpen && Enabled(s, e) && !Step(s, e).failed
    ensures Served(Step(s, e))
  {
    var keys := Keys(s);
    KeysAreDistinct(s.fast, s.items, s.ids);
    forall c ensures ServedAt(Step(s, e), keys, c) {
      assert ServedAt(s, keys, c);
      if c in keys && e.Replied? && KeyOf(s.fast, e.reply).Some? {
        assert c in Members(s.ids);
        ReceiveServes(s, keys, Members(s.ids), KeyOf(s.fast, e.reply).value, e.reply, c);
      }
    }
    StepFollows(s, e);
  }

  // ---------- the cap on early responses ----------

  /** A response that came in before the batch was opened. */
  ghost predicate Early(es: seq<Event>, i: int) {
    0 <= i < |es| && es[i].Replied? && forall j :: 0 <= j < i ==> !es[j].Opened?
  }

  /** Until the batch is opened, only its own frames reach the listener: they carry request ids of its commands. */
  ghost predicate OwnEarlyFrames(es: seq<Event>, keys: map<string, string>) {
    forall i :: Early(es, i) && es[i].reply.requestId.Some? ==> es[i].reply.requestId.value in keys.Values
  }

  lemma {:induction false} Unsnoc(s: State, es: seq<Event>)
    requires ValidRun(s, es) && es != []
    ensures var n := |es| - 1;
      ValidRun(s, es[..n]) && Enabled(After(s, es[..n]), es[n]) && After(s, es) == Step(After(s, es[..n]), es[n])
    decreases |es|
  {
    var n := |es| - 1;
    if n > 0 {
      Unsnoc(Step(s, es[0]), es[1..]);
      assert es[1..][..n - 1] == es[..n][1..];
    }
  }

  lemma FewerFrames(es: seq<Event>, n: nat, keys: map<string, string>)
    requires OwnEarlyFrames(es, keys) && n <= |es|
    ensures OwnEarlyFrames(es[..n], keys)
  {
    forall i | Early(es[..n], i) ensures Early(es, i) && es[..n][i] == es[i] {
      assert forall j :: 0 <= j < i ==> es[..n][j] == es[j];
    }
  }

  /** A batch that has not failed is open as soon as it was opened. */
  lemma {:induction false} OpenedIsOpen(s: State, es: seq<Event>, i: nat)
    requires Inv(s) && ValidRun(s, es) && i < |es| && es[i].Opened? && !After(s, es).failed
    ensures After(s, es).isOpen
    decreases |es|
  {
    StepKeeps(s, es[0]);
    StepFollows(s, es[0]);
    RunKeeps(Step(s, es[0]), es[1..]);
    if i > 0 {
      OpenedIsOpen(Step(s, es[0]), es[1..], i - 1);
    }
  }

  /** What one early response adds to the keys that arrived. */
  lemma EarlyReplyIsOwn(s: State, r: Reply, keys: map<string, string>)
    requires s.arrived <= keys.Values && (s.fast ==> forall c :: c in s.ids ==> c in keys.Values)
    requires !s.fast && r.requestId.Some? ==> r.requestId.value in keys.Values
    ensures ReplyStep(s, r).arrived <= keys.Values
  {
  }

  lemma OwnIdsAreKeys(items: seq<AcceptItem>, ids: seq<string>)
    ensures forall c :: c in ids ==> c in KeyMap(true, items, ids).Values
  {
    var keys := KeyMap(true, items, ids);
    forall c | c in ids ensures c in keys.Values {
      assert c in keys && keys[c] == c;
    }
  }

  /**
   Before the batch is opened, what arrived carries keys of its commands: on the fast path because
   the listener drops everything else, on the classic one because nothing else is sent there.
   */
  lemma {:induction false} EarlyKeysAreOwn(fast: bool, ids: seq<string>, items: seq<AcceptItem>, es: seq<Event>)
    requires Unique(ids) && ValidRun(Initial(fast, ids), es) && !After(Initial(fast, ids), es).isOpen
    requires fast || OwnEarlyFrames(es, KeyMap(fast, items, ids))
    ensures After(Initial(fast, ids), es).arrived <= KeyMap(fast, items, ids).Values
    decreases |es|
  {
    if es != [] {
      var s, n, keys := Initial(fast, ids), |es| - 1, KeyMap(fast, items, ids);
      Unsnoc(s, es);
      var m := After(s, es[..n]);
      RunKeeps(s, es[..n]);
      StepFollows(m, es[n]);
      if !fast { FewerFrames(es, n, keys); }
      EarlyKeysAreOwn(fast, ids, items, es[..n]);
      if es[n].Replied? && !m.failed {
        if fast { OwnIdsAreKeys(items, ids); }
        forall j | 0 <= j < n ensures !es[j].Opened? {
          if es[j].Opened? {
            assert es[..n][j] == es[j];
            OpenedIsOpen(s, es[..n], j);
          }
        }
        assert Early(es, n);
        EarlyReplyIsOwn(m, es[n].reply, keys);
      }
    }
  }

  /** A batch has at most as many keys as commands. */
  lemma {:induction false} FewKeys(keys: map<string, string>, ids: seq<string>)
    ensures |set c | c in ids && c in keys :: keys[c]| <= |ids|
  {
    if ids != [] {
      var n := |ids| - 1;
      var rest := set c | c in ids[..n] && c in keys :: keys[c];
      var own := if ids[n] in keys then {keys[ids[n]]} else {};
      FewKeys(keys, ids[..n]);
      assert ids == ids[..n] + [ids[n]];
      assert (set c | c in ids && c in keys :: keys[c]) == rest + own;
    }
  }

  lemma FewArrive(s: State, items: seq<AcceptItem>)
    requires s.arrived <= KeyMap(s.fast, items, s.ids).Values
    ensures |s.arrived| <= |s.ids|
  {
    var keys := KeyMap(s.fast, items, s.ids);
    var values := set c | c in s.ids && c in keys :: keys[c];
    FewKeys(keys, s.ids);
    assert s.arrived <= values;
    SubsetSize(s.arrived, values);
  }

  lemma FewArrivalsFit(s: State)
    requires Inv(s) && !s.isOpen && !s.failed && |s.arrived| <= |s.ids|
    ensures s.buffered.Keys == s.arrived
  {
    SubsetSize(s.buffered.Keys, s.arrived);
    assert |s.buffered| == |s.buffered.Keys|;
  }

  /**
   The cap on the buffer never drops the first response of a command: in every run of a fast-path
   batch, and in every run of a classic one in which only its own frames reach the listener, all
   that has arrived when the batch is about to be opened is in the buffer.
   */
  lemma CapDropsNothing(fast: bool, ids: seq<string>, items: seq<AcceptItem>, es: seq<Event>)
    requires Unique(ids) && ValidRun(Initial(fast, ids), es)
    requires var s := After(Initial(fast, ids), es); !s.isOpen && !s.failed
    requires fast || OwnEarlyFrames(es, KeyMap(fast, items, ids))
    ensures var s := After(Initial(fast, ids), es); s.buffered.Keys == s.arrived
  {
    RunKeeps(Initial(fast, ids), es);
    EarlyKeysAreOwn(fast, ids, items, es);
    FewArrive(After(Initial(fast, ids), es), items);
    FewArrivalsFit(After(Initial(fast, ids), es));
  }

  lemma {:induction false} RunServes(fast: bool, ids: seq<string>, es: seq<Event>)
    requires Unique(ids) && ValidRun(Initial(fast, ids), es)
    requires var t := After(Initial(fast, ids), es); t.isOpen && !t.failed && (fast || OwnEarlyFrames(es, Keys(t)))
    ensures Served(After(Initial(fast, ids), es))
    decreases |es|
  {
    var s, n := Initial(fast, ids), |es| - 1;
    var t := After(s, es);
    Unsnoc(s, es);
    var m := After(s, es[..n]);
    RunKeeps(s, es[..n]);
    RunKeeps(s, es);
    StepFollows(m, es[n]);
    if !fast { FewerFrames(es, n, Keys(t)); }
    if m.isOpen {
      assert Keys(m) == Keys(t);
      RunServes(fast, ids, es[..n]);
      ServedStays(m, es[n]);
    } else {
      CapDropsNothing(fast, ids, t.items, es[..n]);
      OpenKeeps(m, es[n].items);
    }
  }

  /** A response has arrived for every command the hub took. */
  ghost predicate AllAnswered(s: State) {
    forall c :: c in s.ids && MemberKey(s.fast, s.items, c).Some? ==> MemberKey(s.fast, s.items, c).value in s.arrived
  }

  /**
   Whatever the order of the responses and the acceptance, an open batch that has not failed is
   complete exactly when a response has arrived for every command the hub took; on the classic
   path, if only the batch's own frames reach the listener before it is opened.
   */
  lemma CompleteWhenAllAnswered(fast: bool, ids: seq<string>, es: seq<Event>)
    requires Unique(ids) && ValidRun(Initial(fast, ids), es)
    requires var t := After(Initial(fast, ids), es); t.isOpen && !t.failed && (fast || OwnEarlyFrames(es, Keys(t)))
    ensures Complete(After(Initial(fast, ids), es)) <==> AllAnswered(After(Initial(fast, ids), es))
  {
    RunKeeps(Initial(fast, ids), es);
    RunServes(fast, ids, es);
    CompleteWhenAnswered(After(Initial(fast, ids), es));
  }

  lemma CompleteWhenAnswered(s: State)
    requires Inv(s) && s.isOpen && !s.failed && Served(s)
    ensures Complete(s) <==> AllAnswered(s)
  {
    if Complete(s) {
      forall c | c in s.ids && MemberKey(s.fast, s.items, c).Some?
        ensures MemberKey(s.fast, s.items, c).value in s.arrived
      {
        assert c in Members(s.ids) && c in Keys(s);
      }
    } else {
      var k :| k in s.pending;
      var c := s.pending[k];
      assert c in Members(s.ids) && c in Keys(s) && ServedAt(s, Keys(s), c);
    }
  }
}
