/** A relay batch with its maps of waiting commands and early responses. */
module RelayBatches {
  import opened Collections
  import opened RpcIds
  import opened Wrappers
  import opened RelayBatchSpec
  import Safety = RelayBatchSafety

  /** ensureRelayBatchCommands: at most 32 commands, no notification, no id twice. */
  method EnsureRelayBatchCommands(ids: seq<CommandId>, uuids: seq<string>)
    returns (r: Result<seq<string>, CommandError>)
    requires |uuids| == |ids|
    ensures r.Ok? <==>
            && 1 <= |ids| <= MAX_RELAY_BATCH_COMMANDS
            && (forall i :: 0 <= i < |ids| ==> !ids[i].Null?)
            && Unique(IdTexts(ids, uuids))
    ensures r.Ok? ==> r.value == IdTexts(ids, uuids)
    ensures r == Err(DuplicateId) ==> !Unique(IdTexts(ids, uuids))
  {
    if ids == [] {
      return Err(Empty);
    }
    if |ids| > MAX_RELAY_BATCH_COMMANDS {
      return Err(TooMany);
    }
    if exists i :: 0 <= i < |ids| && ids[i].Null? {
      return Err(Notification);
    }
    var normalized := IdTexts(ids, uuids);
    var seenIds: set<string> := {};
    for i := 0 to |normalized|
      invariant forall x :: x in seenIds <==> x in normalized[..i]
      invariant Unique(normalized[..i])
    {
      if normalized[i] in seenIds {
        var j :| 0 <= j < i && normalized[..i][j] == normalized[i];
        assert normalized[j] == normalized[i];
        return Err(DuplicateId);
      }
      assert normalized[..i + 1] == normalized[..i] + [normalized[i]];
      seenIds := seenIds + {normalized[i]};
    }
    assert normalized[..|normalized|] == normalized;
    return Ok(normalized);
  }

  /** The uniqueness check of normalizeRelayBatchAcceptedPayload. */
  method CheckAcceptedItems(items: seq<AcceptItem>) returns (ok: bool)
    ensures ok <==> UniqueItems(items)
  {
    var clientIds: set<string> := {};
    var requestIds: set<string> := {};
    for i := 0 to |items|
      invariant forall x :: x in clientIds <==> exists j :: 0 <= j < i && items[j].clientId == x
      invariant forall x :: x in requestIds <==> exists j :: 0 <= j < i && items[j].requestId == Some(x)
      invariant UniqueItems(items[..i])
    {
      var item := items[i];
      if item.clientId in clientIds || (item.requestId.Some? && item.requestId.value in requestIds) {
        return false;
      }
      assert items[..i + 1] == items[..i] + [item];
      clientIds := clientIds + {item.clientId};
      if item.requestId.Some? {
        requestIds := requestIds + {item.requestId.value};
      }
    }
    assert items[..|items|] == items;
    return true;
  }

  lemma AllIdentified(s: State, results: seq<ItemResult>)
    requires Complete(s) && |results| == |s.ids|
    requires forall i :: 0 <= i < |s.ids| ==> results[i] == ResultFor(s, s.ids[i])
    requires forall i :: 0 <= i < |s.ids| && s.ids[i] in s.matched ==> Acceptable(s, s.ids[i], s.matched[s.ids[i]])
    ensures Results(s) == Some(results)
  {
    assert results == seq(|s.ids|, i requires 0 <= i < |s.ids| => ResultFor(s, s.ids[i]));
  }

  lemma NotIdentified(s: State, i: nat)
    requires Complete(s) && i < |s.ids| && s.ids[i] in s.matched && !Acceptable(s, s.ids[i], s.matched[s.ids[i]])
    ensures Results(s) == None
  {
  }

  class RelayBatch {
    const fast: bool
    const ids: seq<string>
    var isOpen: bool
    var items: seq<AcceptItem>
    var pending: map<string, string>
    var buffered: map<string, Reply>
    var matched: map<string, Match>
    var failures: map<string, Code>
    var failed: bool
    ghost var arrived: set<string>

    ghost function View(): State
      reads this
    {
      State(fast, ids, isOpen, items, pending, buffered, matched, failures, failed, arrived)
    }

    ghost predicate Valid()
      reads this
    {
      Safety.Inv(View())
    }

    constructor (fast: bool, ids: seq<string>)
      requires Unique(ids)
      ensures Valid() && View() == Initial(fast, ids)
    {
      this.fast, this.ids := fast, ids;
      isOpen, items, failed := false, [], false;
      pending, buffered, matched, failures := map[], map[], map[], map[];
      arrived := {};
    }

    /** The listener for response frames that could be decoded. */
    method Replied(r: Reply)
      requires Valid()
      modifies this
      ensures Valid() && View() == Step(old(View()), RelayBatchSpec.Replied(r))
    {
      Safety.StepKeeps(View(), RelayBatchSpec.Replied(r));
      if failed {
        return;
      }
      if fast {
        if r.bodyId.None? {
          failed := true;
        } else if r.bodyId.value in ids {
          Receive(r.bodyId.value, r);
        }
      } else if r.requestId.Some? {
        Receive(r.requestId.value, r);
      }
    }

    method Receive(key: string, r: Reply)
      modifies `pending, `matched, `buffered, `arrived
      ensures View() == RelayBatchSpec.Receive(old(View()), key, r)
    {
      arrived := arrived + {key};
      if key in pending {
        matched := matched[pending[key] := Match(key, r)];
        pending := pending - {key};
      } else if |buffered| < |ids| {
        buffered := buffered[key := r];
      }
    }

    method Await(key: string, clientId: string)
      modifies `pending, `matched, `buffered
      ensures View() == RelayBatchSpec.Await(old(View()), key, clientId)
    {
      if key in buffered {
        matched := matched[clientId := Match(key, buffered[key])];
        buffered := buffered - {key};
      } else {
        pending := pending[key := clientId];
      }
    }

    /** The hub's acceptance; on the fast path, the moment the waiters are set up. */
    method Opened(accepted: seq<AcceptItem>)
      requires Valid() && !isOpen && UniqueItems(accepted)
      modifies this
      ensures Valid() && View() == Step(old(View()), RelayBatchSpec.Opened(accepted))
    {
      ghost var before := View();
      assert Safety.Inv(Step(before, RelayBatchSpec.Opened(accepted))) by {
        Safety.StepKeeps(before, RelayBatchSpec.Opened(accepted));
      }
      if failed {
        return;
      }
      Safety.OpenEachTouches(before, accepted, ids);
      for i := 0 to |ids|
        invariant View() == OpenEach(before, accepted, ids[..i])
      {
        OpenOne(accepted, ids[i]);
        assert ids[..i + 1][..i] == ids[..i];
      }
      assert ids[..|ids|] == ids;
      isOpen, items := true, accepted;
    }

    method OpenOne(accepted: seq<AcceptItem>, clientId: string)
      modifies `pending, `matched, `buffered, `failures
      ensures View() == RelayBatchSpec.OpenOne(old(View()), accepted, clientId)
    {
      if fast {
        Await(clientId, clientId);
      } else {
        var item := Find(accepted, clientId);
        if item.None? {
          failures := failures[clientId := Missing];
        } else if item.value.requestId.None? {
          failures := failures[clientId := RefusedItem];
        } else {
          Await(item.value.requestId.value, clientId);
        }
      }
    }

    method Broke()
      requires Valid()
      modifies `failed
      ensures Valid() && View() == Step(old(View()), RelayBatchSpec.Broke)
    {
      Safety.StepKeeps(View(), RelayBatchSpec.Broke);
      failed := true;
    }

    predicate Identifies(id: string, m: Match)
      reads this
      ensures Identifies(id, m) == Acceptable(View(), id, m)
    {
      m.reply.sound && m.reply.fits
        && (m.reply.bodyId.None? || m.reply.bodyId == Some(id) || (!fast && m.reply.bodyId == Some(m.key)))
    }

    method Result(id: string) returns (item: ItemResult)
      ensures item == ResultFor(View(), id)
    {
      if id in matched {
        var m := matched[id];
        var requestId := if !fast then m.key else if m.reply.requestId.Some? then m.reply.requestId.value else id;
        return Success(id, requestId, m.reply.payload);
      }
      return Failure(id, if id in failures then failures[id] else Missing);
    }

    /** The results of a complete batch, in command order; none when a response fails its checks. */
    method BuildResults() returns (r: Option<seq<ItemResult>>)
      requires Complete(View())
      ensures r == Results(View())
    {
      ghost var v := View();
      var results: seq<ItemResult> := [];
      for i := 0 to |ids|
        invariant |results| == i
        invariant forall j :: 0 <= j < i ==> results[j] == ResultFor(v, ids[j])
        invariant forall j :: 0 <= j < i && ids[j] in matched ==> Acceptable(v, ids[j], matched[ids[j]])
      {
        var id := ids[i];
        if id in matched && !Identifies(id, matched[id]) {
          NotIdentified(v, i);
          return None;
        }
        var item := Result(id);
        results := results + [item];
      }
      AllIdentified(v, results);
      return Some(results);
    }
  }
}
