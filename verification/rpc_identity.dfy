/** The JSON-RPC identity check. */
module RpcIdentity {
  import opened Collections
  import opened RpcIds
  import opened Wrappers

  /** The id of a response item: none at all, one of a type an id can have, or anything else. */
  datatype ItemId = NoId | TextId(text: string) | NumberId(text: string) | OtherId

  predicate HasText(id: ItemId) { id.TextId? || id.NumberId? }

  /** The texts of the ids that are not null. */
  function Texts(commands: seq<CommandId>): seq<string> {
    if commands == [] then []
    else
      var c := commands[|commands| - 1];
      Texts(commands[..|commands| - 1]) + (if c.Text? || c.Number? then [c.text] else [])
  }

  function Answerable(commands: seq<CommandId>): nat {
    if commands == [] then 0
    else Answerable(commands[..|commands| - 1]) + (if commands[|commands| - 1].Null? then 0 else 1)
  }

  predicate Allowed(commands: seq<CommandId>, hubRequestId: Option<string>, text: string) {
    text in Texts(commands) || (|commands| == 1 && hubRequestId == Some(text))
  }

  /** Item i names a command, and no earlier item names the same. */
  predicate Names(commands: seq<CommandId>, items: seq<ItemId>, hubRequestId: Option<string>, i: nat)
    requires i < |items|
  {
    && HasText(items[i])
    && Allowed(commands, hubRequestId, items[i].text)
    && forall j :: 0 <= j < i && HasText(items[j]) ==> items[j].text != items[i].text
  }

  /** What the check lets through. */
  predicate Accepts(batch: bool, commands: seq<CommandId>, items: seq<ItemId>, hubRequestId: Option<string>) {
    && (batch ==> |items| == Answerable(commands))
    && (Absent in commands || forall i :: 0 <= i < |items| ==>
        items[i].NoId? || Names(commands, items, hubRequestId, i))
  }

  lemma {:induction false} TextsAre(commands: seq<CommandId>)
    ensures |Texts(commands)| <= Answerable(commands) <= |commands|
    ensures Absent !in commands ==> |Texts(commands)| == Answerable(commands)
    ensures forall c :: c in commands && (c.Text? || c.Number?) ==> c.text in Texts(commands)
  {
    if commands != [] {
      var n := |commands| - 1;
      TextsAre(commands[..n]);
      assert commands == commands[..n] + [commands[n]];
    }
  }

  /** assertRpcResponseIdentity; `batch` when the commands came as an array. */
  method CheckRpcResponseIdentity(batch: bool, commands: seq<CommandId>, items: seq<ItemId>,
                                  hubRequestId: Option<string>)
    returns (ok: bool)
    requires !batch ==> |commands| == 1
    ensures ok <==> Accepts(batch, commands, items, hubRequestId)
  {
    if batch && |items| != Answerable(commands) {
      return false;
    }
    if Absent in commands {
      return true;
    }
    var ids := set text | text in Texts(commands);
    if |commands| == 1 && hubRequestId.Some? {
      ids := ids + {hubRequestId.value};
    }
    var seen: set<string> := {};
    for i := 0 to |items|
      invariant forall j :: 0 <= j < i ==> items[j].NoId? || Names(commands, items, hubRequestId, j)
      invariant forall x :: x in seen <==> exists j :: 0 <= j < i && HasText(items[j]) && items[j].text == x
    {
      if items[i].NoId? {
        continue;
      }
      if items[i].OtherId? || items[i].text !in ids || items[i].text in seen {
        assert !Names(commands, items, hubRequestId, i);
        return false;
      }
      assert Names(commands, items, hubRequestId, i);
      seen := seen + {items[i].text};
    }
    return true;
  }

  // ---------- exactly what is accepted ----------

  /** Some command has an id with this text. */
  ghost predicate HasId(commands: seq<CommandId>, text: string) {
    exists c :: c in commands && (c == Text(text) || c == Number(text))
  }

  /** All but the notifications are answered. */
  lemma {:induction false} AnswerableIs(commands: seq<CommandId>)
    ensures Answerable(commands) + multiset(commands)[Null] == |commands|
  {
    if commands != [] {
      AnswerableIs(commands[..|commands| - 1]);
      assert commands == commands[..|commands| - 1] + [commands[|commands| - 1]];
    }
  }

  lemma {:induction false} TextsAreIds(commands: seq<CommandId>)
    ensures forall text :: text in Texts(commands) <==> HasId(commands, text)
  {
    if commands != [] {
      var init, last := commands[..|commands| - 1], commands[|commands| - 1];
      TextsAreIds(init);
      assert commands == init + [last];
      forall text ensures text in Texts(commands) <==> HasId(commands, text) {
        assert text in Texts(commands) <==> text in Texts(init) || last == Text(text) || last == Number(text);
        assert forall c :: c in commands <==> c in init || c == last;
        assert last in commands;
      }
    }
  }

  /** The item has no id, or that of a command; a single command may be named by the hub's request id as well. */
  ghost predicate Answers(commands: seq<CommandId>, hubRequestId: Option<string>, item: ItemId) {
    || item.NoId?
    || (HasText(item) && (HasId(commands, item.text) || (|commands| == 1 && hubRequestId == Some(item.text))))
  }

  /** No two items read alike. */
  predicate Distinct(items: seq<ItemId>) {
    forall i, j :: 0 <= i < j < |items| && HasText(items[i]) && HasText(items[j]) ==> items[i].text != items[j].text
  }

  /**
   A response is accepted exactly if a batch has one item for each command that is no notification,
   and, unless some id was left to the hub, every item answers a command and no two read alike.
   */
  lemma AcceptsExactly(batch: bool, commands: seq<CommandId>, items: seq<ItemId>, hubRequestId: Option<string>)
    ensures Accepts(batch, commands, items, hubRequestId) <==>
            && (batch ==> |items| + multiset(commands)[Null] == |commands|)
            && (Absent !in commands ==>
                  (forall i :: 0 <= i < |items| ==> Answers(commands, hubRequestId, items[i])) && Distinct(items))
  {
    AnswerableIs(commands);
    TextsAreIds(commands);
    if forall i :: 0 <= i < |items| ==> items[i].NoId? || Names(commands, items, hubRequestId, i) {
      assert Distinct(items);
    }
  }

  /**
   One command by itself: everything is accepted if its id was left to the hub, and otherwise items
   without an id, with its own or with the hub's, no two alike.
   */
  lemma AcceptsSingleExactly(command: CommandId, items: seq<ItemId>, hubRequestId: Option<string>)
    ensures Accepts(false, [command], items, hubRequestId) <==>
            command.Absent?
            || (Distinct(items)
                && forall i :: 0 <= i < |items| ==>
                     || items[i].NoId?
                     || (HasText(items[i])
                         && (command == Text(items[i].text) || command == Number(items[i].text)
                             || hubRequestId == Some(items[i].text))))
  {
    AcceptsExactly(false, [command], items, hubRequestId);
    forall text ensures HasId([command], text) <==> command == Text(text) || command == Number(text) {
      assert command in [command];
    }
  }

  // ---------- what acceptance means ----------

  function Elements(s: seq<string>): set<string> { set x | x in s }

  lemma {:induction false} ElementCount(s: seq<string>)
    ensures |Elements(s)| <= |s|
    ensures |Elements(s)| == |s| <==> Unique(s)
  {
    if s != [] {
      var n := |s| - 1;
      ElementCount(s[..n]);
      LastElement(s);
      UniqueSoFar(s);
    }
  }

  lemma LastElement(s: seq<string>)
    requires s != []
    ensures Elements(s) == Elements(s[..|s| - 1]) + {s[|s| - 1]}
  {
    assert s == s[..|s| - 1] + [s[|s| - 1]];
  }

  lemma UniqueSoFar(s: seq<string>)
    requires s != []
    ensures var n := |s| - 1; Unique(s) <==> Unique(s[..n]) && s[n] !in Elements(s[..n])
  {
    var n := |s| - 1;
    var init := s[..n];
    if s[n] in Elements(init) {
      var i :| 0 <= i < n && init[i] == s[n];
      assert s[i] == s[n];
    } else if Unique(init) {
      forall i | 0 <= i < n ensures s[i] != s[n] {
        assert init[i] in Elements(init);
      }
    } else {
      var i, j :| 0 <= i < j < n && init[i] == init[j];
      assert s[i] == s[j];
    }
  }

  lemma {:induction false} SameElementsSameBag(a: seq<string>, b: seq<string>)
    requires Unique(a) && Unique(b) && Elements(a) == Elements(b)
    ensures multiset(a) == multiset(b)
  {
    forall x ensures multiset(a)[x] == multiset(b)[x] {
      CountsOnce(a, x);
      CountsOnce(b, x);
      assert x in a <==> x in Elements(a);
      assert x in b <==> x in Elements(b);
    }
  }

  lemma {:induction false} CountsOnce(s: seq<string>, x: string)
    requires Unique(s)
    ensures multiset(s)[x] == if x in s then 1 else 0
  {
    if s != [] {
      var n := |s| - 1;
      CountsOnce(s[..n], x);
      assert s == s[..n] + [s[n]];
      if x == s[n] {
        assert x !in s[..n] by {
          assert forall i :: 0 <= i < n ==> s[i] != s[n];
        }
      }
    }
  }

  /** The ids of the items, as texts. */
  function Answered(items: seq<ItemId>): seq<string>
    requires forall i :: 0 <= i < |items| ==> HasText(items[i])
  {
    seq(|items|, i requires 0 <= i < |items| && HasText(items[i]) => items[i].text)
  }

  /**
   A batch of two or more commands that all have ids is accepted with an id in every item exactly
   when the items' ids are a permutation of the commands' ids and no two of those read alike.
   */
  lemma AcceptedBatchIsAPermutation(commands: seq<CommandId>, items: seq<ItemId>, hubRequestId: Option<string>)
    requires |commands| >= 2 && Absent !in commands
    requires forall i :: 0 <= i < |items| ==> HasText(items[i])
    ensures Accepts(true, commands, items, hubRequestId) <==>
            multiset(Answered(items)) == multiset(Texts(commands)) && Unique(Texts(commands))
  {
    var answered := Answered(items);
    var texts := Texts(commands);
    TextsAre(commands);
    ElementCount(texts);
    ElementCount(answered);
    if Accepts(true, commands, items, hubRequestId) {
      forall i | 0 <= i < |items| ensures answered[i] in texts {
        assert Names(commands, items, hubRequestId, i);
      }
      forall i, j | 0 <= i < j < |answered| ensures answered[i] != answered[j] {
        assert Names(commands, items, hubRequestId, j);
      }
      assert Elements(answered) <= Elements(texts);
      SubsetSize(Elements(answered), Elements(texts));
      SameElementsSameBag(answered, texts);
    }
    if multiset(answered) == multiset(texts) && Unique(texts) {
      PermutationIsUnique(answered, texts);
      assert |answered| == |multiset(answered)| == |texts|;
      forall i | 0 <= i < |items| ensures Names(commands, items, hubRequestId, i) {
        assert answered[i] in multiset(answered);
        assert answered[i] in texts;
        forall j | 0 <= j < i ensures items[j].text != items[i].text {
          assert answered[j] != answered[i];
        }
      }
    }
  }

  lemma PermutationIsUnique(a: seq<string>, b: seq<string>)
    requires multiset(a) == multiset(b) && Unique(b)
    ensures Unique(a)
  {
    assert |multiset(a)| == |a| && |multiset(b)| == |b|;
    forall x ensures x in a <==> x in b {
      assert x in multiset(a) <==> x in multiset(b);
    }
    assert Elements(a) == Elements(b);
    ElementCount(a);
    ElementCount(b);
  }

  /** A batch in which two ids read alike, as 1 and "1" do, is never accepted once every item carries an id. */
  lemma AlikeIdsAreNeverAccepted(commands: seq<CommandId>, items: seq<ItemId>, hubRequestId: Option<string>, i: nat,
                                 j: nat)
    requires Absent !in commands && i < j < |commands|
    requires !commands[i].Null? && !commands[j].Null? && commands[i].text == commands[j].text
    requires forall k :: 0 <= k < |items| ==> HasText(items[k])
    ensures !Accepts(true, commands, items, hubRequestId)
  {
    AcceptedBatchIsAPermutation(commands, items, hubRequestId);
    AlikeTexts(commands, i, j);
  }

  lemma {:induction false} AlikeTexts(commands: seq<CommandId>, i: nat, j: nat)
    requires Absent !in commands && i < j < |commands|
    requires !commands[i].Null? && !commands[j].Null? && commands[i].text == commands[j].text
    ensures !Unique(Texts(commands))
  {
    var n := |commands| - 1;
    var init := commands[..n];
    TextsAre(init);
    assert commands == init + [commands[n]];
    var texts := Texts(commands);
    if j < n {
      AlikeTexts(init, i, j);
      var a, b :| 0 <= a < b < |Texts(init)| && Texts(init)[a] == Texts(init)[b];
      assert texts[a] == texts[b];
    } else {
      assert init[i] in init;
      var a :| 0 <= a < |Texts(init)| && Texts(init)[a] == commands[i].text;
      assert texts[a] == texts[|texts| - 1];
    }
  }
}
