/** The pulls of one transport: each is an object, and all share the transport's set of keys. */
module StreamPulls {
  import opened Wrappers
  import opened StreamPullSpec

  /** The Set of the pulls under way over one transport. */
  class KeySet {
    var keys: set<Key>

    constructor ()
      ensures keys == {}
    {
      keys := {};
    }
  }

  /** What the closures of one pull share. */
  class PullTask {
    const keySet: KeySet
    const key: Key
    const window: int
    var outcome: Option<Outcome>
    var decoding: nat

    ghost function Value(): Pull
      reads this
    {
      Pull(key, window, outcome, decoding)
    }

    constructor (keySet: KeySet, key: Key, window: int)
      ensures this.keySet == keySet && Value() == Pull(key, window, None, 0)
    {
      this.keySet, this.key, this.window := keySet, key, window;
      outcome, decoding := None, 0;
    }

    method Cleanup()
      modifies keySet
      ensures keySet.keys == old(keySet.keys) - {key}
    {
      keySet.keys := keySet.keys - {key};
    }

    method SettleOnce(o: Outcome)
      modifies `outcome
      ensures outcome == if old(outcome).Some? then old(outcome) else Some(o)
    {
      if outcome.None? {
        outcome := Some(o);
      }
    }

    /** Both, as every ending of a pull does; whether it has settled before is not asked. */
    method End(o: Outcome)
      modifies `outcome, keySet
      ensures keySet.keys == old(keySet.keys) - {key}
      ensures outcome == if old(outcome).Some? then old(outcome) else Some(o)
    {
      Cleanup();
      SettleOnce(o);
    }
  }

  ghost function Values(tasks: seq<PullTask>): (pulls: seq<Pull>)
    reads tasks
    ensures |pulls| == |tasks| && forall i :: 0 <= i < |tasks| ==> pulls[i] == tasks[i].Value()
  {
    if tasks == [] then []
    else Values(tasks[..|tasks| - 1]) + [tasks[|tasks| - 1].Value()]
  }

  /**
   The pulls over one transport; the set is created with the first one, and `tasks` records those that were
   accepted.
   */
  class ActivePulls {
    var keySet: KeySet?
    ghost var tasks: seq<PullTask>

    /** All pulls share the transport's set. */
    ghost predicate Valid()
      reads this
    {
      && (keySet == null ==> tasks == [])
      && (forall i :: 0 <= i < |tasks| ==> tasks[i].keySet == keySet)
      && (forall i, j :: 0 <= i < j < |tasks| ==> tasks[i] != tasks[j])
    }

    ghost function View(): State
      reads this, keySet, tasks
    {
      State(if keySet == null then {} else keySet.keys, Values(tasks))
    }

    constructor ()
      ensures Valid() && View() == INITIAL
    {
      keySet, tasks := null, [];
    }

    /** A pull is over: its key is given back, and it settles if it has not before. */
    method End(ghost i: nat, task: PullTask, o: Outcome)
      requires Valid() && i < |tasks| && tasks[i] == task
      modifies task`outcome, task.keySet
      ensures View() == StreamPullSpec.End(old(View()), i, o)
    {
      task.End(o);
    }

    method Count(ghost i: nat, task: PullTask, decoding: nat)
      requires Valid() && i < |tasks| && tasks[i] == task
      modifies task`decoding
      ensures task.decoding == decoding && View() == Counted(old(View()), i, decoding)
    {
      task.decoding := decoding;
    }

    method NeedSet()
      requires Valid()
      modifies `keySet
      ensures Valid() && keySet != null && View() == old(View())
      ensures if old(keySet) == null then fresh(keySet) else keySet == old(keySet)
    {
      if keySet == null {
        keySet := new KeySet();
      }
    }

    /** A pull is entered under its key. */
    method Enter(key: Key, window: int) returns (task: PullTask)
      requires Valid() && keySet != null
      modifies this, keySet
      ensures Valid() && keySet == old(keySet)
      ensures fresh(task) && task.key == key && tasks == old(tasks) + [task]
      ensures View() == State(old(View()).keys + {key}, old(View()).pulls + [Pull(key, window, None, 0)])
    {
      task := new PullTask(keySet, key, window);
      assert (tasks + [task])[..|tasks|] == tasks;
      tasks := tasks + [task];
      keySet.keys := keySet.keys + {key};
    }

    /** requestConsumerStreamPull; `refused` is the validation error for a pull that is already pending. */
    method Request(key: Key, windowSize: Option<real>, aborted: bool, throws: bool)
      returns (refused: bool, task: PullTask?)
      requires Valid()
      modifies this, keySet
      ensures Valid()
      ensures View() == Step(old(View()), StreamPullSpec.Request(key, windowSize, aborted, throws))
      ensures refused <==> key in old(View()).keys
      ensures task == null <==> refused
      ensures task != null ==> fresh(task) && tasks == old(tasks) + [task]
    {
      NeedSet();
      if key in keySet.keys {
        return true, null;
      }
      task := Enter(key, NormalizeWindow(windowSize, DEFAULT_WINDOW));
      if aborted || throws {
        End(|tasks| - 1, task, Refused);
      }
      return false, task;
    }

    /** handlePullResponse, up to the await. */
    method Arrived(ghost i: nat, task: PullTask)
      requires Valid() && i < |tasks| && tasks[i] == task && task.outcome.None?
      modifies task`decoding
      ensures View() == Step(old(View()), StreamPullSpec.Arrived(i))
    {
      Count(i, task, task.decoding + 1);
    }

    /** handlePullResponse, from the await on. */
    method Decoded(ghost i: nat, task: PullTask, r: Response) returns (ignored: bool)
      requires Valid() && i < |tasks| && tasks[i] == task && task.decoding > 0
      modifies task, task.keySet
      ensures View() == Step(old(View()), StreamPullSpec.Decoded(i, r))
      ensures ignored <==> !Ends(r, task.key)
    {
      Count(i, task, task.decoding - 1);
      ignored := !r.Unreadable? && !Matches(r, task.key);
      if !ignored {
        End(i, task, if r.Success? then Granted(NormalizeWindow(Some(r.windowSize as real), task.window)) else Refused);
      }
    }

    /** The timer, the abort signal, or an error or disconnect of the socket. */
    method Terminated(ghost i: nat, task: PullTask)
      requires Valid() && i < |tasks| && tasks[i] == task && task.outcome.None?
      modifies task, task.keySet
      ensures View() == Step(old(View()), StreamPullSpec.Terminated(i))
    {
      End(i, task, Refused);
    }
  }
}
