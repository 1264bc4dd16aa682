/** The sliding-window limiter that guards remote commands (`src/commands.rs`).
    Clock samples are milliseconds on the monotonic clock. */
module SlidingWindow {
  import opened Wrappers

  /** How many of `times` lie in the closed interval from `lo` to `hi`. */
  ghost function CountIn(times: seq<int>, lo: int, hi: int): nat {
    if times == [] then 0
    else CountIn(times[..|times| - 1], lo, hi) + if lo <= times[|times| - 1] <= hi then 1 else 0
  }

  /** The reference limiter: it never forgets an acceptance.  A call at `now` is accepted
      when fewer than `limit` earlier acceptances are at most `window` old. */
  ghost function Unpruned(limit: nat, window: nat, calls: seq<int>): seq<int> {
    if calls == [] then []
    else Admit(limit, window, Unpruned(limit, window, calls[..|calls| - 1]), calls[|calls| - 1])
  }

  ghost function Admit(limit: nat, window: nat, accepted: seq<int>, now: int): seq<int> {
    if CountIn(accepted, now - window, now) < limit then accepted + [now] else accepted
  }

  lemma SortedAppend(times: seq<int>, t: int)
    requires Sorted(times) && forall u | u in times :: u <= t
    ensures Sorted(times + [t])
  {
    forall i, j | 0 <= i < j < |times| + 1 ensures (times + [t])[i] <= (times + [t])[j] {
      assert times[i] in times;
    }
  }

  /** Acceptances are calls, so they are in clock order and no later than the last call. */
  lemma {:induction false} UnprunedIsSorted(limit: nat, window: nat, calls: seq<int>)
    requires Sorted(calls)
    ensures Sorted(Unpruned(limit, window, calls))
    ensures forall t | t in Unpruned(limit, window, calls) :: calls != [] && t <= calls[|calls| - 1]
  {
    if calls != [] {
      var earlier := calls[..|calls| - 1];
      UnprunedIsSorted(limit, window, earlier);
      var before := Unpruned(limit, window, earlier);
      var now := calls[|calls| - 1];
      forall t | t in before ensures t <= now {
        assert earlier[|earlier| - 1] == calls[|calls| - 2] <= now;
      }
      SortedAppend(before, now);
    }
  }

  lemma {:induction false} CountInShrinks(times: seq<int>, lo: int, hi: int, lo': int, hi': int)
    requires forall t | t in times && lo <= t <= hi :: lo' <= t <= hi'
    ensures CountIn(times, lo, hi) <= CountIn(times, lo', hi')
  {
    if times != [] {
      var rest := times[..|times| - 1];
      assert forall t | t in rest :: t in times;
      CountInShrinks(rest, lo, hi, lo', hi');
      assert times[|times| - 1] in times;
    }
  }

  lemma CountInAppend(times: seq<int>, t: int, lo: int, hi: int)
    ensures CountIn(times + [t], lo, hi) == CountIn(times, lo, hi) + if lo <= t <= hi then 1 else 0
  {
    assert (times + [t])[..|times|] == times;
  }

  lemma AcceptingKeepsLimit(before: seq<int>, now: int, limit: nat, window: nat, lo: int)
    requires CountIn(before, lo, lo + window) <= limit && forall t | t in before :: t <= now
    requires CountIn(before, now - window, now) < limit
    ensures CountIn(before + [now], lo, lo + window) <= limit
  {
    CountInAppend(before, now, lo, lo + window);
    if lo <= now <= lo + window {
      CountInShrinks(before, lo, lo + window, now - window, now);
    }
  }

  /** In any run whatever, every closed interval as long as the window holds at most
      `limit` acceptances. */
  lemma {:induction false} AtMostLimitPerWindow(limit: nat, window: nat, calls: seq<int>, lo: int)
    requires Sorted(calls)
    ensures CountIn(Unpruned(limit, window, calls), lo, lo + window) <= limit
  {
    if calls != [] {
      var earlier, now := calls[..|calls| - 1], calls[|calls| - 1];
      var before := Unpruned(limit, window, earlier);
      AtMostLimitPerWindow(limit, window, earlier, lo);
      UnprunedIsSorted(limit, window, earlier);
      if CountIn(before, now - window, now) < limit {
        AcceptingKeepsLimit(before, now, limit, window, lo);
      }
    }
  }

  /** When what was forgotten is too old and what is kept is recent enough, the window
      holds exactly what is kept. */
  lemma {:induction false} CountInKept(forgotten: seq<int>, kept: seq<int>, lo: int, hi: int)
    requires forall t | t in forgotten :: t < lo
    requires forall t | t in kept :: lo <= t <= hi
    ensures CountIn(forgotten + kept, lo, hi) == |kept|
  {
    var all := forgotten + kept;
    if kept != [] {
      var rest := kept[..|kept| - 1];
      assert all[..|all| - 1] == forgotten + rest;
      assert forall t | t in rest :: t in kept;
      CountInKept(forgotten, rest, lo, hi);
      assert all[|all| - 1] in kept;
    } else if forgotten != [] {
      var rest := forgotten[..|forgotten| - 1];
      assert all[..|all| - 1] == rest + kept;
      assert forall t | t in rest :: t in forgotten;
      assert all[|all| - 1] in forgotten;
      CountInKept(rest, kept, lo, hi);
    } else {
      assert all == [];
    }
  }

  lemma KeptAreRecent(forgotten: seq<int>, kept: seq<int>, lo: int, hi: int)
    requires Sorted(forgotten + kept) && (kept == [] || lo <= kept[0])
    requires forall t | t in forgotten + kept :: t <= hi
    ensures forall t | t in kept :: lo <= t <= hi
  {
    var all := forgotten + kept;
    forall t | t in kept ensures lo <= t <= hi {
      var i :| 0 <= i < |kept| && kept[i] == t;
      assert all[|forgotten|] == kept[0] && all[|forgotten| + i] == t;
      assert t in all;
    }
  }

  lemma KeptAreCounted(forgotten: seq<int>, kept: seq<int>, window: nat, now: int)
    requires Sorted(forgotten + kept) && forall t | t in forgotten + kept :: t <= now
    requires forall t | t in forgotten :: now - t > window
    requires kept == [] || now - kept[0] <= window
    ensures CountIn(forgotten + kept, now - window, now) == |kept|
  {
    KeptAreRecent(forgotten, kept, now - window, now);
    CountInKept(forgotten, kept, now - window, now);
  }

  lemma UnprunedAppend(limit: nat, window: nat, calls: seq<int>, now: int)
    ensures Unpruned(limit, window, calls + [now]) == Admit(limit, window, Unpruned(limit, window, calls), now)
  {
    var all := calls + [now];
    assert all[..|all| - 1] == calls && all[|all| - 1] == now;
  }

  /** What is kept, once pruned, is all that the reference limiter counts at `now`. */
  lemma KeptDecides(limit: nat, window: nat, calls: seq<int>, forgotten: seq<int>, kept: seq<int>, now: int)
    requires Sorted(calls) && (calls != [] ==> calls[|calls| - 1] <= now)
    requires Unpruned(limit, window, calls) == forgotten + kept
    requires forall t | t in forgotten :: now - t > window
    requires kept == [] || now - kept[0] <= window
    ensures CountIn(Unpruned(limit, window, calls), now - window, now) == |kept|
    ensures Unpruned(limit, window, calls + [now])
            == if |kept| < limit then forgotten + kept + [now] else forgotten + kept
  {
    UnprunedIsSorted(limit, window, calls);
    KeptAreCounted(forgotten, kept, window, now);
    UnprunedAppend(limit, window, calls, now);
  }

  lemma KeepOneMore(forgotten: seq<int>, kept: seq<int>, now: int)
    ensures forgotten + kept + [now] == forgotten + (kept + [now])
  {
  }

  lemma OldStaysOld(calls: seq<int>, forgotten: seq<int>, window: nat, now: int)
    requires forall t | t in forgotten :: now - t > window
    ensures AllOld(calls + [now], forgotten, window)
  {
  }

  /** What was forgotten was too old at the latest call. */
  ghost predicate AllOld(calls: seq<int>, forgotten: seq<int>, window: nat) {
    forall t | t in forgotten :: calls != [] && calls[|calls| - 1] - t > window
  }

  lemma StaysSorted(calls: seq<int>, now: int)
    requires Sorted(calls) && (calls != [] ==> calls[|calls| - 1] <= now)
    ensures Sorted(calls + [now])
  {
    assert forall t | t in calls :: t <= now;
    SortedAppend(calls, now);
  }

  class RateLimiter {
    var timestamps: seq<int>
    const maxCommands: nat
    const window: nat
    ghost var calls: seq<int>
    ghost var forgotten: seq<int>

    /** Everything ever accepted, as the reference limiter sees it. */
    ghost function Accepted(): seq<int>
      reads this
    {
      Unpruned(maxCommands, window, calls)
    }

    /** The deque is a bounded suffix of all acceptances, and what it has forgotten was
        already too old at the latest call. */
    ghost predicate Valid()
      reads this
    {
      && Sorted(calls)
      && |timestamps| <= maxCommands
      && Accepted() == forgotten + timestamps
      && AllOld(calls, forgotten, window)
    }

    constructor (maxCommands: nat, window: nat)
      ensures Valid() && calls == [] && timestamps == []
      ensures this.maxCommands == maxCommands && this.window == window
    {
      this.maxCommands := maxCommands;
      this.window := window;
      timestamps := [];
      calls := [];
      forgotten := [];
    }

    /** The loop that drops what is too old from the front. */
    method Prune(now: int)
      modifies this`timestamps, this`forgotten
      ensures forgotten + timestamps == old(forgotten + timestamps) && |timestamps| <= old(|timestamps|)
      ensures timestamps == [] || now - timestamps[0] <= window
      ensures (forall t | t in old(forgotten) :: now - t > window) ==>
                forall t | t in forgotten :: now - t > window
    {
      while timestamps != [] && now - timestamps[0] > window
        invariant |timestamps| <= old(|timestamps|)
        invariant forgotten + timestamps == old(forgotten + timestamps)
        invariant (forall t | t in old(forgotten) :: now - t > window) ==>
                    forall t | t in forgotten :: now - t > window
        decreases |timestamps|
      {
        forgotten := forgotten + [timestamps[0]];
        timestamps := timestamps[1..];
      }
    }

    /** Decides exactly as the limiter that keeps the whole history. */
    method Check(now: int) returns (ok: bool)
      requires Valid()
      requires calls != [] ==> calls[|calls| - 1] <= now
      modifies this
      ensures Valid()
      ensures calls == old(calls) + [now]
      ensures ok <==> CountIn(old(Accepted()), now - window, now) < maxCommands
      ensures Accepted() == if ok then old(Accepted()) + [now] else old(Accepted())
    {
      Prune(now);
      KeptDecides(maxCommands, window, calls, forgotten, timestamps, now);
      UnprunedAppend(maxCommands, window, calls, now);
      KeepOneMore(forgotten, timestamps, now);
      OldStaysOld(calls, forgotten, window, now);
      StaysSorted(calls, now);
      ok := |timestamps| < maxCommands;
      if ok {
        timestamps := timestamps + [now];
      }
      calls := calls + [now];
    }
  }
}
