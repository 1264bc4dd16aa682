/** One cycle of the engine: the triggered scripts in order of priority, run one after another
    after the conflict detector was reset (`src/scripting/engine.rs`). */
module ScriptCycle {
  import opened Wrappers
  import opened ScriptEngine
  import opened ScriptIdentity
  import opened Wiring
  import CD = ConflictDetector

  // ---- Order of execution ----

  function PriorityOf(s: Setup, id: string): nat {
    if id in s.scripts then s.scripts[id].priority else 0
  }

  /** A stable sort, highest priority first. */
  function ByPriority(s: Setup, ids: seq<string>): seq<string> {
    if ids == [] then [] else Insert(s, ByPriority(s, ids[..|ids| - 1]), ids[|ids| - 1])
  }

  /** Behind every entry that does not have a lower priority. */
  function Insert(s: Setup, sorted: seq<string>, id: string): seq<string> {
    if sorted == [] || PriorityOf(s, sorted[|sorted| - 1]) >= PriorityOf(s, id) then sorted + [id]
    else Insert(s, sorted[..|sorted| - 1], id) + [sorted[|sorted| - 1]]
  }

  ghost predicate Descends(s: Setup, ids: seq<string>) {
    forall i, j | 0 <= i < j < |ids| :: PriorityOf(s, ids[i]) >= PriorityOf(s, ids[j])
  }

  /** The entries of one priority, in order. */
  ghost function OfPriority(s: Setup, ids: seq<string>, p: nat): seq<string> {
    if ids == [] then []
    else
      OfPriority(s, ids[..|ids| - 1], p)
      + if PriorityOf(s, ids[|ids| - 1]) == p then [ids[|ids| - 1]] else []
  }

  lemma {:induction false} InsertSorts(s: Setup, sorted: seq<string>, id: string)
    requires Descends(s, sorted)
    ensures Descends(s, Insert(s, sorted, id))
    ensures forall x | x in Insert(s, sorted, id) :: x == id || x in sorted
  {
    if sorted != [] && PriorityOf(s, sorted[|sorted| - 1]) < PriorityOf(s, id) {
      var rest, last := sorted[..|sorted| - 1], sorted[|sorted| - 1];
      InsertSorts(s, rest, id);
      var front := Insert(s, rest, id);
      forall i | 0 <= i < |front| ensures PriorityOf(s, front[i]) >= PriorityOf(s, last) {
        assert front[i] in front;
      }
    }
  }

  lemma {:induction false} InsertIsStable(s: Setup, sorted: seq<string>, id: string, p: nat)
    ensures OfPriority(s, Insert(s, sorted, id), p)
            == OfPriority(s, sorted, p) + if PriorityOf(s, id) == p then [id] else []
  {
    if sorted == [] || PriorityOf(s, sorted[|sorted| - 1]) >= PriorityOf(s, id) {
      AppendOfPriority(s, sorted, id, p);
    } else {
      var rest, last := sorted[..|sorted| - 1], sorted[|sorted| - 1];
      InsertIsStable(s, rest, id, p);
      AppendOfPriority(s, Insert(s, rest, id), last, p);
    }
  }

  lemma AppendOfPriority(s: Setup, ids: seq<string>, id: string, p: nat)
    ensures OfPriority(s, ids + [id], p)
            == OfPriority(s, ids, p) + if PriorityOf(s, id) == p then [id] else []
  {
    var more := ids + [id];
    assert more[..|more| - 1] == ids;
  }

  /** The order is by falling priority, and within a priority it is the order given. */
  lemma {:induction false} SortsStably(s: Setup, ids: seq<string>, p: nat)
    ensures Descends(s, ByPriority(s, ids))
    ensures OfPriority(s, ByPriority(s, ids), p) == OfPriority(s, ids, p)
  {
    if ids != [] {
      var earlier, last := ids[..|ids| - 1], ids[|ids| - 1];
      SortsStably(s, earlier, p);
      InsertSorts(s, ByPriority(s, earlier), last);
      InsertIsStable(s, ByPriority(s, earlier), last, p);
    }
  }

  // ---- The active scripts come in the order of a hash map ----

  /** A sequence in descending order is determined by its entries of each priority. */
  lemma {:induction false} SortedIsDetermined(s: Setup, x: seq<string>, y: seq<string>)
    requires Descends(s, x) && Descends(s, y)
    requires forall p :: OfPriority(s, x, p) == OfPriority(s, y, p)
    ensures x == y
    decreases |x|
  {
    if x != [] {
      assert OfPriority(s, x, PriorityOf(s, x[|x| - 1])) != [];
    }
    if y != [] {
      assert OfPriority(s, y, PriorityOf(s, y[|y| - 1])) != [];
    }
    if x != [] {
      var a, b := x[|x| - 1], y[|y| - 1];
      NoneBelowLast(s, x, PriorityOf(s, b));
      NoneBelowLast(s, y, PriorityOf(s, a));
      assert PriorityOf(s, a) == PriorityOf(s, b);
      var x0, y0 := x[..|x| - 1], y[..|y| - 1];
      assert OfPriority(s, x, PriorityOf(s, a)) == OfPriority(s, x0, PriorityOf(s, a)) + [a];
      assert OfPriority(s, y, PriorityOf(s, a)) == OfPriority(s, y0, PriorityOf(s, a)) + [b];
      forall q ensures OfPriority(s, x0, q) == OfPriority(s, y0, q) {
        if q == PriorityOf(s, a) {
          SameButLast(OfPriority(s, x0, q), a, OfPriority(s, y0, q), b);
        } else {
          assert OfPriority(s, x, q) == OfPriority(s, x0, q) && OfPriority(s, y, q) == OfPriority(s, y0, q);
        }
      }
      SortedIsDetermined(s, x0, y0);
      SameButLast(OfPriority(s, x0, PriorityOf(s, a)), a, OfPriority(s, y0, PriorityOf(s, a)), b);
    }
  }

  lemma SameButLast(x: seq<string>, a: string, y: seq<string>, b: string)
    requires x + [a] == y + [b]
    ensures x == y && a == b
  {
    var z := x + [a];
    assert z[..|z| - 1] == x && z[..|z| - 1] == y;
    assert z[|z| - 1] == a && z[|z| - 1] == b;
  }

  lemma {:induction false} NoneBelowLast(s: Setup, x: seq<string>, p: nat)
    requires Descends(s, x) && x != [] && OfPriority(s, x, p) != []
    ensures p >= PriorityOf(s, x[|x| - 1])
  {
    if PriorityOf(s, x[|x| - 1]) != p {
      var rest := x[..|x| - 1];
      NoneBelowLast(s, rest, p);
      assert x[|rest| - 1] == rest[|rest| - 1];
    }
  }

  /** No two of the scripts have one priority. */
  ghost predicate PrioritiesDiffer(s: Setup, ids: set<string>) {
    forall x, y | x in ids && y in ids && PriorityOf(s, x) == PriorityOf(s, y) :: x == y
  }

  lemma {:induction false} OneOfPriority(s: Setup, ids: seq<string>, id: string)
    requires Distinct(ids) && PrioritiesDiffer(s, set x | x in ids)
    ensures id in ids ==> OfPriority(s, ids, PriorityOf(s, id)) == [id]
    ensures forall p | (forall x | x in ids :: PriorityOf(s, x) != p) :: OfPriority(s, ids, p) == []
    decreases |ids|
  {
    if ids != [] {
      var rest, last := ids[..|ids| - 1], ids[|ids| - 1];
      assert ids == rest + [last] && last !in rest;
      OneOfPriority(s, rest, id);
    }
  }

  /** The order in which the active scripts are found shows in the order in which they run exactly
      when two of them have one priority. */
  lemma MapOrderIsHiddenExactly(s: Setup, ids: set<string>)
    ensures (forall a, b | Orders(a, ids) && Orders(b, ids) :: ByPriority(s, a) == ByPriority(s, b))
            <==> PrioritiesDiffer(s, ids)
  {
    if PrioritiesDiffer(s, ids) {
      forall a, b | Orders(a, ids) && Orders(b, ids) ensures ByPriority(s, a) == ByPriority(s, b) {
        DifferentPrioritiesSortAlike(s, a, b, ids);
      }
    } else {
      var x, y :| x in ids && y in ids && PriorityOf(s, x) == PriorityOf(s, y) && x != y;
      EqualPrioritiesShow(s, ids, x, y);
    }
  }

  lemma DifferentPrioritiesSortAlike(s: Setup, a: seq<string>, b: seq<string>, ids: set<string>)
    requires PrioritiesDiffer(s, ids) && Orders(a, ids) && Orders(b, ids)
    ensures ByPriority(s, a) == ByPriority(s, b)
  {
    assert (set x | x in a) == ids && (set x | x in b) == ids;
    forall p ensures OfPriority(s, ByPriority(s, a), p) == OfPriority(s, ByPriority(s, b), p) {
      SortsStably(s, a, p);
      SortsStably(s, b, p);
      if x :| x in ids && PriorityOf(s, x) == p {
        OneOfPriority(s, a, x);
        OneOfPriority(s, b, x);
      } else {
        OneOfPriority(s, a, "");
        OneOfPriority(s, b, "");
      }
    }
    SortsStably(s, a, 0);
    SortsStably(s, b, 0);
    SortedIsDetermined(s, ByPriority(s, a), ByPriority(s, b));
  }

  lemma EqualPrioritiesShow(s: Setup, ids: set<string>, x: string, y: string)
    requires x in ids && y in ids && x != y && PriorityOf(s, x) == PriorityOf(s, y)
    ensures exists a, b :: Orders(a, ids) && Orders(b, ids) && ByPriority(s, a) != ByPriority(s, b)
  {
    var rest := SomeOrder(ids - {x, y});
    var a, b := rest + [x] + [y], rest + [y] + [x];
    EndsOrder(rest, x, y, ids);
    EndsOrder(rest, y, x, ids);
    LastTwoShow(s, rest, x, y);
  }

  lemma EndsOrder(rest: seq<string>, x: string, y: string, ids: set<string>)
    requires x in ids && y in ids && x != y && Orders(rest, ids - {x, y})
    ensures Orders(rest + [x] + [y], ids)
  {
  }

  lemma LastTwoShow(s: Setup, rest: seq<string>, x: string, y: string)
    requires x != y && PriorityOf(s, x) == PriorityOf(s, y)
    ensures ByPriority(s, rest + [x] + [y]) != ByPriority(s, rest + [y] + [x])
  {
    LastTwo(s, rest, x, y);
    LastTwo(s, rest, y, x);
    var o := OfPriority(s, rest, PriorityOf(s, x));
    assert (o + [x, y])[|o|] == x && (o + [y, x])[|o|] == y;
  }

  lemma LastTwo(s: Setup, rest: seq<string>, x: string, y: string)
    requires PriorityOf(s, x) == PriorityOf(s, y)
    ensures var p := PriorityOf(s, x);
            OfPriority(s, ByPriority(s, rest + [x] + [y]), p) == OfPriority(s, rest, p) + [x, y]
  {
    var p := PriorityOf(s, x);
    AppendOfPriority(s, rest, x, p);
    AppendOfPriority(s, rest + [x], y, p);
    SortsStably(s, rest + [x] + [y], p);
  }

  // ---- Running them ----

  /** The world after the scripts have run from the top, in the order given. */
  function RunAll(s: Setup, w: World, ids: seq<string>): World {
    if ids == [] then w else ExecScript(s, RunAll(s, w, ids[..|ids| - 1]), ids[|ids| - 1], 0).w
  }

  /** One cycle: the detector is reset, and the triggered scripts run by priority. */
  function RunCycle(s: Setup, w: World, triggered: seq<string>): World {
    RunAll(s, w.(pending := map[], attempts := [], skips := 0), ByPriority(s, triggered))
  }

  lemma RunAllUnfold(s: Setup, w: World, ids: seq<string>, i: nat)
    requires i < |ids|
    ensures RunAll(s, w, ids[..i + 1]) == ExecScript(s, RunAll(s, w, ids[..i]), ids[i], 0).w
  {
    assert ids[..i + 1][..i] == ids[..i];
  }

  predicate NoCalls(s: Setup) {
    forall id | id in s.scripts ::
      (forall a | a in s.scripts[id].actions :: !a.op.CallScript?)
      && (forall a | a in s.scripts[id].onError :: !a.op.CallScript?)
  }

  ghost predicate OwnedBy(attempts: seq<Attempt>, from: nat, id: string) {
    forall i | from <= i < |attempts| :: attempts[i].owner == id && attempts[i].afterSkip == None
  }

  /** An action that calls nothing adds at most a write of its own script. */
  lemma ActionIsOwn(s: Setup, w: World, f: Frame, a: Action, depth: nat, from: nat)
    requires depth < s.limits.maxCallDepth && !a.op.CallScript? && OwnedBy(w.attempts, from, f.script)
    ensures var r := ExecAction(s, w, f, None, a, depth);
            r.skipped == None && OwnedBy(r.w.attempts, from, f.script)
  {
  }

  lemma {:induction false} ActionsAreOwn(s: Setup, f: Frame, actions: seq<Action>, p: Progress, depth: nat, from: nat)
    requires depth < s.limits.maxCallDepth && forall a | a in actions :: !a.op.CallScript?
    requires p.skipped == None && OwnedBy(p.w.attempts, from, f.script)
    ensures var q := ExecActions(s, f, actions, p, depth);
            q.skipped == None && OwnedBy(q.w.attempts, from, f.script)
    decreases |actions|
  {
    if actions != [] {
      assert actions[0] in actions && forall a | a in actions[1..] :: a in actions;
      var (q, stop) := TakeAction(s, f, actions[0], p, depth);
      ActionIsOwn(s, p.w.(tick := p.w.tick + 2), f, actions[0], depth, from);
      if !stop {
        ActionsAreOwn(s, f, actions[1..], q, depth, from);
      }
    }
  }

  lemma {:induction false} OnErrorIsOwn(s: Setup, f: Frame, actions: seq<Action>, p: Progress, depth: nat, from: nat)
    requires depth < s.limits.maxCallDepth && forall a | a in actions :: !a.op.CallScript?
    requires p.skipped == None && OwnedBy(p.w.attempts, from, f.script)
    ensures var q := ExecOnError(s, f, actions, p, depth);
            q.skipped == None && OwnedBy(q.w.attempts, from, f.script)
    decreases |actions|
  {
    if actions != [] {
      assert actions[0] in actions && forall a | a in actions[1..] :: a in actions;
      var (q, stop) := TakeHandler(s, f, actions[0], p, depth);
      ActionIsOwn(s, p.w.(tick := p.w.tick + 1), f, actions[0], depth, from);
      if !stop {
        OnErrorIsOwn(s, f, actions[1..], q, depth, from);
      }
    }
  }

  lemma ScriptIsOwn(s: Setup, w: World, id: string, depth: nat)
    requires NoCalls(s)
    ensures OwnedBy(ExecScript(s, w, id, depth).w.attempts, |w.attempts|, id)
  {
    var (w1, admitted) := PassLimiter(s, w, id);
    if depth < s.limits.maxCallDepth && admitted && id in s.scripts {
      var w2 := w1.(current := Some(id), priority := s.scripts[id].priority);
      if AllHold(w2.context, s.scripts[id].conditions) {
        var f := Frame(id, s.samples(w2.tick).now);
        var begun := Progress(w2.(tick := w2.tick + 1), 0, 0, 0, 0, None);
        ActionsAreOwn(s, f, s.scripts[id].actions, begun, depth, |w.attempts|);
        var acted := ExecActions(s, f, s.scripts[id].actions, begun, depth);
        if acted.failed > 0 {
          OnErrorIsOwn(s, f, s.scripts[id].onError, acted, depth, |w.attempts|);
        }
      }
    }
  }

  // ---- Who wins a cycle ----

  lemma {:induction false} RequestAt(attempts: seq<Attempt>, i: nat)
    requires i < |attempts|
    ensures |Requests(attempts)| == |attempts| && Requests(attempts)[i] == attempts[i].request
  {
    var earlier := attempts[..|attempts| - 1];
    if i < |earlier| {
      RequestAt(earlier, i);
    } else if earlier != [] {
      RequestAt(earlier, 0);
    }
  }

  /** The attempts come by falling priority of their owners. */
  ghost predicate AttemptsDescend(s: Setup, attempts: seq<Attempt>) {
    forall i, j | 0 <= i < j < |attempts| ::
      PriorityOf(s, attempts[i].owner) >= PriorityOf(s, attempts[j].owner)
  }

  lemma {:induction false} RunAllDescends(s: Setup, w: World, ids: seq<string>)
    requires NoCalls(s) && Descends(s, ids) && Clean(w)
    ensures var after := RunAll(s, w, ids);
      && WorldOk(s, after)
      && AttemptsDescend(s, after.attempts)
      && (forall a | a in after.attempts :: a.afterSkip == None && a.owner in ids)
  {
    if ids != [] {
      var earlier, id := ids[..|ids| - 1], ids[|ids| - 1];
      RunAllDescends(s, w, earlier);
      var before := RunAll(s, w, earlier);
      ScriptIsFiled(s, before, id, 0);
      ScriptIsOwn(s, before, id, 0);
      var after := ExecScript(s, before, id, 0).w;
      forall i, j | 0 <= i < j < |after.attempts|
        ensures PriorityOf(s, after.attempts[i].owner) >= PriorityOf(s, after.attempts[j].owner)
      {
        if i < |before.attempts| {
          assert after.attempts[i] == before.attempts[i] && before.attempts[i] in before.attempts;
          if j < |before.attempts| {
            assert after.attempts[j] == before.attempts[j];
          }
        }
      }
      forall a | a in after.attempts ensures a.afterSkip == None && a.owner in ids {
        var i :| 0 <= i < |after.attempts| && after.attempts[i] == a;
        if i < |before.attempts| {
          assert before.attempts[i] in before.attempts;
        }
      }
    }
  }

  lemma RequestsDescend(s: Setup, attempts: seq<Attempt>)
    requires AttemptsDescend(s, attempts) && forall a | a in attempts :: UnderOwnName(s, a)
    ensures CD.FixedPriorities(Requests(attempts)) && CD.Descending(Requests(attempts))
  {
    var requests := Requests(attempts);
    if attempts != [] {
      RequestAt(attempts, 0);
      forall i | 0 <= i < |attempts|
        ensures requests[i].write.priority == PriorityOf(s, requests[i].write.scriptId)
        ensures requests[i].write.scriptId == attempts[i].owner
      {
        RequestAt(attempts, i);
        assert UnderOwnName(s, attempts[i]);
      }
    }
  }

  /** A cycle of scripts that call no others leaves every target with the last value that its
      highest-priority writer of the cycle gave it, whatever triggered in whatever order,
      whichever scripts were skipped, limited or failed. */
  lemma CycleEndsWithHighestPriority(s: Setup, w: World, triggered: seq<string>, t: CD.Target)
    requires NoCalls(s)
    ensures var after := RunCycle(s, w, triggered);
      var requests := Requests(after.attempts);
      && after.pending == CD.Run(map[], requests)
      && (forall a | a in after.attempts :: UnderOwnName(s, a))
      && CD.Driven(requests, t)
         == (var best := CD.LastOfHighest(requests, t); if best.Some? then Some(best.value.value) else None)
  {
    var clean := w.(pending := map[], attempts := [], skips := 0);
    var ids := ByPriority(s, triggered);
    SortsStably(s, triggered, 0);
    RunAllDescends(s, clean, ids);
    var attempts := RunAll(s, clean, ids).attempts;
    var requests := Requests(attempts);
    assert forall a | a in attempts :: UnderOwnName(s, a);
    RequestsDescend(s, attempts);
    CD.HighestPriorityWins(requests, t);
  }
}
