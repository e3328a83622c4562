/** Finite transition tables, the walks they allow, and the breadth-first search
    that app/domain/state_machines.py uses to find a shortest legal walk. */
module Walks {
  import opened Wrappers

  type Table<S(==)> = map<S, set<S>>

  datatype SearchError = NoLegalPath

  /** The states one step away from `s`; a state missing from the table has none. */
  function Successors<S>(table: Table<S>, s: S): set<S> {
    if s in table then table[s] else {}
  }

  /** The state a walk is in before its step number `i`. */
  function Before<S>(start: S, steps: seq<S>, i: nat): S
    requires i <= |steps|
  {
    if i == 0 then start else steps[i - 1]
  }

  function End<S>(start: S, steps: seq<S>): S {
    Before(start, steps, |steps|)
  }

  ghost predicate IsEdge<S>(table: Table<S>, start: S, steps: seq<S>, i: nat)
    requires i < |steps|
  {
    steps[i] in Successors(table, Before(start, steps, i))
  }

  /** Every step of the walk is an edge of the table. */
  ghost predicate IsWalk<S>(table: Table<S>, start: S, steps: seq<S>) {
    forall i :: 0 <= i < |steps| ==> IsEdge(table, start, steps, i)
  }

  ghost predicate IsWalkTo<S>(table: Table<S>, start: S, target: S, steps: seq<S>) {
    IsWalk(table, start, steps) && End(start, steps) == target
  }

  /** `target` can be reached in at most `n` steps. */
  ghost predicate Within<S(!new)>(table: Table<S>, start: S, target: S, n: nat) {
    exists steps :: IsWalkTo(table, start, target, steps) && |steps| <= n
  }

  ghost predicate Reachable<S(!new)>(table: Table<S>, start: S, target: S) {
    exists steps :: IsWalkTo(table, start, target, steps)
  }

  ghost predicate IsShortest<S(!new)>(table: Table<S>, start: S, target: S, steps: seq<S>) {
    && IsWalkTo(table, start, target, steps)
    && forall other :: IsWalkTo(table, start, target, other) ==> |steps| <= |other|
  }

  ghost predicate NoRepeats<S>(start: S, steps: seq<S>) {
    forall i, j :: 0 <= i < j <= |steps| ==> Before(start, steps, i) != Before(start, steps, j)
  }

  // ---------------------------------------------------------------- walks

  lemma WalkAppend<S>(table: Table<S>, start: S, steps: seq<S>, next: S)
    requires IsWalk(table, start, steps) && next in Successors(table, End(start, steps))
    ensures IsWalkTo(table, start, next, steps + [next])
  {
    var longer := steps + [next];
    forall i | 0 <= i < |longer|
      ensures IsEdge(table, start, longer, i)
    {
      if i < |steps| {
        assert IsEdge(table, start, steps, i);
        assert Before(start, longer, i) == Before(start, steps, i);
      } else {
        assert Before(start, longer, i) == End(start, steps);
      }
    }
  }

  lemma WalkPrefix<S>(table: Table<S>, start: S, steps: seq<S>, n: nat)
    requires IsWalk(table, start, steps) && n <= |steps|
    ensures IsWalkTo(table, start, Before(start, steps, n), steps[..n])
  {
    forall i | 0 <= i < n
      ensures IsEdge(table, start, steps[..n], i)
    {
      assert IsEdge(table, start, steps, i);
      assert Before(start, steps[..n], i) == Before(start, steps, i);
    }
  }

  /** After the cut, position `k` of the walk is position `k` or `k + (j - i)` of the old one. */
  lemma CutPositions<S>(start: S, steps: seq<S>, i: nat, j: nat, k: nat)
    requires i < j <= |steps| && Before(start, steps, i) == Before(start, steps, j)
    requires k <= |steps[..i] + steps[j..]|
    ensures Before(start, steps[..i] + steps[j..], k) == Before(start, steps, if k <= i then k else k + (j - i))
  {
  }

  /** Cutting out a loop of a walk leaves a walk to the same end. */
  lemma CutLoop<S>(table: Table<S>, start: S, steps: seq<S>, i: nat, j: nat)
    requires IsWalk(table, start, steps)
    requires i < j <= |steps| && Before(start, steps, i) == Before(start, steps, j)
    ensures IsWalkTo(table, start, End(start, steps), steps[..i] + steps[j..])
  {
    var cut := steps[..i] + steps[j..];
    forall k | 0 <= k < |cut|
      ensures IsEdge(table, start, cut, k)
    {
      CutPositions(start, steps, i, j, k);
      var m := if k < i then k else k + (j - i);
      assert cut[k] == steps[m];
      assert IsEdge(table, start, steps, m);
    }
    CutPositions(start, steps, i, j, |cut|);
  }

  /** A shortest walk visits no state twice, the start included. */
  lemma ShortestHasNoRepeats<S(!new)>(table: Table<S>, start: S, target: S, steps: seq<S>)
    requires IsShortest(table, start, target, steps)
    ensures NoRepeats(start, steps)
  {
    forall i, j | 0 <= i < j <= |steps|
      ensures Before(start, steps, i) != Before(start, steps, j)
    {
      if Before(start, steps, i) == Before(start, steps, j) {
        CutLoop(table, start, steps, i, j);
      }
    }
  }

  /** A set that holds the start and is closed under the table holds every end. */
  lemma ClosedSetHoldsEnds<S>(table: Table<S>, start: S, closed: set<S>, steps: seq<S>)
    requires start in closed && forall s :: s in closed ==> Successors(table, s) <= closed
    requires IsWalk(table, start, steps)
    ensures End(start, steps) in closed
    decreases |steps|
  {
    if steps != [] {
      var n := |steps| - 1;
      WalkPrefix(table, start, steps, n);
      ClosedSetHoldsEnds(table, start, closed, steps[..n]);
      assert IsEdge(table, start, steps, n);
    }
  }

  // ------------------------------------------------- the search frontier

  /** The search keeps pairs of a state and a shortest walk to it. */
  ghost predicate FrontierOk<S(!new)>(table: Table<S>, start: S, queue: seq<(S, seq<S>)>) {
    && (forall i :: 0 <= i < |queue| ==> IsShortest(table, start, queue[i].0, queue[i].1))
    && (forall i, j :: 0 <= i < j < |queue| ==> |queue[i].1| <= |queue[j].1| <= |queue[i].1| + 1)
  }

  function States<S>(queue: seq<(S, seq<S>)>): set<S> {
    set i | 0 <= i < |queue| :: queue[i].0
  }

  /** Every state within `depth` steps has been seen. */
  ghost predicate SeenTo<S(!new)>(table: Table<S>, start: S, seen: set<S>, depth: nat) {
    forall s :: Within(table, start, s, depth) ==> s in seen
  }

  /** A state some walk reaches in `depth` steps is not in a queue of states at `depth + 1`. */
  lemma ReachedAreNotQueued<S(!new)>(table: Table<S>, start: S, queue: seq<(S, seq<S>)>, state: S, steps: seq<S>)
    requires FrontierOk(table, start, queue) && IsWalkTo(table, start, state, steps)
    requires forall i :: 0 <= i < |queue| ==> |queue[i].1| == |steps| + 1
    ensures state !in States(queue)
  {
    forall i | 0 <= i < |queue|
      ensures queue[i].0 != state
    {
      assert IsShortest(table, start, queue[i].0, queue[i].1);
    }
  }

  /** Once every state still queued is at `depth + 1`, one more level is covered. */
  lemma NextLevel<S(!new)>(table: Table<S>, start: S, queue: seq<(S, seq<S>)>, seen: set<S>, depth: nat)
    requires FrontierOk(table, start, queue) && SeenTo(table, start, seen, depth)
    requires forall i :: 0 <= i < |queue| ==> |queue[i].1| == depth + 1
    requires forall s :: s in seen && s !in States(queue) ==> Successors(table, s) <= seen
    ensures SeenTo(table, start, seen, depth + 1)
  {
    forall s | Within(table, start, s, depth + 1)
      ensures s in seen
    {
      var steps :| IsWalkTo(table, start, s, steps) && |steps| <= depth + 1;
      if |steps| <= depth {
        assert Within(table, start, s, depth);
      } else {
        var mid := Before(start, steps, depth);
        WalkPrefix(table, start, steps, depth);
        assert Within(table, start, mid, depth);
        ReachedAreNotQueued(table, start, queue, mid, steps[..depth]);
        assert IsEdge(table, start, steps, depth);
      }
    }
  }

  /** A state first met one step beyond `depth` has no shorter walk. */
  lemma NewStateIsShortest<S(!new)>(table: Table<S>, start: S, seen: set<S>, depth: nat, path: seq<S>, next: S)
    requires SeenTo(table, start, seen, depth) && |path| == depth && IsWalk(table, start, path)
    requires next in Successors(table, End(start, path)) && next !in seen
    ensures IsShortest(table, start, next, path + [next])
  {
    WalkAppend(table, start, path, next);
    forall other | IsWalkTo(table, start, next, other)
      ensures |path + [next]| <= |other|
    {
      assert |other| <= depth ==> Within(table, start, next, depth);
    }
  }

  lemma PopFrontier<S(!new)>(table: Table<S>, start: S, queue: seq<(S, seq<S>)>)
    requires FrontierOk(table, start, queue) && queue != []
    ensures FrontierOk(table, start, queue[1..])
    ensures States(queue) == {queue[0].0} + States(queue[1..])
    ensures forall i :: 0 <= i < |queue[1..]| ==> |queue[0].1| <= |queue[1..][i].1| <= |queue[0].1| + 1
  {
    forall s | s in States(queue)
      ensures s in {queue[0].0} + States(queue[1..])
    {
      var i :| 0 <= i < |queue| && queue[i].0 == s;
      assert i > 0 ==> queue[1..][i - 1].0 == s;
    }
    forall s | s in States(queue[1..])
      ensures s in States(queue)
    {
      var i :| 0 <= i < |queue[1..]| && queue[1..][i].0 == s;
      assert queue[i + 1].0 == s;
    }
  }

  lemma PushFrontier<S(!new)>(table: Table<S>, start: S, queue: seq<(S, seq<S>)>, state: S, path: seq<S>, depth: nat)
    requires FrontierOk(table, start, queue) && IsShortest(table, start, state, path) && |path| == depth + 1
    requires forall i :: 0 <= i < |queue| ==> depth <= |queue[i].1| <= depth + 1
    ensures FrontierOk(table, start, queue + [(state, path)])
    ensures States(queue + [(state, path)]) == States(queue) + {state}
  {
    var longer := queue + [(state, path)];
    forall s | s in States(queue) + {state}
      ensures s in States(longer)
    {
      if s in States(queue) {
        var i :| 0 <= i < |queue| && queue[i].0 == s;
        assert longer[i].0 == s;
      } else {
        assert longer[|queue|].0 == s;
      }
    }
  }

  /** All states the search can ever see. */
  function Universe<S>(table: Table<S>, start: S): set<S> {
    {start} + set s, t | s in table && t in table[s] :: t
  }

  /** What the search knows between two steps: `queue` is a frontier of shortest
      walks, every seen state that left the queue has all its successors seen,
      and everything within `depth` steps is seen. */
  ghost predicate SearchOk<S(!new)>(table: Table<S>, start: S, target: S, queue: seq<(S, seq<S>)>, seen: set<S>,
                                    depth: nat, open: set<S>)
  {
    && start in seen && target !in seen && seen <= Universe(table, start)
    && FrontierOk(table, start, queue)
    && States(queue) <= seen
    && (forall s :: s in seen && s !in States(queue) && s !in open ==> Successors(table, s) <= seen)
    && SeenTo(table, start, seen, depth)
    && (forall i :: 0 <= i < |queue| ==> depth <= |queue[i].1| <= depth + 1)
  }

  lemma SuccessorsInUniverse<S>(table: Table<S>, start: S, s: S)
    ensures Successors(table, s) <= Universe(table, start)
  {
  }

  /** Queueing a state first met one step beyond `depth`. */
  lemma PushKeepsSearch<S(!new)>(table: Table<S>, start: S, target: S, queue: seq<(S, seq<S>)>, seen: set<S>,
                                 state: S, path: seq<S>, next: S)
    requires SearchOk(table, start, target, queue, seen, |path|, {state})
    requires IsShortest(table, start, next, path + [next]) && next in Universe(table, start) && next != target
    ensures SearchOk(table, start, target, queue + [(next, path + [next])], seen + {next}, |path|, {state})
  {
    PushFrontier(table, start, queue, next, path + [next], |path|);
    var longer := queue + [(next, path + [next])];
    forall i | 0 <= i < |longer|
      ensures |path| <= |longer[i].1| <= |path| + 1
    {
    }
    assert SeenTo(table, start, seen + {next}, |path|);
  }

  /** Tries every successor of one state taken off the queue. */
  method Expand<S(==, !new)>(table: Table<S>, current: S, target: S, state: S, path: seq<S>,
                             queue0: seq<(S, seq<S>)>, seen0: set<S>)
    returns (found: Option<seq<S>>, queue: seq<(S, seq<S>)>, seen: set<S>)
    requires SearchOk(table, current, target, queue0, seen0, |path|, {state})
    requires IsShortest(table, current, state, path)
    ensures found.Some? ==> IsShortest(table, current, target, found.value)
    ensures found.None? ==> SearchOk(table, current, target, queue, seen, |path|, {})
    ensures found.None? ==> seen0 < seen || (seen == seen0 && queue == queue0)
  {
    queue, seen := queue0, seen0;
    var untried := Successors(table, state);
    SuccessorsInUniverse(table, current, state);
    while untried != {}
      invariant untried <= Successors(table, state) && Successors(table, state) - untried <= seen
      invariant SearchOk(table, current, target, queue, seen, |path|, {state})
      invariant seen0 < seen || (seen == seen0 && queue == queue0)
      decreases untried
    {
      var next :| next in untried;
      untried := untried - {next};
      if next in seen {
        continue;
      }
      var newPath := path + [next];
      NewStateIsShortest(table, current, seen, |path|, path, next);
      if next == target {
        return Some(newPath), queue, seen;
      }
      PushKeepsSearch(table, current, target, queue, seen, state, path, next);
      queue, seen := queue + [(next, newPath)], seen + {next};
    }
    return None, queue, seen;
  }

  /** Shortest legal walk from `current` to `target`, by breadth-first search.
      The order in which the successors of one state are tried is left open. */
  method ShortestPath<S(==, !new)>(table: Table<S>, current: S, target: S)
    returns (result: Result<seq<S>, SearchError>)
    ensures result.Success? ==>
              && IsShortest(table, current, target, result.value)
              && NoRepeats(current, result.value)
    ensures result.Success? <==> Reachable(table, current, target)
  {
    assert IsWalkTo(table, current, current, []);
    if current == target {
      ShortestHasNoRepeats(table, current, target, []);
      return Success([]);
    }
    var queue: seq<(S, seq<S>)> := [(current, [])];
    var seen := {current};
    ghost var depth: nat := 0;
    assert States(queue) == {current} by {
      assert queue[0].0 == current;
    }
    while queue != []
      invariant SearchOk(table, current, target, queue, seen, depth, {})
      decreases Universe(table, current) - seen, |queue|
    {
      if |queue[0].1| == depth + 1 {
        NextLevel(table, current, queue, seen, depth);
        depth := depth + 1;
      }
      PopFrontier(table, current, queue);
      var (state, path) := queue[0];
      assert IsShortest(table, current, queue[0].0, queue[0].1);
      var found, rest, now := Expand(table, current, target, state, path, queue[1..], seen);
      if found.Some? {
        ShortestHasNoRepeats(table, current, target, found.value);
        return Success(found.value);
      }
      queue, seen := rest, now;
    }
    forall steps | IsWalk(table, current, steps)
      ensures End(current, steps) != target
    {
      ClosedSetHoldsEnds(table, current, seen, steps);
    }
    return Failure(NoLegalPath);
  }
}
