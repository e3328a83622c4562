/** The advisory lock (`DistributedLock` in app/core/redis.py): one key that carries the
    token of its owner and expires by itself. Every lock object draws its own token, so
    a token stands for the object. */
module RedisLock {
  import opened Wrappers

  type Token = nat

  /** The key, while it is set. */
  datatype Entry = Entry(owner: Token, expires: nat)

  /** A lock object after `acquire` returned true: under a lease, or because Redis failed. */
  datatype Grant = Leased(expires: nat) | Unguarded

  datatype World = World(now: nat, key: Option<Entry>, grants: map<Token, Grant>)

  datatype Step =
    | Pass(time: nat)
    | TryAcquire(token: Token, ttl: nat, up: bool)
    | Release(token: Token, up: bool)

  /** Whether the key is there to be seen. */
  predicate Live(world: World) {
    world.key.Some? && world.now < world.key.value.expires
  }

  predicate OwnedBy(world: World, token: Token) {
    Live(world) && world.key.value.owner == token
  }

  /** An object acquires once; only an object that acquired releases. */
  predicate Enabled(world: World, step: Step) {
    match step
    case Pass(_) => true
    case TryAcquire(token, _, _) => token !in world.grants && (world.key.Some? ==> world.key.value.owner != token)
    case Release(token, _) => token in world.grants
  }

  /** `set` with `nx` and `ex`; the compare-and-delete script; both no-ops when Redis is down. */
  function Apply(world: World, step: Step): World
    requires Enabled(world, step)
  {
    match step
    case Pass(time) => world.(now := world.now + time)
    case TryAcquire(token, ttl, up) =>
      if !up then world.(grants := world.grants[token := Unguarded])
      else if Live(world) then world
      else world.(key := Some(Entry(token, world.now + ttl)), grants := world.grants[token := Leased(world.now + ttl)])
    case Release(token, up) =>
      var key := if up && OwnedBy(world, token) then None else world.key;
      world.(key := key, grants := world.grants - {token})
  }

  predicate Legal(world: World, steps: seq<Step>)
    decreases |steps|
  {
    steps == [] || (Enabled(world, steps[0]) && Legal(Apply(world, steps[0]), steps[1..]))
  }

  function After(world: World, steps: seq<Step>): World
    requires Legal(world, steps)
    decreases |steps|
  {
    if steps == [] then world else After(Apply(world, steps[0]), steps[1..])
  }

  const FREE: World := World(0, None, map[])

  /** A lease that has not run out still has its key. */
  ghost predicate Backed(world: World) {
    forall token :: token in world.grants && world.grants[token].Leased? && world.now < world.grants[token].expires ==>
                      world.key == Some(Entry(token, world.grants[token].expires))
  }

  /** The key only goes away when the object whose token it carries releases it, or when
      its time is over; until then it is not overwritten either. */
  lemma OnlyOwnerOrTimeRemoves(world: World, step: Step)
    requires Enabled(world, step) && Live(world)
    ensures (Live(Apply(world, step)) && Apply(world, step).key == world.key)
            || (step.Release? && step.up && step.token == world.key.value.owner)
            || (step.Pass? && world.key.value.expires <= world.now + step.time)
  {
  }

  lemma StepKeepsBacked(world: World, step: Step)
    requires Enabled(world, step) && Backed(world)
    ensures Backed(Apply(world, step))
  {
    var next := Apply(world, step);
    forall token | token in next.grants && next.grants[token].Leased? && next.now < next.grants[token].expires
      ensures next.key == Some(Entry(token, next.grants[token].expires))
    {
      if token in world.grants {
        assert world.key == Some(Entry(token, world.grants[token].expires));
      }
    }
  }

  lemma {:induction false} RunKeepsBacked(world: World, steps: seq<Step>)
    requires Legal(world, steps) && Backed(world)
    ensures Backed(After(world, steps))
    decreases |steps|
  {
    if steps != [] {
      StepKeepsBacked(world, steps[0]);
      RunKeepsBacked(Apply(world, steps[0]), steps[1..]);
    }
  }

  /** In every interleaving, with any outages: no two unexpired leases at the same time,
      and nobody else's release ends a lease. */
  lemma LeasesAreExclusive(steps: seq<Step>, a: Token, b: Token)
    requires Legal(FREE, steps)
    requires var world := After(FREE, steps);
             && a in world.grants && world.grants[a].Leased? && world.now < world.grants[a].expires
             && b in world.grants && world.grants[b].Leased? && world.now < world.grants[b].expires
    ensures a == b
    ensures OwnedBy(After(FREE, steps), a)
  {
    RunKeepsBacked(FREE, steps);
  }

  /** While a lease lasts, nothing the others do takes its key: not a release by an object
      whose own lease ran out, nor by one let through while Redis was down. */
  lemma {:induction false} LeaseIsKept(world: World, steps: seq<Step>, token: Token)
    requires Legal(world, steps) && Backed(world) && OwnedBy(world, token) && token in world.grants
    requires forall i :: 0 <= i < |steps| ==> !(steps[i].Release? && steps[i].token == token)
    requires After(world, steps).now < world.key.value.expires
    ensures After(world, steps).key == world.key
    decreases |steps|
  {
    if steps != [] {
      var next := Apply(world, steps[0]);
      ClockRuns(next, steps[1..]);
      OnlyOwnerOrTimeRemoves(world, steps[0]);
      StepKeepsBacked(world, steps[0]);
      assert forall i :: 0 <= i < |steps[1..]| ==> steps[1..][i] == steps[i + 1];
      LeaseIsKept(next, steps[1..], token);
    }
  }

  lemma {:induction false} ClockRuns(world: World, steps: seq<Step>)
    requires Legal(world, steps)
    ensures world.now <= After(world, steps).now
    decreases |steps|
  {
    if steps != [] {
      ClockRuns(Apply(world, steps[0]), steps[1..]);
    }
  }

  /** Exactly when an attempt succeeds: when the key is not there, from the end of its time
      on too, and when Redis is down. A lease writes the key for the time asked for;
      an outage, and a key that is there, leave it alone. */
  lemma AttemptSucceedsExactly(world: World, token: Token, ttl: nat, up: bool)
    requires Enabled(world, TryAcquire(token, ttl, up))
    ensures var now := Apply(world, TryAcquire(token, ttl, up));
            var free := world.key.None? || world.key.value.expires <= world.now;
            && (token in now.grants <==> !up || free)
            && (up && free ==> now.key == Some(Entry(token, world.now + ttl)))
            && (up && free ==> now.grants[token] == Leased(world.now + ttl))
            && (!up || !free ==> now.key == world.key) && (!up ==> now.grants[token] == Unguarded)
  {
  }

  /** Once its owner has released it, a lock is there for the next one: without another
      attempt in between a waiting object acquires it at once, under a lease of its own,
      however long the first one had left. */
  lemma ReleasedIsFree(world: World, owner: Token, next: Token, ttl: nat)
    requires OwnedBy(world, owner) && owner in world.grants && next !in world.grants && next != owner && ttl > 0
    ensures Enabled(world, Release(owner, true))
    ensures var released := Apply(world, Release(owner, true));
            && !Live(released) && owner !in released.grants
            && Enabled(released, TryAcquire(next, ttl, true))
            && OwnedBy(Apply(released, TryAcquire(next, ttl, true)), next)
            && Apply(released, TryAcquire(next, ttl, true)).grants[next] == Leased(world.now + ttl)
  {
  }

  // ------------------------------------------------------------ acquiring

  datatype Reply = WasSet | WasTaken | Unreachable

  /** One turn of the loop: what Redis replied, and the time when the loop looks at the clock. */
  datatype Attempt = Attempt(reply: Reply, time: int)

  /** The turn after which `acquire` returns. */
  predicate Decides(attempt: Attempt, blocking: bool, deadline: int) {
    attempt.reply != WasTaken || !blocking || attempt.time >= deadline
  }

  /** `acquire`: retried until it is settled. It fails only on a key that is taken, and
      when it waits, only once the deadline has passed. */
  method Acquire(attempts: seq<Attempt>, blocking: bool, deadline: int) returns (acquired: bool, turns: nat)
    requires exists i :: 0 <= i < |attempts| && Decides(attempts[i], blocking, deadline)
    ensures 0 < turns <= |attempts| && (turns > 1 ==> blocking)
    ensures forall i :: 0 <= i < turns - 1 ==> attempts[i].reply == WasTaken && attempts[i].time < deadline
    ensures acquired <==> attempts[turns - 1].reply != WasTaken
    ensures !acquired && blocking ==> attempts[turns - 1].time >= deadline
  {
    turns := 0;
    while true
      invariant turns < |attempts| && exists i :: turns <= i < |attempts| && Decides(attempts[i], blocking, deadline)
      invariant turns > 0 ==> blocking
      invariant forall i :: 0 <= i < turns ==> attempts[i].reply == WasTaken && attempts[i].time < deadline
      decreases |attempts| - turns
    {
      var attempt := attempts[turns];
      turns := turns + 1;
      if attempt.reply == Unreachable {
        return true, turns;
      }
      if attempt.reply == WasSet {
        return true, turns;
      }
      if !blocking || attempt.time >= deadline {
        return false, turns;
      }
    }
  }
}
