/** The fixed-window limiter (`rate_limit` in app/core/redis.py): a counter that expires
    a window after its first increment. */
module RateLimit {
  import opened Wrappers

  /** The counter while it is set. */
  datatype Counter = Counter(count: nat, expires: int)

  predicate Live(key: Option<Counter>, now: int) {
    key.Some? && now < key.value.expires
  }

  /** The script: increment, and start the window on the first increment. */
  function Increment(key: Option<Counter>, now: int, window: nat): Counter {
    if Live(key, now) then Counter(key.value.count + 1, key.value.expires) else Counter(1, now + window)
  }

  /** The moments at which requests arrive, in order. */
  predicate InOrder(times: seq<int>) {
    forall i, j :: 0 <= i < j < |times| ==> times[i] <= times[j]
  }

  /** How many of the requests that arrive in [from, from + window) are allowed. */
  function AllowedIn(key: Option<Counter>, times: seq<int>, limit: nat, window: nat, from: int): nat
    decreases |times|
  {
    if times == [] then 0 else
      var counter := Increment(key, times[0], window);
      (if from <= times[0] < from + window && counter.count <= limit then 1 else 0)
      + AllowedIn(Some(counter), times[1..], limit, window, from)
  }

  function ArrivalsIn(times: seq<int>, window: nat, from: int): nat
    decreases |times|
  {
    if times == [] then 0
    else (if from <= times[0] < from + window then 1 else 0) + ArrivalsIn(times[1..], window, from)
  }

  /** What the running window still allows. */
  function Left(count: nat, limit: nat): nat {
    if count < limit then limit - count else 0
  }

  function Min(a: nat, b: nat): nat {
    if a < b then a else b
  }

  lemma {:induction false} NothingLater(key: Option<Counter>, times: seq<int>, limit: nat, window: nat, from: int)
    requires InOrder(times) && (times != [] ==> times[0] >= from + window)
    ensures AllowedIn(key, times, limit, window, from) == 0 && ArrivalsIn(times, window, from) == 0
    decreases |times|
  {
    if times != [] {
      Tail(times);
      NothingLater(Some(Increment(key, times[0], window)), times[1..], limit, window, from);
    }
  }

  lemma Tail(times: seq<int>)
    requires times != [] && InOrder(times)
    ensures InOrder(times[1..]) && (times[1..] != [] ==> times[0] <= times[1..][0])
  {
    assert forall i :: 0 <= i < |times[1..]| ==> times[1..][i] == times[i + 1];
  }

  /** Inside one running window the first requests up to the limit are allowed, no others. */
  lemma {:induction false} OneWindow(counter: Counter, times: seq<int>, limit: nat, window: nat, from: int)
    requires InOrder(times) && counter.expires >= from + window && (times != [] ==> from <= times[0])
    ensures AllowedIn(Some(counter), times, limit, window, from)
         == Min(Left(counter.count, limit), ArrivalsIn(times, window, from))
    decreases |times|
  {
    if times != [] {
      Tail(times);
      if times[0] < from + window {
        OneWindow(Counter(counter.count + 1, counter.expires), times[1..], limit, window, from);
      } else {
        NothingLater(Some(counter), times, limit, window, from);
      }
    }
  }

  /** A window lets exactly min(limit, arrivals) requests through, however they arrive. */
  lemma WindowAllowsTheLimit(key: Option<Counter>, times: seq<int>, limit: nat, window: nat)
    requires InOrder(times) && times != [] && !Live(key, times[0]) && 0 < window
    ensures AllowedIn(key, times, limit, window, times[0]) == Min(limit, ArrivalsIn(times, window, times[0]))
  {
    Tail(times);
    OneWindow(Counter(1, times[0] + window), times[1..], limit, window, times[0]);
  }

  lemma {:induction false} FromHereOn(key: Option<Counter>, times: seq<int>, limit: nat, window: nat, from: int)
    requires InOrder(times) && (times != [] ==> from <= times[0])
    ensures AllowedIn(key, times, limit, window, from)
         <= limit + if key.Some? then Left(key.value.count, limit) else 0
    decreases |times|
  {
    if times != [] {
      Tail(times);
      var counter := Increment(key, times[0], window);
      if times[0] >= from + window {
        NothingLater(key, times, limit, window, from);
      } else if Live(key, times[0]) {
        FromHereOn(Some(counter), times[1..], limit, window, from);
      } else {
        OneWindow(counter, times[1..], limit, window, from);
      }
    }
  }

  /** No interval of the length of a window, wherever it starts, lets twice the limit
      through: the request that opened the earlier of its two windows is not in it. */
  lemma {:induction false} LessThanTwiceTheLimit(key: Option<Counter>, times: seq<int>,
                                                 limit: nat, window: nat, from: int)
    requires InOrder(times) && limit > 0 && (key.Some? ==> key.value.count > 0)
    ensures AllowedIn(key, times, limit, window, from) < 2 * limit
    decreases |times|
  {
    if times != [] && times[0] < from {
      Tail(times);
      LessThanTwiceTheLimit(Some(Increment(key, times[0], window)), times[1..], limit, window, from);
    } else {
      FromHereOn(key, times, limit, window, from);
    }
  }

  // ---------------------------------------------------- the bound is met

  function Repeat(time: int, n: nat): (times: seq<int>)
    ensures |times| == n && forall i :: 0 <= i < n ==> times[i] == time
  {
    if n == 0 then [] else [time] + Repeat(time, n - 1)
  }

  /** One request opens the window, the rest of it and the whole of the next arrive around its end. */
  function Burst(limit: nat, window: nat): seq<int>
    requires limit > 0
  {
    [0] + (Repeat(window - 1, limit - 1) + Repeat(window, limit))
  }

  lemma {:induction false} AllArrive(times: seq<int>, window: nat, from: int)
    requires forall i :: 0 <= i < |times| ==> from <= times[i] < from + window
    ensures ArrivalsIn(times, window, from) == |times|
    decreases |times|
  {
    if times != [] {
      assert forall i :: 0 <= i < |times[1..]| ==> times[1..][i] == times[i + 1];
      AllArrive(times[1..], window, from);
    }
  }

  lemma {:induction false} FirstHalf(count: nat, n: nat, rest: seq<int>, limit: nat, window: nat, from: int)
    requires count + n <= limit && 0 < window && from <= window - 1 < from + window
    ensures AllowedIn(Some(Counter(count, window)), Repeat(window - 1, n) + rest, limit, window, from)
         == n + AllowedIn(Some(Counter(count + n, window)), rest, limit, window, from)
    decreases n
  {
    if n == 0 {
      assert Repeat(window - 1, 0) + rest == rest;
    } else {
      assert (Repeat(window - 1, n) + rest)[1..] == Repeat(window - 1, n - 1) + rest;
      FirstHalf(count + 1, n - 1, rest, limit, window, from);
    }
  }

  /** The bound is met for every limit: 2 * limit - 1 requests around the end of a window
      are all allowed. */
  lemma BurstIsAllowed(limit: nat, window: nat)
    requires limit > 0 && window >= 2
    ensures InOrder(Burst(limit, window))
    ensures AllowedIn(None, Burst(limit, window), limit, window, window - 1) == 2 * limit - 1
  {
    BurstInOrder(limit, window);
    var rest := Repeat(window - 1, limit - 1) + Repeat(window, limit);
    assert Burst(limit, window)[0] == 0 && Burst(limit, window)[1..] == rest;
    assert Increment(None, 0, window) == Counter(1, window);
    FirstHalf(1, limit - 1, Repeat(window, limit), limit, window, window - 1);
    SecondHalf(Repeat(window, limit), limit, window);
  }

  lemma BurstInOrder(limit: nat, window: nat)
    requires limit > 0 && window >= 2
    ensures InOrder(Burst(limit, window))
  {
    var times := Burst(limit, window);
    assert forall i :: 0 <= i < |times| ==> times[i] == if i == 0 then 0 else if i < limit then window - 1 else window;
  }

  lemma SecondHalf(times: seq<int>, limit: nat, window: nat)
    requires |times| == limit > 0 && window >= 2 && forall i :: 0 <= i < |times| ==> times[i] == window
    ensures AllowedIn(Some(Counter(limit, window)), times, limit, window, window - 1) == limit
  {
    var rest, counter := times[1..], Counter(1, window + window);
    assert Increment(Some(Counter(limit, window)), times[0], window) == counter;
    AllowedTail(rest, counter, limit, window);
  }

  lemma AllowedTail(rest: seq<int>, counter: Counter, limit: nat, window: nat)
    requires |rest| == limit - 1 && window >= 2 && forall i :: 0 <= i < |rest| ==> rest[i] == window
    requires counter == Counter(1, window + window)
    ensures AllowedIn(Some(counter), rest, limit, window, window - 1) == limit - 1
  {
    AllArrive(rest, window, window - 1);
    OneWindow(counter, rest, limit, window, window - 1);
  }

  // ------------------------------------------------------------ the object

  /** The counter as Redis keeps it for one key. */
  class Limiter {
    var key: Option<Counter>
    const limit: nat
    const window: nat

    ghost predicate Valid()
      reads this
    {
      key.Some? ==> key.value.count > 0
    }

    constructor (limit: nat, window: nat)
      ensures this.limit == limit && this.window == window && key == None && Valid()
    {
      this.limit, this.window, key := limit, window, None;
    }

    /** `rate_limit`: a request is let through when Redis cannot be asked. */
    method Call(now: int, up: bool) returns (allowed: bool)
      requires Valid()
      modifies this`key
      ensures Valid()
      ensures key == if up then Some(Increment(old(key), now, window)) else old(key)
      ensures allowed <==> up ==> Increment(old(key), now, window).count <= limit
    {
      if !up {
        return true;
      }
      var count := if Live(key, now) then key.value.count + 1 else 1;
      // The first increment starts the window.
      var expires := if count == 1 then now + window else key.value.expires;
      key := Some(Counter(count, expires));
      return count <= limit;
    }
  }
}
