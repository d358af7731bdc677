/**
 * The `rate_limit` decorator: a sliding window of request times per client
 * address.  Each call forgets the times that left the window, then either
 * answers 429 or records the call and lets it through.  The clock reading
 * is an integer parameter.
 */
module RateLimiting {
  /** `RATE_LIMIT_WINDOW`, in seconds. */
  const Window: int := 30
  /** `MAX_REQUESTS_PER_WINDOW` */
  const MaxRequests: nat := 3

  /** What the decorated view answers. */
  datatype Response =
    | TooManyRequests(status: nat, error: string, message: string)
    | Forwarded

  const RejectMessage: string := "Maximum 3 requests per 30 seconds"

  /** `[t for t in times if now - t < RATE_LIMIT_WINDOW]` */
  function Recent(times: seq<int>, now: int): (r: seq<int>)
    ensures |r| <= |times|
    ensures forall t :: multiset(r)[t] == if now - t < Window then multiset(times)[t] else 0
  {
    if |times| == 0 then []
    else
      var init := times[..|times| - 1];
      var last := times[|times| - 1];
      assert times == init + [last];
      Recent(init, now) + (if now - last < Window then [last] else [])
  }

  /** Every kept time is a recorded time inside the window, and every recorded time inside the window is kept. */
  lemma RecentMembers(times: seq<int>, now: int)
    ensures forall k | 0 <= k < |Recent(times, now)| ::
              now - Recent(times, now)[k] < Window && Recent(times, now)[k] in times
    ensures forall t | t in times && now - t < Window :: t in Recent(times, now)
  {
    var r := Recent(times, now);
    forall k | 0 <= k < |r|
      ensures now - r[k] < Window && r[k] in times
    {
      assert multiset(r)[r[k]] > 0;
    }
    forall t | t in times && now - t < Window
      ensures t in r
    {
      assert multiset(times)[t] > 0;
    }
  }

  /** Each time is at most the last one, and so on for every prefix. */
  ghost predicate UpToLast(times: seq<int>)
    decreases |times|
  {
    |times| == 0 ||
    ((forall k | 0 <= k < |times| :: times[k] <= times[|times| - 1]) &&
     UpToLast(times[..|times| - 1]))
  }

  lemma {:induction false} NonDecreasingUpToLast(times: seq<int>)
    requires NonDecreasing(times)
    ensures UpToLast(times)
    decreases |times|
  {
    if |times| > 0 {
      var init := times[..|times| - 1];
      assert forall i, j | 0 <= i < j < |init| :: init[i] == times[i] <= times[j] == init[j];
      NonDecreasingUpToLast(init);
    }
  }

  /**
   * Times recorded by the decorator never decrease, and for such a list
   * pruning keeps a suffix: exactly the latest times, in their order.
   */
  lemma RecentSuffix(times: seq<int>, now: int)
    requires NonDecreasing(times)
    ensures Recent(times, now) == times[|times| - |Recent(times, now)|..]
  {
    NonDecreasingUpToLast(times);
    RecentKeepsSuffix(times, now);
  }

  lemma {:induction false} RecentKeepsSuffix(times: seq<int>, now: int)
    requires UpToLast(times)
    ensures Recent(times, now) == times[|times| - |Recent(times, now)|..]
    decreases |times|
  {
    if |times| > 0 {
      var init := times[..|times| - 1];
      RecentKeepsSuffix(init, now);
      if now - times[|times| - 1] < Window {
        SuffixKept(times, now);
      } else {
        SuffixExpired(times, now);
      }
    }
  }

  /** The step of `RecentKeepsSuffix` when the last time is still inside the window. */
  lemma SuffixKept(times: seq<int>, now: int)
    requires |times| > 0 && now - times[|times| - 1] < Window
    requires Recent(times[..|times| - 1], now) ==
             times[..|times| - 1][|times| - 1 - |Recent(times[..|times| - 1], now)|..]
    ensures Recent(times, now) == times[|times| - |Recent(times, now)|..]
  {
    var init := times[..|times| - 1];
    var r := Recent(init, now);
    var kept := Recent(times, now);
    assert kept == r + [times[|times| - 1]];
    SuffixSnoc(times, |r|);
    assert |times| - |kept| == |times| - |r| - 1;
  }

  /** The step of `RecentKeepsSuffix` when the last time has left the window. */
  lemma SuffixExpired(times: seq<int>, now: int)
    requires |times| > 0 && now - times[|times| - 1] >= Window
    requires UpToLast(times)
    ensures Recent(times, now) == []
  {
    var init := times[..|times| - 1];
    assert forall k | 0 <= k < |init| :: init[k] <= times[|times| - 1];
    RecentAllExpired(init, now);
  }

  lemma SuffixSnoc(s: seq<int>, n: nat)
    requires n < |s|
    ensures s[|s| - n - 1..] == s[..|s| - 1][|s| - 1 - n..] + [s[|s| - 1]]
  {
  }

  /** Nothing is kept when every time has left the window. */
  lemma {:induction false} RecentAllExpired(times: seq<int>, now: int)
    requires forall k | 0 <= k < |times| :: now - times[k] >= Window
    ensures Recent(times, now) == []
    decreases |times|
  {
    if |times| > 0 {
      RecentAllExpired(times[..|times| - 1], now);
    }
  }

  /**
   * One call on an address's list: the list afterwards, and whether the
   * call went through, which it does exactly when fewer than three
   * recorded times are inside the window.  A list of at most three stays
   * so.
   */
  function Step(times: seq<int>, now: int): (r: (seq<int>, bool))
    ensures r.1 <==> |Recent(times, now)| < MaxRequests
    ensures r.0 == Recent(times, now) + (if r.1 then [now] else [])
    ensures |times| <= MaxRequests ==> |r.0| <= MaxRequests
  {
    var pruned := Recent(times, now);
    if |pruned| >= MaxRequests then (pruned, false) else (pruned + [now], true)
  }

  /** Pruning at a later time after pruning at an earlier one is pruning once at the later time. */
  lemma {:induction false} RecentTwice(times: seq<int>, earlier: int, later: int)
    requires earlier <= later
    ensures Recent(Recent(times, earlier), later) == Recent(times, later)
    decreases |times|
  {
    if |times| > 0 {
      var init := times[..|times| - 1];
      var last := times[|times| - 1];
      RecentTwice(init, earlier, later);
      RecentAppend(Recent(init, earlier), if earlier - last < Window then [last] else [], later);
    }
  }

  /** Pruning a concatenation prunes each part. */
  lemma {:induction false} RecentAppend(a: seq<int>, b: seq<int>, now: int)
    ensures Recent(a + b, now) == Recent(a, now) + Recent(b, now)
    decreases |b|
  {
    if |b| == 0 {
      assert a + b == a;
    } else {
      var init := b[..|b| - 1];
      var last := b[|b| - 1];
      assert (a + b)[..|a + b| - 1] == a + init;
      RecentAppend(a, init, now);
    }
  }

  /** How many of `times` fall in the window `[w, w + 30)`. */
  function CountIn(times: seq<int>, w: int): nat {
    if |times| == 0 then 0
    else
      var last := times[|times| - 1];
      CountIn(times[..|times| - 1], w) + (if w <= last < w + Window then 1 else 0)
  }

  /** The times in a window that contains `now` all survive pruning at `now`. */
  lemma {:induction false} WindowSurvives(times: seq<int>, w: int, now: int)
    requires now < w + Window
    ensures CountIn(times, w) <= |Recent(times, now)|
    decreases |times|
  {
    if |times| > 0 {
      WindowSurvives(times[..|times| - 1], w, now);
    }
  }

  /** Every call, in order, on one address's list, which starts absent. */
  function Replay(calls: seq<int>): (r: (seq<int>, seq<int>))
    decreases |calls|
  {
    if |calls| == 0 then ([], [])
    else
      var (stored, accepted) := Replay(calls[..|calls| - 1]);
      var now := calls[|calls| - 1];
      var (after, ok) := Step(stored, now);
      (after, if ok then accepted + [now] else accepted)
  }

  predicate NonDecreasing(calls: seq<int>) {
    forall i, j | 0 <= i < j < |calls| :: calls[i] <= calls[j]
  }

  /** With a clock that never goes back, the list holds exactly the accepted times still inside the window. */
  lemma {:induction false} ReplayStored(calls: seq<int>)
    requires |calls| > 0 && NonDecreasing(calls)
    ensures Replay(calls).0 == Recent(Replay(calls).1, calls[|calls| - 1])
    decreases |calls|
  {
    var init := calls[..|calls| - 1];
    var now := calls[|calls| - 1];
    var (stored, accepted) := Replay(init);
    if |init| > 0 {
      assert NonDecreasing(init);
      ReplayStored(init);
      RecentTwice(accepted, init[|init| - 1], now);
    }
    RecentAppend(accepted, [now], now);
  }

  /**
   * With a clock that never goes back, no window of 30 seconds holds more
   * than three accepted calls from one address.
   */
  lemma {:induction false} AtMostThreePerWindow(calls: seq<int>, w: int)
    requires NonDecreasing(calls)
    ensures CountIn(Replay(calls).1, w) <= MaxRequests
    decreases |calls|
  {
    if |calls| > 0 {
      var init := calls[..|calls| - 1];
      var now := calls[|calls| - 1];
      var (stored, accepted) := Replay(init);
      assert NonDecreasing(init);
      AtMostThreePerWindow(init, w);
      if Step(stored, now).1 && w <= now < w + Window {
        if |init| > 0 {
          ReplayStored(init);
          RecentTwice(accepted, init[|init| - 1], now);
        }
        WindowSurvives(accepted, w, now);
      }
    }
  }

  /** The `request_times` table shared by every decorated view. */
  class RateLimiter {
    var requestTimes: map<string, seq<int>>

    /** No address holds more than three times. */
    ghost predicate Valid()
      reads this
    {
      forall ip | ip in requestTimes :: |requestTimes[ip]| <= MaxRequests
    }

    /** `request_times.get(ip, [])` */
    function Times(ip: string): seq<int>
      reads this
    {
      if ip in requestTimes then requestTimes[ip] else []
    }

    constructor ()
      ensures requestTimes == map[] && Valid()
    {
      requestTimes := map[];
    }

    /**
     * `decorated_function` for a call from `ip` at `now`: the address's
     * list is pruned (and created when missing), then the call is refused
     * with 429 when three times remain, and recorded otherwise.  Other
     * addresses' lists do not change.
     */
    method Handle(ip: string, now: int) returns (response: Response)
      requires Valid()
      modifies this
      ensures Valid()
      ensures requestTimes == old(requestTimes)[ip := Step(old(Times(ip)), now).0]
      ensures response.Forwarded? <==> Step(old(Times(ip)), now).1
      ensures response.TooManyRequests? ==> response.status == 429 && response.message == RejectMessage
    {
      requestTimes := requestTimes[ip := Recent(Times(ip), now)];
      if |requestTimes[ip]| >= MaxRequests {
        return TooManyRequests(429, "Rate limit exceeded", RejectMessage);
      }
      requestTimes := requestTimes[ip := requestTimes[ip] + [now]];
      response := Forwarded;
    }
  }
}
