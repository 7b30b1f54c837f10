/**
 The sliding-window limiter of exchange attempts per Pod identity. The limiter keeps a pruned and
 evicted map; the model carries the full history beside it and proves that nothing was lost.
 Times are nanoseconds.
 */
module RateLimiter {
  import opened Prelude

  const SECOND := 1_000_000_000
  const MAXIMUM_TRACKED := 16384

  // ----- Histories -----

  predicate Sorted(h: seq<int>)
  {
    forall i, j :: 0 <= i < j < |h| ==> h[i] <= h[j]
  }

  /** What is left of a history after dropping its head up to and including `cutoff`. */
  function Prune(h: seq<int>, cutoff: int): seq<int>
  {
    if h == [] || h[0] > cutoff then h else Prune(h[1..], cutoff)
  }

  lemma {:induction false} PruneHead(h: seq<int>, cutoff: int)
    ensures Prune(h, cutoff) == [] || Prune(h, cutoff)[0] > cutoff
    decreases |h|
  {
    if h != [] && h[0] <= cutoff {
      PruneHead(h[1..], cutoff);
    }
  }

  lemma {:induction false} PruneTwice(h: seq<int>, c: int, d: int)
    requires c <= d
    ensures Prune(Prune(h, c), d) == Prune(h, d)
    decreases |h|
  {
    if h != [] && h[0] <= c {
      PruneTwice(h[1..], c, d);
    }
  }

  /** Pruning a sorted history keeps exactly the attempts after the cutoff. */
  lemma {:induction false} PruneSplits(h: seq<int>, cutoff: int) returns (k: nat)
    requires Sorted(h)
    ensures k <= |h| && Prune(h, cutoff) == h[k..]
    ensures forall i :: 0 <= i < k ==> h[i] <= cutoff
    ensures forall i :: k <= i < |h| ==> h[i] > cutoff
    decreases |h|
  {
    if h == [] || h[0] > cutoff {
      k := 0;
    } else {
      var rest := PruneSplits(h[1..], cutoff);
      k := rest + 1;
      assert h[1..][rest..] == h[k..];
      forall i | k <= i < |h|
        ensures h[i] > cutoff
      {
        assert h[i] == h[1..][i - 1];
      }
    }
  }

  lemma {:induction false} PruneAppend(h: seq<int>, now: int, cutoff: int)
    requires cutoff < now
    ensures Prune(h + [now], cutoff) == Prune(h, cutoff) + [now]
    decreases |h|
  {
    if h != [] && h[0] <= cutoff {
      PruneAppend(h[1..], now, cutoff);
      assert (h + [now])[1..] == h[1..] + [now];
    }
  }

  lemma PruneFewer(h: seq<int>, c: int, d: int)
    requires Sorted(h) && c <= d
    ensures |Prune(h, d)| <= |Prune(h, c)|
  {
    var k := PruneSplits(h, c);
    var m := PruneSplits(h, d);
  }

  /** `pruneAttempts`. */
  method PruneAttempts(attempts: seq<int>, cutoff: int) returns (recent: seq<int>)
    ensures recent == Prune(attempts, cutoff)
  {
    var index := 0;
    while index < |attempts| && attempts[index] <= cutoff
      invariant 0 <= index <= |attempts|
      invariant Prune(attempts[index..], cutoff) == Prune(attempts, cutoff)
    {
      assert attempts[index..][1..] == attempts[index + 1..];
      index := index + 1;
    }
    recent := attempts[index..];
  }

  /** `retrySeconds`: the least whole number of seconds, at least one, that covers the wait. */
  function RetrySeconds(wait: int): (r: int)
    requires wait >= 0
    ensures r >= 1 && r * SECOND >= wait && (r > 1 ==> (r - 1) * SECOND < wait)
  {
    var seconds := (wait + SECOND - 1) / SECOND;
    if seconds < 1 then 1 else seconds
  }

  // ----- The limiter that keeps everything -----

  function Of(h: map<string, seq<int>>, key: string): seq<int>
  {
    if key in h then h[key] else []
  }

  /** Allowed attempts of a key in the window that ends now. */
  function Recent(h: map<string, seq<int>>, key: string, window: int, now: int): seq<int>
  {
    Prune(Of(h, key), now - window)
  }

  /** Identities with an allowed attempt in the window. */
  function Live(h: map<string, seq<int>>, window: int, now: int): set<string>
  {
    set key | key in h && Recent(h, key, window, now) != []
  }

  predicate Full(h: map<string, seq<int>>, key: string, window: int, maxEntries: nat, now: int)
  {
    Recent(h, key, window, now) == [] && |Live(h, window, now)| >= maxEntries
  }

  /** The limiter without pruning: fewer than `limit` allowed attempts in the window, and room for the identity. */
  predicate Allowed(h: map<string, seq<int>>, key: string, limit: int, window: int, maxEntries: nat, now: int)
  {
    !Full(h, key, window, maxEntries, now) && |Recent(h, key, window, now)| < limit
  }

  /** Any `limit + 1` consecutive allowed attempts span at least the window. */
  ghost predicate Spaced(h: seq<int>, limit: int, window: int)
  {
    forall i, j :: 0 <= i <= j < |h| && j == i + limit ==> h[j] - h[i] >= window
  }

  /** The allowed attempts in the half-open window that ends at `t`. */
  function InWindow(h: seq<int>, window: int, t: int): set<int>
  {
    set i | 0 <= i < |h| && t - window < h[i] <= t
  }

  function Interval(lo: int, n: nat): (r: set<int>)
    ensures |r| == n && forall i :: i in r <==> lo <= i < lo + n
  {
    if n == 0 then {} else Interval(lo, n - 1) + {lo + n - 1}
  }

  lemma SpacedFar(h: seq<int>, limit: nat, window: int, i: nat, j: nat)
    requires Sorted(h) && Spaced(h, limit, window) && i + limit <= j < |h|
    ensures h[j] - h[i] >= window
  {
    assert h[i + limit] <= h[j];
  }

  /** No window, wherever it ends, ever holds more than `limit` allowed attempts. */
  lemma WindowBound(h: seq<int>, limit: nat, window: int, t: int)
    requires Sorted(h) && Spaced(h, limit, window)
    ensures |InWindow(h, window, t)| <= limit
  {
    var inside := InWindow(h, window, t);
    var k := PruneSplits(h, t - window);
    var interval := Interval(k, limit);
    forall i | i in inside
      ensures i in interval
    {
      if i >= k + limit {
        SpacedFar(h, limit, window, k, i);
      }
    }
    assert interval == inside + (interval - inside);
  }

  /** Appending an attempt that the window admits keeps histories spaced. */
  lemma AppendSpaced(h: seq<int>, limit: nat, window: int, now: int)
    requires Sorted(h) && Spaced(h, limit, window) && (forall i :: 0 <= i < |h| ==> h[i] <= now)
    requires |Prune(h, now - window)| < limit
    ensures Sorted(h + [now]) && Spaced(h + [now], limit, window)
  {
    var more := h + [now];
    var k := PruneSplits(h, now - window);
    forall i, j | 0 <= i <= j < |more| && j == i + limit
      ensures more[j] - more[i] >= window
    {
      if j < |h| {
        assert h[j] - h[i] >= window;
      } else {
        assert i < k;
      }
    }
  }

  /** After a refusal the window admits the identity again once the oldest counted attempt has left it, and not before. */
  lemma HintExact(h: seq<int>, limit: nat, window: int, now: int, later: int)
    requires Sorted(h) && limit >= 1 && now <= later && |Prune(h, now - window)| == limit
    ensures |Prune(h, later - window)| < limit <==> later >= Prune(h, now - window)[0] + window
  {
    var k := PruneSplits(h, now - window);
    var m := PruneSplits(h, later - window);
    assert h[k..][0] == h[k];
  }

  lemma LiveShrinks(h: map<string, seq<int>>, window: int, now: int, later: int)
    requires now <= later && forall key :: key in h ==> Sorted(h[key])
    ensures Live(h, window, later) <= Live(h, window, now)
  {
    forall key | key in Live(h, window, later)
      ensures key in Live(h, window, now)
    {
      PruneFewer(h[key], now - window, later - window);
    }
  }

  lemma RecentLater(attempts: map<string, seq<int>>, h: map<string, seq<int>>, key: string, window: int, clock: int, now: int)
    requires clock <= now && Prune(Of(attempts, key), clock - window) == Recent(h, key, window, clock)
    ensures Prune(Of(attempts, key), now - window) == Recent(h, key, window, now)
  {
    PruneTwice(Of(attempts, key), clock - window, now - window);
    PruneTwice(Of(h, key), clock - window, now - window);
  }

  lemma EvictedIsLive(attempts: map<string, seq<int>>, h: map<string, seq<int>>, window: int, now: int)
    requires forall key :: key in attempts ==> key in h
    requires Agree(attempts, h, window, now)
    ensures forall key :: key in Live(h, window, now) <==> key in attempts && Prune(attempts[key], now - window) != []
  {
    forall key
      ensures key in Live(h, window, now) <==> key in attempts && Prune(attempts[key], now - window) != []
    {
      assert Prune(Of(attempts, key), now - window) == Recent(h, key, window, now);
    }
  }

  lemma RecentAtMost(h: seq<int>, limit: nat, window: int, now: int)
    requires Sorted(h) && Spaced(h, limit, window) && forall i :: 0 <= i < |h| ==> h[i] <= now
    ensures |Prune(h, now - window)| <= limit
  {
    var k := PruneSplits(h, now - window);
    if |h| - k > limit {
      SpacedFar(h, limit, window, k, k + limit);
    }
  }

  ghost predicate GoodHistory(h: map<string, seq<int>>, limit: int, window: int, clock: int)
  {
    && (forall key :: key in h ==> Sorted(h[key]) && Spaced(h[key], limit, window))
    && (forall key, i :: key in h && 0 <= i < |h[key]| ==> h[key][i] <= clock)
  }

  /** The hinted second is the first at which a retry with no call in between succeeds. */
  lemma HintAllows(h: map<string, seq<int>>, key: string, limit: nat, window: int, maxEntries: nat, now: int, later: int)
    requires GoodHistory(h, limit, window, now) && limit >= 1 && now <= later
    requires |Recent(h, key, window, now)| >= limit && |Live(h, window, now)| <= maxEntries
    ensures Allowed(h, key, limit, window, maxEntries, later) <==> later >= Recent(h, key, window, now)[0] + window
  {
    RecentAtMost(h[key], limit, window, now);
    HintExact(h[key], limit, window, now, later);
    LiveShrinks(h, window, now, later);
    assert key in Live(h, window, now);
    if Recent(h, key, window, later) == [] {
      SubsetSize(Live(h, window, later), Live(h, window, now) - {key});
    }
  }

  lemma LiveAreTracked(attempts: map<string, seq<int>>, h: map<string, seq<int>>, window: int, now: int)
    requires forall key :: key in attempts ==> key in h
    requires Agree(attempts, h, window, now)
    ensures |Live(h, window, now)| <= |attempts|
  {
    EvictedIsLive(attempts, h, window, now);
    SubsetSize(Live(h, window, now), attempts.Keys);
  }

  // ----- The pruned map against the full history -----

  /** Pruning and eviction lost only attempts that are outside the window for good. */
  ghost predicate Tracks(attempts: map<string, seq<int>>, h: map<string, seq<int>>, limit: int, window: int, maxEntries: nat, clock: int)
  {
    && GoodHistory(h, limit, window, clock)
    && (forall key :: key in attempts ==> key in h)
    && Agree(attempts, h, window, clock)
    && |attempts| <= maxEntries
  }

  ghost predicate Agree(attempts: map<string, seq<int>>, h: map<string, seq<int>>, window: int, now: int)
  {
    forall key :: Prune(Of(attempts, key), now - window) == Recent(h, key, window, now)
  }

  lemma AgreeUpdated(attempts: map<string, seq<int>>, h: map<string, seq<int>>, window: int, now: int, key: string, a: seq<int>, b: seq<int>)
    requires Agree(attempts, h, window, now) && Prune(a, now - window) == Prune(b, now - window)
    ensures Agree(attempts[key := a], h[key := b], window, now)
  {
    var attempts', h' := attempts[key := a], h[key := b];
    forall other
      ensures Prune(Of(attempts', other), now - window) == Recent(h', other, window, now)
    {
      assert Prune(Of(attempts, other), now - window) == Recent(h, other, window, now);
    }
  }

  lemma TrackedIfRecent(attempts: map<string, seq<int>>, h: map<string, seq<int>>, window: int, now: int, key: string)
    requires Agree(attempts, h, window, now) && Recent(h, key, window, now) != []
    ensures key in attempts && key in h
  {
    assert Prune(Of(attempts, key), now - window) == Recent(h, key, window, now);
  }

  lemma TracksLater(attempts: map<string, seq<int>>, h: map<string, seq<int>>, limit: int, window: int, maxEntries: nat, clock: int, now: int)
    requires Tracks(attempts, h, limit, window, maxEntries, clock) && clock <= now
    ensures Tracks(attempts, h, limit, window, maxEntries, now)
  {
    forall key
      ensures Prune(Of(attempts, key), now - window) == Recent(h, key, window, now)
    {
      RecentLater(attempts, h, key, window, clock, now);
    }
  }

  function Evicted(attempts: map<string, seq<int>>, cutoff: int): map<string, seq<int>>
  {
    map key | key in attempts && Prune(attempts[key], cutoff) != [] :: Prune(attempts[key], cutoff)
  }

  /** Eviction leaves exactly the live identities. */
  lemma EvictedTracks(attempts: map<string, seq<int>>, h: map<string, seq<int>>, limit: int, window: int, maxEntries: nat, now: int)
    requires Tracks(attempts, h, limit, window, maxEntries, now)
    ensures Evicted(attempts, now - window).Keys == Live(h, window, now)
    ensures Tracks(Evicted(attempts, now - window), h, limit, window, maxEntries, now)
  {
    var after := Evicted(attempts, now - window);
    EvictedIsLive(attempts, h, window, now);
    SubsetSize(after.Keys, attempts.Keys);
    forall key
      ensures Prune(Of(after, key), now - window) == Recent(h, key, window, now)
    {
      PruneTwice(Of(attempts, key), now - window, now - window);
    }
  }

  lemma DroppedTracks(attempts: map<string, seq<int>>, h: map<string, seq<int>>, limit: int, window: int, maxEntries: nat, now: int, key: string)
    requires Tracks(attempts, h, limit, window, maxEntries, now) && Recent(h, key, window, now) == []
    ensures Tracks(attempts - {key}, h, limit, window, maxEntries, now)
  {
    var after := attempts - {key};
    SubsetSize(after.Keys, attempts.Keys);
    forall other
      ensures Prune(Of(after, other), now - window) == Recent(h, other, window, now)
    {
      assert Prune(Of(attempts, other), now - window) == Recent(h, other, window, now);
    }
  }

  lemma RefusedTracks(attempts: map<string, seq<int>>, h: map<string, seq<int>>, limit: int, window: int, maxEntries: nat, now: int, key: string)
    requires Tracks(attempts, h, limit, window, maxEntries, now) && Recent(h, key, window, now) != []
    ensures Tracks(attempts[key := Recent(h, key, window, now)], h, limit, window, maxEntries, now)
  {
    var recent := Recent(h, key, window, now);
    TrackedIfRecent(attempts, h, window, now, key);
    PruneTwice(h[key], now - window, now - window);
    AgreeUpdated(attempts, h, window, now, key, recent, h[key]);
    assert h[key := h[key]] == h && attempts[key := recent].Keys == attempts.Keys;
    assert |attempts[key := recent].Keys| == |attempts.Keys|;
  }

  lemma AppendGood(h: map<string, seq<int>>, limit: nat, window: int, now: int, key: string)
    requires GoodHistory(h, limit, window, now) && |Recent(h, key, window, now)| < limit
    ensures GoodHistory(h[key := Of(h, key) + [now]], limit, window, now)
  {
    AppendSpaced(Of(h, key), limit, window, now);
  }

  lemma AllowedTracks(attempts: map<string, seq<int>>, h: map<string, seq<int>>, limit: nat, window: int, maxEntries: nat, now: int, key: string)
    requires Tracks(attempts, h, limit, window, maxEntries, now) && window > 0
    requires |Recent(h, key, window, now)| < limit && (key in attempts || |attempts| < maxEntries)
    ensures Tracks(attempts[key := Recent(h, key, window, now) + [now]], h[key := Of(h, key) + [now]], limit, window, maxEntries, now)
  {
    var recent, all, cutoff := Recent(h, key, window, now), Of(h, key), now - window;
    AppendGood(h, limit, window, now, key);
    PruneAppend(all, now, cutoff);
    PruneAppend(recent, now, cutoff);
    PruneTwice(all, cutoff, cutoff);
    AgreeUpdated(attempts, h, window, now, key, recent + [now], all + [now]);
    var after := attempts[key := recent + [now]];
    assert after.Keys == attempts.Keys + {key};
    assert |after.Keys| <= maxEntries;
  }

  /** The loop of `evictExpired`. */
  method KeepRecent(attempts: map<string, seq<int>>, cutoff: int) returns (kept: map<string, seq<int>>)
    ensures kept == Evicted(attempts, cutoff)
  {
    kept := attempts;
    var todo := attempts.Keys;
    while todo != {}
      invariant todo <= attempts.Keys
      invariant kept == map key | key in attempts && (key in todo || Prune(attempts[key], cutoff) != []) ::
                          if key in todo then attempts[key] else Prune(attempts[key], cutoff)
    {
      var key :| key in todo;
      var recent := PruneAttempts(attempts[key], cutoff);
      kept := if recent == [] then kept - {key} else kept[key := recent];
      todo := todo - {key};
    }
  }

  // ----- The limiter -----

  class IdentityRateLimiter {
    const limit: int
    const window: int
    const maxEntries: nat
    var attempts: map<string, seq<int>>
    ghost var history: map<string, seq<int>>  // every allowed attempt
    ghost var clock: int                      // time of the last call

    constructor (limit: int, window: int, ghost now: int)
      ensures Valid() && this.limit == limit && this.window == window && maxEntries == MAXIMUM_TRACKED
      ensures attempts == map[] && history == map[] && clock == now
    {
      this.limit, this.window, maxEntries := limit, window, MAXIMUM_TRACKED;
      attempts := map[];
      history, clock := map[], now;
    }

    ghost predicate Valid()
      reads this
    {
      Tracks(attempts, history, limit, window, maxEntries, clock)
    }

    ghost predicate Configured()
    {
      limit >= 1 && window > 0
    }

    /** `evictExpired`: what is left is exactly the live identities with their recent attempts. */
    method EvictExpired(now: int)
      requires Valid() && clock == now
      modifies this`attempts
      ensures Valid() && attempts == Evicted(old(attempts), now - window) && attempts.Keys == Live(history, window, now)
    {
      var kept := KeepRecent(attempts, now - window);
      EvictedTracks(attempts, history, limit, window, maxEntries, now);
      attempts := kept;
    }

    /** Drop the identity, and the expired ones if the map is full; is there room now? */
    method MakeRoom(key: string, now: int) returns (room: bool)
      requires Valid() && clock == now && Recent(history, key, window, now) == []
      modifies this`attempts
      ensures Valid() && room == !Full(history, key, window, maxEntries, now)
      ensures room ==> |attempts| < maxEntries
    {
      DroppedTracks(attempts, history, limit, window, maxEntries, now, key);
      attempts := attempts - {key};
      LiveAreTracked(attempts, history, window, now);
      if |attempts| >= maxEntries {
        EvictExpired(now);
        assert |attempts| == |attempts.Keys|;
      }
      room := |attempts| < maxEntries;
    }

    method Refuse(key: string, recent: seq<int>, now: int) returns (retry: int)
      requires Valid() && clock == now && Configured() && recent == Recent(history, key, window, now) && |recent| >= limit
      modifies this`attempts
      ensures Valid() && retry >= 1
      ensures Allowed(history, key, limit, window, maxEntries, now + retry * SECOND)
      ensures retry > 1 ==> !Allowed(history, key, limit, window, maxEntries, now + (retry - 1) * SECOND)
    {
      LiveAreTracked(attempts, history, window, now);
      RefusedTracks(attempts, history, limit, window, maxEntries, now, key);
      PruneHead(Of(history, key), now - window);
      attempts := attempts[key := recent];
      retry := RetrySeconds(recent[0] + window - now);
      Hinted(history, key, limit, window, maxEntries, now, retry);
    }

    method Record(key: string, recent: seq<int>, now: int)
      requires Valid() && clock == now && Configured() && recent == Recent(history, key, window, now) && |recent| < limit
      requires key in attempts || |attempts| < maxEntries
      modifies this`attempts, this`history
      ensures Valid() && history == old(history)[key := Of(old(history), key) + [now]]
    {
      AllowedTracks(attempts, history, limit, window, maxEntries, now, key);
      attempts := attempts[key := recent + [now]];
      history := history[key := Of(history, key) + [now]];
    }

    method Tick(key: string, now: int) returns (recent: seq<int>)
      requires Valid() && clock <= now
      modifies this`clock
      ensures Valid() && clock == now && recent == Recent(history, key, window, now)
      ensures recent != [] ==> key in attempts
    {
      TracksLater(attempts, history, limit, window, maxEntries, clock, now);
      clock := now;
      recent := PruneAttempts(Of(attempts, key), now - window);
    }

    /** `Allow`. The pruned limiter gives the answer of the one that keeps everything. */
    method Allow(key: string, now: int) returns (ok: bool, retry: int)
      requires Valid() && clock <= now
      modifies this
      ensures Valid()
      ensures !Configured() ==> !ok && retry == 1 && history == old(history) && clock == old(clock)
      ensures Configured() ==>
                && clock == now
                && ok == Allowed(old(history), key, limit, window, maxEntries, now)
                && history == if ok then old(history)[key := Of(old(history), key) + [now]] else old(history)
      ensures Configured() && !ok && !Full(old(history), key, window, maxEntries, now) ==>
                && retry >= 1
                && Allowed(history, key, limit, window, maxEntries, now + retry * SECOND)
                && (retry > 1 ==> !Allowed(history, key, limit, window, maxEntries, now + (retry - 1) * SECOND))
    {
      if limit < 1 || window <= 0 { return false, 1; }
      var recent := Tick(key, now);
      if recent == [] {
        var room := MakeRoom(key, now);
        if !room { return false, RetrySeconds(window); }
      }
      if |recent| >= limit {
        retry := Refuse(key, recent, now);
        return false, retry;
      }
      Record(key, recent, now);
      return true, 0;
    }
  }

  lemma Hinted(h: map<string, seq<int>>, key: string, limit: nat, window: int, maxEntries: nat, now: int, retry: int)
    requires GoodHistory(h, limit, window, now) && limit >= 1
    requires |Recent(h, key, window, now)| >= limit && |Live(h, window, now)| <= maxEntries
    requires retry >= 1 && retry * SECOND >= Recent(h, key, window, now)[0] + window - now
    requires retry > 1 ==> (retry - 1) * SECOND < Recent(h, key, window, now)[0] + window - now
    ensures Allowed(h, key, limit, window, maxEntries, now + retry * SECOND)
    ensures retry > 1 ==> !Allowed(h, key, limit, window, maxEntries, now + (retry - 1) * SECOND)
  {
    HintAllows(h, key, limit, window, maxEntries, now, now + retry * SECOND);
    if retry > 1 {
      HintAllows(h, key, limit, window, maxEntries, now, now + (retry - 1) * SECOND);
    }
  }
}
