/**
 * The limit on issued email codes: `issue` calls for one user and purpose, run one
 * after the other. The state is the creation times of the codes that still exist.
 */
module EmailCodeLimit {
  type Time = int

  const RATE_WINDOW_MS: int := 15 * 60 * 1000

  datatype Answer = Sent | RateLimited | DeliveryFailed

  /** count where createdAt >= since. */
  function CountSince(times: seq<Time>, since: Time): nat {
    if times == [] then 0
    else CountSince(times[..|times| - 1], since) + if times[|times| - 1] >= since then 1 else 0
  }

  /** Codes created in the closed window [lo, hi]. */
  function CountBetween(times: seq<Time>, lo: Time, hi: Time): nat {
    if times == [] then 0
    else CountBetween(times[..|times| - 1], lo, hi) + if lo <= times[|times| - 1] <= hi then 1 else 0
  }

  /** The codes, by their places, created from `since` on. */
  function CreatedSince(times: seq<Time>, since: Time): set<nat> { set i | 0 <= i < |times| && times[i] >= since }

  function CreatedWithin(times: seq<Time>, lo: Time, hi: Time): set<nat> {
    set i | 0 <= i < |times| && lo <= times[i] <= hi
  }

  lemma {:induction false} CountSinceIs(times: seq<Time>, since: Time)
    ensures CountSince(times, since) == |CreatedSince(times, since)|
  {
    if times != [] {
      var n := |times| - 1;
      CountSinceIs(times[..n], since);
      assert CreatedSince(times, since) == CreatedSince(times[..n], since) + if times[n] >= since then {n} else {};
    }
  }

  lemma {:induction false} CountBetweenIs(times: seq<Time>, lo: Time, hi: Time)
    ensures CountBetween(times, lo, hi) == |CreatedWithin(times, lo, hi)|
  {
    if times != [] {
      var n := |times| - 1;
      CountBetweenIs(times[..n], lo, hi);
      assert CreatedWithin(times, lo, hi) ==
             CreatedWithin(times[..n], lo, hi) + if lo <= times[n] <= hi then {n} else {};
    }
  }

  predicate Ordered(times: seq<Time>) { forall i, j :: 0 <= i < j < |times| ==> times[i] <= times[j] }

  /** Any max + 1 codes in a row span more than the window. */
  predicate Spread(times: seq<Time>, max: nat) {
    && (max == 0 ==> times == [])
    && forall i :: 0 <= i && i + max < |times| && max > 0 ==> times[i + max] - times[i] > RATE_WINDOW_MS
  }

  lemma {:induction false} CountSinceSuffix(times: seq<Time>, since: Time, k: nat)
    requires Ordered(times) && k < |times| && times[k] >= since
    ensures CountSince(times, since) >= |times| - k
    decreases |times|
  {
    var n := |times| - 1;
    if k < n { CountSinceSuffix(times[..n], since, k); }
  }

  lemma {:induction false} CountBetweenSuffix(times: seq<Time>, lo: Time, hi: Time, k: nat)
    requires Ordered(times) && k <= |times| && (k > 0 ==> times[k - 1] < lo)
    ensures CountBetween(times, lo, hi) <= |times| - k
    decreases |times|
  {
    if times != [] {
      var n := |times| - 1;
      CountBetweenSuffix(times[..n], lo, hi, if k <= n then k else n);
    }
  }

  /** Every closed 15-minute window, wherever it starts, holds at most `max` codes. */
  lemma {:induction false} WindowHolds(times: seq<Time>, max: nat, lo: Time)
    requires Ordered(times) && Spread(times, max)
    ensures |CreatedWithin(times, lo, lo + 900_000)| == CountBetween(times, lo, lo + RATE_WINDOW_MS) <= max
    decreases |times|
  {
    CountBetweenIs(times, lo, lo + RATE_WINDOW_MS);
    if times != [] {
      var n := |times| - 1;
      assert Spread(times[..n], max) by {
        forall i | 0 <= i && i + max < n && max > 0 ensures times[..n][i + max] - times[..n][i] > RATE_WINDOW_MS {
          assert times[i + max] - times[i] > RATE_WINDOW_MS;
        }
      }
      WindowHolds(times[..n], max, lo);
      if n < max {
        CountBetweenSuffix(times, lo, lo + RATE_WINDOW_MS, 0);
      } else if lo <= times[n] <= lo + RATE_WINDOW_MS {
        assert times[(n - max) + max] - times[n - max] > RATE_WINDOW_MS;
        CountBetweenSuffix(times[..n], lo, lo + RATE_WINDOW_MS, n - max + 1);
      }
    }
  }

  lemma EveryWindowHolds(times: seq<Time>, max: nat)
    requires Ordered(times) && Spread(times, max)
    ensures forall lo, hi :: hi == lo + 900_000 ==> |CreatedWithin(times, lo, hi)| <= max
  {
    forall lo, hi | hi == lo + 900_000 ensures |CreatedWithin(times, lo, hi)| <= max { WindowHolds(times, max, lo); }
  }

  class EmailCodeIssuer {
    const maxPer15Min: nat
    var createdAt: seq<Time>   // codes of this user and purpose that still exist, oldest first
    var clock: Time            // when the last call ended

    predicate Valid()
      reads this
    {
      && Ordered(createdAt) && Spread(createdAt, maxPer15Min)
      && (createdAt != [] ==> createdAt[|createdAt| - 1] <= clock)
    }

    constructor (max: nat, now: Time)
      ensures Valid() && createdAt == [] && maxPer15Min == max
    {
      maxPer15Min, createdAt, clock := max, [], now;
    }

    /**
     * `issue`: the count is taken at `checkedAt`, the row is created at `writtenAt`, and a code that could
     * not be delivered is deleted again, unless that fails too and nobody notices. Whatever the answers
     * were, every closed window keeps the limit.
     */
    method Issue(checkedAt: Time, writtenAt: Time, delivered: bool, deleteThrows: bool) returns (answer: Answer)
      requires Valid() && clock <= checkedAt <= writtenAt
      modifies this
      ensures Valid() && clock == writtenAt
      ensures answer.RateLimited? <==> |CreatedSince(old(createdAt), checkedAt - 900_000)| >= maxPer15Min
      ensures answer.Sent? <==> !answer.RateLimited? && delivered
      ensures createdAt == if answer.Sent? || (answer.DeliveryFailed? && deleteThrows)
                           then old(createdAt) + [writtenAt] else old(createdAt)
      ensures forall lo, hi :: hi == lo + 900_000 ==> |CreatedWithin(createdAt, lo, hi)| <= maxPer15Min
    {
      var before := createdAt;
      CountSinceIs(createdAt, checkedAt - RATE_WINDOW_MS);
      var recent := CountSince(createdAt, checkedAt - RATE_WINDOW_MS);
      clock := writtenAt;
      if recent >= maxPer15Min {
        answer := RateLimited;
      } else {
        createdAt := createdAt + [writtenAt];
        NewCodeSpreads(before, maxPer15Min, checkedAt, writtenAt);
        answer := if delivered then Sent else DeliveryFailed;
        if !delivered && !deleteThrows {
          createdAt := createdAt[..|createdAt| - 1];
          assert createdAt == before;
        }
      }
      EveryWindowHolds(createdAt, maxPer15Min);
    }
  }

  lemma NewCodeSpreads(times: seq<Time>, max: nat, checkedAt: Time, writtenAt: Time)
    requires Ordered(times) && Spread(times, max) && checkedAt <= writtenAt
    requires CountSince(times, checkedAt - RATE_WINDOW_MS) < max
    requires times != [] ==> times[|times| - 1] <= writtenAt
    ensures Ordered(times + [writtenAt]) && Spread(times + [writtenAt], max)
  {
    var now := times + [writtenAt];
    forall i | 0 <= i && i + max < |now| ensures now[i + max] - now[i] > RATE_WINDOW_MS {
      if i + max == |times| {
        if times[i] >= checkedAt - RATE_WINDOW_MS { CountSinceSuffix(times, checkedAt - RATE_WINDOW_MS, i); }
      } else {
        assert times[i + max] - times[i] > RATE_WINDOW_MS;
      }
    }
  }
}
