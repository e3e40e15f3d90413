/** The token bucket that limits events and requests of a session. */
module RateLimiter {
  /** Tokens are whole; `rate` is tokens per millisecond. */
  datatype Bucket = Bucket(tokens: int, last: int, capacity: nat, rate: real)

  predicate Sound(b: Bucket) {
    0 <= b.tokens <= b.capacity && b.rate >= 0.0
  }

  /** Whole tokens earned over some milliseconds; the fraction is lost. */
  function Earned(rate: real, elapsed: int): int {
    (elapsed as real * rate).Floor
  }

  function Min(a: int, b: int): int {
    if a <= b then a else b
  }

  function Refilled(b: Bucket, now: int): Bucket {
    b.(tokens := Min(b.capacity, b.tokens + Earned(b.rate, now - b.last)), last := now)
  }

  function RemoveToken(b: Bucket, now: int): (Bucket, bool) {
    var r := Refilled(b, now);
    if r.tokens < 1 then (r, false) else (r.(tokens := r.tokens - 1), true)
  }

  class Limiter {
    var tokens: int
    var lastRefillTime: int
    const capacity: nat
    const fillRate: real

    function Current(): Bucket
      reads this
    {
      Bucket(tokens, lastRefillTime, capacity, fillRate)
    }

    /** A full bucket. */
    constructor (rate: real, capacity: nat, now: int)
      requires rate >= 0.0
      ensures Current() == Bucket(capacity, now, capacity, rate) && Sound(Current())
    {
      this.tokens, this.lastRefillTime, this.capacity, this.fillRate := capacity, now, capacity, rate;
    }

    method Refill(now: int)
      modifies this
      ensures Current() == Refilled(old(Current()), now)
    {
      var elapsedTime := now - lastRefillTime;
      var tokensToAdd := (elapsedTime as real * fillRate).Floor;
      tokens := if capacity <= tokens + tokensToAdd then capacity else tokens + tokensToAdd;
      lastRefillTime := now;
    }

    method TakeToken(now: int) returns (ok: bool)
      modifies this
      ensures (Current(), ok) == RemoveToken(old(Current()), now)
    {
      Refill(now);
      if tokens < 1 {
        return false;
      }
      tokens := tokens - 1;
      return true;
    }
  }

  // ---------------------------------------------------------------- sequences of calls

  /** The bucket after calls at the given times, and how many of them were accepted. */
  function Calls(b: Bucket, times: seq<int>): (Bucket, nat) {
    if times == [] then (b, 0)
    else
      var before := Calls(b, times[..|times| - 1]);
      var (after, ok) := RemoveToken(before.0, times[|times| - 1]);
      (after, before.1 + if ok then 1 else 0)
  }

  ghost predicate Ordered(start: int, times: seq<int>) {
    && (forall i | 0 <= i < |times| :: start <= times[i])
    && forall i, j | 0 <= i < j < |times| :: times[i] <= times[j]
  }

  lemma EarnedNonnegative(rate: real, elapsed: int)
    requires rate >= 0.0 && elapsed >= 0
    ensures Earned(rate, elapsed) >= 0
  {
    assert elapsed as real * rate >= 0.0;
  }

  /** Restarting the clock loses fractions: two short waits never earn more than one long one. */
  lemma EarnedSplits(rate: real, a: int, b: int)
    ensures Earned(rate, a) + Earned(rate, b) <= Earned(rate, a + b)
  {
    assert (a + b) as real * rate == a as real * rate + b as real * rate;
  }

  lemma RemoveTokenSound(b: Bucket, now: int)
    requires Sound(b) && b.last <= now
    ensures Sound(RemoveToken(b, now).0)
  {
    EarnedNonnegative(b.rate, now - b.last);
  }

  /** However the calls fall, the bucket holds between none and all of its tokens. */
  lemma {:induction false} AlwaysSound(b: Bucket, times: seq<int>)
    requires Sound(b) && Ordered(b.last, times)
    ensures var a := Calls(b, times).0;
            && Sound(a) && a.rate == b.rate && a.capacity == b.capacity
            && a.last == if times == [] then b.last else times[|times| - 1]
  {
    if times != [] {
      AlwaysSound(b, times[..|times| - 1]);
      RemoveTokenSound(Calls(b, times[..|times| - 1]).0, times[|times| - 1]);
    }
  }

  /** Tokens handed out and tokens left are tokens held and tokens earned, or fewer. */
  lemma {:induction false} Conservation(b: Bucket, times: seq<int>)
    requires Sound(b) && Ordered(b.last, times)
    ensures var (a, accepted) := Calls(b, times); accepted + a.tokens <= b.tokens + Earned(b.rate, a.last - b.last)
  {
    if times != [] {
      var front, now := times[..|times| - 1], times[|times| - 1];
      Conservation(b, front);
      AlwaysSound(b, front);
      var a := Calls(b, front).0;
      EarnedSplits(b.rate, a.last - b.last, now - a.last);
    } else {
      assert Earned(b.rate, 0) == 0;
    }
  }

  lemma {:induction false} CallsRefilled(b: Bucket, times: seq<int>)
    requires Sound(b) && times != [] && Ordered(b.last, times)
    ensures Calls(b, times) == Calls(Refilled(b, times[0]), times)
  {
    var front := times[..|times| - 1];
    if front == [] {
      var r := Refilled(b, times[0]);
      assert Earned(b.rate, 0) == 0;
      EarnedNonnegative(b.rate, times[0] - b.last);
      assert Refilled(r, times[0]) == r;
    } else {
      assert front[0] == times[0];
      CallsRefilled(b, front);
    }
  }

  lemma OrderedSplits(start: int, before: seq<int>, times: seq<int>)
    requires Ordered(start, before + times)
    ensures Ordered(start, before) && Ordered(if before == [] then start else before[|before| - 1], times)
  {
    var all := before + times;
    assert forall i | 0 <= i < |before| :: before[i] == all[i];
    assert forall i | 0 <= i < |times| :: times[i] == all[|before| + i];
  }

  lemma WindowFrom(b: Bucket, times: seq<int>)
    requires Sound(b) && Ordered(b.last, times) && times != []
    ensures Calls(b, times).1 <= b.capacity + Earned(b.rate, times[|times| - 1] - times[0])
  {
    CallsRefilled(b, times);
    EarnedNonnegative(b.rate, times[0] - b.last);
    var r := Refilled(b, times[0]);
    Conservation(r, times);
    AlwaysSound(r, times);
  }

  /**
   Between any call and any later one, both included, at most the capacity plus what that time earns is
   accepted, whatever happened before.
   */
  lemma WindowBound(b: Bucket, before: seq<int>, times: seq<int>)
    requires Sound(b) && Ordered(b.last, before + times) && times != []
    ensures Calls(Calls(b, before).0, times).1 <= b.capacity + Earned(b.rate, times[|times| - 1] - times[0])
  {
    OrderedSplits(b.last, before, times);
    AlwaysSound(b, before);
    WindowFrom(Calls(b, before).0, times);
  }

  /** After a call: what was held and earned, at most the capacity, less one if the call was accepted; and the clock restarts. */
  lemma TokensAfter(b: Bucket, now: int)
    requires Sound(b) && b.last <= now
    ensures var (a, ok) := RemoveToken(b, now);
            var earned := ((now - b.last) as real * b.rate).Floor;
            && a.last == now && a.capacity == b.capacity && a.rate == b.rate
            && a.tokens == (if b.tokens + earned <= b.capacity then b.tokens + earned else b.capacity) - if ok then 1 else 0
  {
  }

  /** A full bucket takes as many calls at once as it has room for, and refuses the rest. */
  lemma {:induction false} BurstIsTheCapacity(b: Bucket, n: nat)
    requires Sound(b) && b.tokens == b.capacity
    ensures var (a, accepted) := Calls(b, seq(n, _ => b.last));
            && accepted == (if n <= b.capacity then n else b.capacity)
            && a == b.(tokens := b.capacity - accepted)
  {
    if n > 0 {
      BurstIsTheCapacity(b, n - 1);
      assert seq(n, _ => b.last)[..n - 1] == seq(n - 1, _ => b.last);
      assert Earned(b.rate, 0) == 0;
    }
  }

  /** A call is accepted exactly when a token is left or has been earned since the last one. */
  lemma AcceptedExactly(b: Bucket, now: int)
    requires Sound(b) && b.last <= now
    ensures RemoveToken(b, now).1 <==> b.capacity >= 1 && b.tokens + Earned(b.rate, now - b.last) >= 1
  {
  }

  /** Waiting long enough for one token is enough for one call. */
  lemma PatienceIsRewarded(b: Bucket, now: int)
    requires Sound(b) && b.capacity >= 1 && b.last <= now && (now - b.last) as real * b.rate >= 1.0
    ensures RemoveToken(b, now).1
  {
  }

  /** Every call comes before the time since the one before it has earned a token. */
  ghost predicate Hurried(rate: real, start: int, times: seq<int>) {
    && (times != [] ==> Earned(rate, times[0] - start) < 1)
    && forall i | 1 <= i < |times| :: Earned(rate, times[i] - times[i - 1]) < 1
  }

  /** Who is always in such a hurry never earns a token, however long it goes on. */
  lemma {:induction false} ImpatienceStarves(b: Bucket, times: seq<int>)
    requires Sound(b) && Ordered(b.last, times) && Hurried(b.rate, b.last, times)
    ensures var (a, accepted) := Calls(b, times); accepted + a.tokens == b.tokens
  {
    if times != [] {
      var front, now := times[..|times| - 1], times[|times| - 1];
      assert forall i | 0 <= i < |front| :: front[i] == times[i];
      ImpatienceStarves(b, front);
      AlwaysSound(b, front);
      EarnedNonnegative(b.rate, now - Calls(b, front).0.last);
    }
  }

  lemma HurriedSnoc(rate: real, start: int, times: seq<int>)
    requires times != []
    ensures var front, now := times[..|times| - 1], times[|times| - 1];
            Hurried(rate, start, times)
            <==> Hurried(rate, start, front) && Earned(rate, now - if front == [] then start else front[|front| - 1]) < 1
  {
    var front, now := times[..|times| - 1], times[|times| - 1];
    assert forall i | 0 <= i < |front| :: front[i] == times[i];
    if front != [] {
      assert Hurried(rate, start, times) ==> Earned(rate, times[|times| - 1] - times[|times| - 2]) < 1;
    }
  }

  /** From an empty bucket nothing is ever accepted exactly when every call is in such a hurry. */
  lemma {:induction false} NothingAcceptedExactly(b: Bucket, times: seq<int>)
    requires Sound(b) && b.tokens == 0 && b.capacity >= 1 && Ordered(b.last, times)
    ensures Calls(b, times).1 == 0 <==> Hurried(b.rate, b.last, times)
  {
    if times != [] {
      var front, now := times[..|times| - 1], times[|times| - 1];
      assert forall i | 0 <= i < |front| :: front[i] == times[i];
      NothingAcceptedExactly(b, front);
      AlwaysSound(b, front);
      HurriedSnoc(b.rate, b.last, times);
      AcceptedExactly(Calls(b, front).0, now);
      if Hurried(b.rate, b.last, front) { ImpatienceStarves(b, front); }
    }
  }

  function Every(step: nat, n: nat): seq<int> {
    seq(n, i => step * (i + 1))
  }

  /** One token every 100 ms, and a call every 50 ms: after the bucket is empty, no call ever succeeds. */
  lemma EveryFiftyStarves(capacity: nat, n: nat)
    requires capacity >= 1
    ensures Calls(Bucket(0, 0, capacity, 0.01), Every(50, n)).1 == 0
  {
    var times := Every(50, n);
    assert Earned(0.01, 50) == 0;
    assert Hurried(0.01, 0, times) by {
      forall i | 1 <= i < |times| ensures Earned(0.01, times[i] - times[i - 1]) < 1 { assert times[i] - times[i - 1] == 50; }
    }
    NothingAcceptedExactly(Bucket(0, 0, capacity, 0.01), times);
  }

  /** With a call every 100 ms instead, the first one succeeds. */
  lemma EveryHundredSucceeds(capacity: nat)
    requires capacity >= 1
    ensures Calls(Bucket(0, 0, capacity, 0.01), Every(100, 1)).1 == 1
  {
    assert Every(100, 1) == [100] && [100][..0] == [];
    assert Earned(0.01, 100) == 1;
    assert Calls(Bucket(0, 0, capacity, 0.01), []) == (Bucket(0, 0, capacity, 0.01), 0);
  }
}
