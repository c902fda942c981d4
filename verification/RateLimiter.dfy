/**
 * The sliding-window limiter: per client, a deque of the admissions of the last
 * minute. Times are real numbers of a clock that never goes back.
 */
module RateLimiter {
  import opened Outcomes
  import opened PythonSequences

  const RATE_LIMIT_EXCEEDED := "client rate limit exceeded"

  const WINDOW := 60.0

  // ------------------------------------------------------------ whole histories

  ghost predicate Ascending(h: seq<real>) {
    forall i, j :: 0 <= i < j < |h| ==> h[i] <= h[j]
  }

  /** Any `limit + 1` consecutive admissions span a whole window. */
  ghost predicate Spaced(h: seq<real>, limit: nat) {
    forall i, j :: 0 <= i && i + limit <= j < |h| ==> h[i] + WINDOW <= h[j]
  }

  /** The admissions inside `[from, from + 60)`. */
  ghost function InWindow(h: seq<real>, from: real): set<int> {
    set i | 0 <= i < |h| && from <= h[i] < from + WINDOW
  }

  /** The admissions of the 60 seconds up to `now`, the oldest instant excluded. */
  ghost function Recent(h: seq<real>, now: real): set<int> {
    set i | 0 <= i < |h| && now - WINDOW < h[i]
  }

  /** No window of 60 seconds, wherever it starts, holds more admissions than the limit. */
  lemma WindowHoldsAtMostLimit(h: seq<real>, limit: nat, from: real)
    requires Ascending(h) && Spaced(h, limit)
    ensures |InWindow(h, from)| <= limit
  {
    var w := InWindow(h, from);
    if x :| x in w {
      var first := Least(w, x);
      forall i | i in w ensures i in Interval(first, limit) {
        IntervalIs(first, limit, i);
      }
      SubsetCount(w, Interval(first, limit));
      IntervalIs(first, limit, first);
    }
  }

  ghost function Interval(first: int, n: nat): set<int> {
    if n == 0 then {} else Interval(first, n - 1) + {first + n - 1}
  }

  lemma {:induction false} IntervalIs(first: int, n: nat, i: int)
    ensures i in Interval(first, n) <==> first <= i < first + n
    ensures |Interval(first, n)| == n
  {
    if n > 0 {
      IntervalIs(first, n - 1, i);
      IntervalIs(first, n - 1, first + n - 1);
    }
  }

  lemma {:induction false} Least(w: set<int>, x: int) returns (m: int)
    requires x in w
    ensures m in w && forall i :: i in w ==> m <= i
    decreases w
  {
    if y :| y in w && y < x {
      m := Least(w - {x}, y);
      forall i | i in w ensures m <= i {
        assert i == x || i in w - {x};
      }
    } else {
      m := x;
    }
  }

  // ----------------------------------------------------------------- the limiter

  /** The deque is what is still live of the history; what was dropped had expired. */
  ghost predicate IsLiveSuffix(bucket: seq<real>, h: seq<real>, last: real) {
    && |bucket| <= |h| && bucket == h[|h| - |bucket|..]
    && (forall i :: 0 <= i < |h| - |bucket| ==> h[i] <= last - WINDOW)
    && (forall i :: |h| - |bucket| <= i < |h| ==> last - WINDOW < h[i] <= last)
  }

  ghost predicate ClientOk(bucket: seq<real>, h: seq<real>, last: real, limit: nat) {
    Ascending(h) && Spaced(h, limit) && IsLiveSuffix(bucket, h, last) && |bucket| <= limit
  }

  /** Exactly the positions in the deque are recent. */
  lemma LiveIsRecent(bucket: seq<real>, h: seq<real>, now: real)
    requires IsLiveSuffix(bucket, h, now)
    ensures |Recent(h, now)| == |bucket|
  {
    var k := |h| - |bucket|;
    forall i ensures i in Recent(h, now) <==> i in Interval(k, |bucket|) {
      IntervalIs(k, |bucket|, i);
    }
    IntervalIs(k, |bucket|, k);
    assert Recent(h, now) == Interval(k, |bucket|);
  }

  lemma AdmitKeeps(bucket: seq<real>, h: seq<real>, now: real, limit: nat)
    requires ClientOk(bucket, h, now, limit) && |bucket| < limit
    ensures ClientOk(bucket + [now], h + [now], now, limit)
  {
    var h', b' := h + [now], bucket + [now];
    assert h'[|h'| - |b'|..] == h[|h| - |bucket|..] + [now];
    forall i, j | 0 <= i < j < |h'| ensures h'[i] <= h'[j] {
      if j == |h| && i < |h| - |bucket| { assert h[i] <= now - WINDOW; }
    }
    forall i, j | 0 <= i && i + limit <= j < |h'| ensures h'[i] + WINDOW <= h'[j] {
      if j == |h| { assert i < |h| - |bucket|; }
    }
  }

  class BoundedRateLimiter {
    const limit: nat
    var requests: map<string, seq<real>>
    /** Everything ever admitted, and the time of each client's last call. */
    ghost var admitted: map<string, seq<real>>
    ghost var last: map<string, real>

    constructor (requestsPerMinute: nat)
      ensures Valid() && limit == requestsPerMinute && requests == map[]
    {
      limit := requestsPerMinute;
      requests, admitted, last := map[], map[], map[];
    }

    ghost function Admitted(client: string): seq<real>
      reads this
    {
      if client in admitted then admitted[client] else []
    }

    ghost predicate Valid()
      reads this
    {
      && requests.Keys == admitted.Keys == last.Keys
      && forall c :: c in requests ==> ClientOk(requests[c], admitted[c], last[c], limit)
    }

    /** Store the deque; the ghost maps follow. */
    method Store(client: string, bucket: seq<real>, ghost h: seq<real>, now: real)
      requires Valid() && ClientOk(bucket, h, now, limit)
      modifies this
      ensures Valid()
      ensures requests == old(requests)[client := bucket] && admitted == old(admitted)[client := h]
              && last == old(last)[client := now]
    {
      hide ClientOk;
      requests := requests[client := bucket];
      admitted, last := admitted[client := h], last[client := now];
    }

    /** Admit iff fewer than the limit were admitted in the 60 seconds before `now`. */
    method Require(client: string, now: real) returns (r: Result<()>)
      requires Valid() && (client in last ==> last[client] <= now)
      modifies this
      ensures Valid()
      ensures r.Ok? <==> |Recent(old(Admitted(client)), now)| < limit
      ensures r.Err? ==> |Recent(old(Admitted(client)), now)| == limit
      ensures admitted == old(admitted)[client := old(Admitted(client)) + if r.Ok? then [now] else []]
      ensures last == old(last)[client := now]
      ensures forall c :: c in old(requests) && c != client ==> c in requests && requests[c] == old(requests)[c]
      ensures client in requests && IsLiveSuffix(requests[client], admitted[client], now)
    {
      hide ClientOk, IsLiveSuffix, Recent;
      var bucket := if client in requests then requests[client] else [];
      ghost var h := Admitted(client);
      NewClientIsOk(now, limit);
      ghost var since := if client in last then last[client] else now;
      bucket := Expire(bucket, h, since, now, limit);
      LiveIsRecent(bucket, h, now);
      if |bucket| >= limit {
        OkMeans(bucket, h, now, limit);
        Store(client, bucket, h, now);
        assert h + [] == h;
        return Err(RATE_LIMIT_EXCEEDED);
      }
      AdmitKeeps(bucket, h, now, limit);
      OkMeans(bucket + [now], h + [now], now, limit);
      bucket := bucket + [now];
      Store(client, bucket, h + [now], now);
      r := Ok(());
    }

    /** What the object guarantees about any client at any moment. */
    lemma NeverTooMany(client: string, from: real)
      requires Valid() && client in admitted
      ensures |InWindow(admitted[client], from)| <= limit
    {
      WindowHoldsAtMostLimit(admitted[client], limit, from);
    }
  }

  lemma NewClientIsOk(now: real, limit: nat)
    ensures ClientOk([], [], now, limit)
  {
  }

  lemma OkMeans(bucket: seq<real>, h: seq<real>, now: real, limit: nat)
    requires ClientOk(bucket, h, now, limit)
    ensures |bucket| <= limit && IsLiveSuffix(bucket, h, now)
  {
  }

  /** Drop what expired by `now` from the front. */
  method Expire(bucket: seq<real>, ghost h: seq<real>, ghost since: real, now: real, ghost limit: nat)
    returns (live: seq<real>)
    requires ClientOk(bucket, h, since, limit) && since <= now
    ensures ClientOk(live, h, now, limit) && IsLiveSuffix(live, h, now)
  {
    live := bucket;
    while live != [] && live[0] <= now - WINDOW
      invariant |live| <= |bucket| && live == h[|h| - |live|..]
      invariant forall i :: 0 <= i < |h| - |live| ==> h[i] <= now - WINDOW
      decreases |live|
    {
      assert h[|h| - |live|] == live[0];
      live := live[1..];
    }
    forall i | |h| - |live| <= i < |h| ensures now - WINDOW < h[i] <= now {
      assert live[0] == h[|h| - |live|];
    }
  }
}
