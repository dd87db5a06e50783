/** The token bucket that keeps finbot within YNAB's hourly limit. Tokens and seconds are exact reals. */
module Governor {
  import opened Prelude

  const HOUR: real := 3600.0

  datatype Bucket = Bucket(capacity: real, reserve: real, perSec: real, tokens: real, last: real)

  datatype Answer = Granted | Denied(wait: int)

  predicate Sound(b: Bucket) {
    && 1.0 <= b.capacity && 0.0 <= b.reserve <= b.capacity && 0.0 < b.perSec
    && 0.0 <= b.tokens <= b.capacity
  }

  function Min(a: real, b: real): real { if a < b then a else b }
  function Max(a: real, b: real): real { if a < b then b else a }

  /** The least integer that is not below x. */
  function Ceil(x: real): int { -((-x).Floor) }

  function NewBucket(hourlyLimit: int, reserve: int, now: real): (b: Bucket)
    ensures Sound(b) && b.tokens == b.capacity && b.perSec == b.capacity / HOUR
  {
    var limit := if hourlyLimit < 1 then 1 else hourlyLimit;
    var kept := if reserve < 0 then 0 else if reserve > limit then limit else reserve;
    Bucket(limit as real, kept as real, limit as real / HOUR, limit as real, now)
  }

  /** At least one request an hour, and a reserve that is neither negative nor more than the whole bucket. */
  lemma {:induction false} NewBucketIs(hourlyLimit: int, reserve: int, now: real)
    ensures var b := NewBucket(hourlyLimit, reserve, now);
            && (hourlyLimit >= 1 ==> b.capacity == hourlyLimit as real) && (hourlyLimit < 1 ==> b.capacity == 1.0)
            && (reserve <= 0 ==> b.reserve == 0.0) && (reserve as real >= b.capacity ==> b.reserve == b.capacity)
            && (0 <= reserve && reserve as real <= b.capacity ==> b.reserve == reserve as real)
            && b.tokens == b.capacity && b.last == now
  {
  }

  /** What a stretch of time refills at most; going back in time refills nothing. */
  function Gain(rate: real, dt: real): real { if dt > 0.0 then rate * dt else 0.0 }

  function Refilled(b: Bucket, t: real): Bucket {
    var el := t - b.last;
    b.(tokens := if el > 0.0 then Min(b.capacity, b.tokens + Gain(b.perSec, el)) else b.tokens, last := t)
  }

  /** The level a request of this kind may not take the bucket below. */
  function Level(b: Bucket, write: bool): real { if write then 0.0 else b.reserve }

  /** The level it must find. */
  function Need(b: Bucket, write: bool): real { Level(b, write) + 1.0 }

  function Asked(b: Bucket, write: bool, t: real): Answer
    requires b.perSec > 0.0
  {
    var r := Refilled(b, t);
    if r.tokens < Need(b, write) then Denied(Ceil((Need(b, write) - r.tokens) / r.perSec)) else Granted
  }

  function After(b: Bucket, write: bool, t: real): (r: Bucket)
    requires b.perSec > 0.0
    ensures r.perSec == b.perSec
  {
    var r := Refilled(b, t);
    if Asked(b, write, t).Granted? then r.(tokens := r.tokens - 1.0) else r
  }

  class Governor {
    var capacity: real
    var reserve: real
    var perSec: real
    var tokens: real
    var last: real

    function State(): Bucket
      reads this
    {
      Bucket(capacity, reserve, perSec, tokens, last)
    }

    constructor (hourlyLimit: int, keep: int, now: real)
      ensures State() == NewBucket(hourlyLimit, keep, now)
    {
      var limit := if hourlyLimit > 1 then hourlyLimit else 1;
      var kept := keep;
      if kept < 0 { kept := 0; }
      if kept > limit { kept := limit; }
      capacity, reserve, perSec := limit as real, kept as real, limit as real / HOUR;
      tokens, last := limit as real, now;
    }

    method Refill(t: real)
      modifies this
      ensures State() == Refilled(old(State()), t)
    {
      var el := t - last;
      if el > 0.0 {
        tokens := Min(capacity, tokens + perSec * el);
      }
      last := t;
    }

    /** Spends one token, or says in how many seconds one will be free. */
    method Take(write: bool, t: real) returns (a: Answer)
      requires Sound(State())
      modifies this
      ensures a == Asked(old(State()), write, t) && State() == After(old(State()), write, t)
      ensures Sound(State()) && (a.Granted? && !write ==> tokens >= reserve)
      ensures var level := if t > old(last) then Min(capacity, old(tokens) + perSec * (t - old(last))) else old(tokens);
              && (a.Granted? <==> level >= if write then 1.0 else reserve + 1.0)   // only a read minds the reserve
              && tokens == (if a.Granted? then level - 1.0 else level) && last == t
      ensures capacity == old(capacity) && reserve == old(reserve) && perSec == old(perSec)
    {
      StaysSound(State(), write, t);
      Refill(t);
      var need := (if write then 0.0 else reserve) + 1.0;
      if tokens < need {
        return Denied(Ceil((need - tokens) / perSec));
      }
      tokens := tokens - 1.0;
      return Granted;
    }

    /** Whether Take would succeed now; spends nothing. */
    method Allow(write: bool, t: real) returns (ok: bool)
      requires Sound(State())
      modifies this
      ensures ok <==> Asked(old(State()), write, t).Granted?
      ensures State() == Refilled(old(State()), t)
      ensures Asked(State(), write, t) == Asked(old(State()), write, t)
    {
      Refill(t);
      ok := tokens >= (if write then 0.0 else reserve) + 1.0;
    }

    method Remaining(t: real) returns (reads_: int, writes: int)
      requires Sound(State())
      modifies this
      ensures State() == Refilled(old(State()), t)
      ensures reads_ == InARow(State(), false) && writes == InARow(State(), true)
    {
      Refill(t);
      reads_ := (tokens - reserve).Floor;
      if reads_ < 0 { reads_ := 0; }
      writes := tokens.Floor;
      assert State().tokens - Level(State(), true) == tokens;
    }
  }

  lemma {:induction false} RefillBounds(b: Bucket, t: real)
    requires Sound(b)
    ensures Sound(Refilled(b, t))
    ensures b.tokens <= Refilled(b, t).tokens
    ensures Refilled(b, t).tokens <= b.tokens + Gain(b.perSec, t - b.last)
  {
    GainNotNegative(b.perSec, t - b.last);
  }

  lemma {:induction false} GainNotNegative(rate: real, dt: real)
    requires rate >= 0.0
    ensures Gain(rate, dt) >= 0.0
  {
    if dt > 0.0 { NonNegative(dt, rate); }
  }

  /** A read never takes the bucket below the reserve, and nothing takes it below zero. */
  lemma {:induction false} StaysSound(b: Bucket, write: bool, t: real)
    requires Sound(b)
    ensures Sound(After(b, write, t))
    ensures !write && Asked(b, write, t).Granted? ==> After(b, write, t).tokens >= b.reserve
  {
    RefillBounds(b, t);
  }

  // ---- Remaining

  /** Tokens as whole requests of one kind. */
  function InARow(b: Bucket, write: bool): int {
    var n := (b.tokens - Level(b, write)).Floor;
    if n < 0 then 0 else n
  }

  function Repeated(b: Bucket, write: bool, t: real, k: nat): (r: Bucket)
    requires b.perSec > 0.0
    ensures r.perSec == b.perSec
  {
    if k == 0 then b else After(Repeated(b, write, t, k - 1), write, t)
  }

  /** Remaining is exact: at one instant that many requests of a kind succeed in a row, and the next one is denied. */
  lemma {:induction false} RemainingIsExact(b: Bucket, write: bool, k: nat)
    requires Sound(b)
    ensures k <= InARow(b, write) ==> Repeated(b, write, b.last, k) == b.(tokens := b.tokens - k as real)
    ensures k < InARow(b, write) ==> Asked(Repeated(b, write, b.last, k), write, b.last).Granted?
    ensures k == InARow(b, write) ==> Asked(Repeated(b, write, b.last, k), write, b.last).Denied?
  {
    if k > 0 { RemainingIsExact(b, write, k - 1); }
  }

  // ---- Bounds over runs

  datatype Call = Call(write: bool, t: real)

  function Run(b: Bucket, calls: seq<Call>): (r: Bucket)
    requires b.perSec > 0.0
    ensures r.perSec == b.perSec
  {
    if calls == [] then b
    else var c := calls[|calls| - 1]; After(Run(b, calls[..|calls| - 1]), c.write, c.t)
  }

  /** How many calls were granted; only reads, or all. */
  function Grants(b: Bucket, calls: seq<Call>, readsOnly: bool): nat
    requires b.perSec > 0.0
  {
    if calls == [] then 0
    else
      var c := calls[|calls| - 1];
      var before := calls[..|calls| - 1];
      Grants(b, before, readsOnly)
      + if Asked(Run(b, before), c.write, c.t).Granted? && !(readsOnly && c.write) then 1 else 0
  }

  /** What the clock's forward moves between the calls refill at most. */
  function Earned(rate: real, calls: seq<Call>): real {
    if |calls| <= 1 then 0.0
    else Earned(rate, calls[..|calls| - 1]) + Gain(rate, calls[|calls| - 1].t - calls[|calls| - 2].t)
  }

  lemma {:induction false} RunSound(b: Bucket, calls: seq<Call>)
    requires Sound(b)
    ensures Sound(Run(b, calls)) && Run(b, calls).(tokens := 0.0, last := 0.0) == b.(tokens := 0.0, last := 0.0)
    ensures calls != [] ==> Run(b, calls).last == calls[|calls| - 1].t
  {
    if calls != [] {
      var before := calls[..|calls| - 1];
      RunSound(b, before);
      StaysSound(Run(b, before), calls[|calls| - 1].write, calls[|calls| - 1].t);
    }
  }

  /** One call moves at most the gain of its time step from the clock into grants and tokens. */
  /** One call never pays out more than the bucket held after its refill, nor a read below the reserve. */
  lemma {:induction false} CallFits(b: Bucket, c: Call, gain: real)
    requires Sound(b) && gain == Gain(b.perSec, c.t - b.last)
    ensures var granted := if Asked(b, c.write, c.t).Granted? then 1.0 else 0.0;
            var after, r := After(b, c.write, c.t), Refilled(b, c.t);
            && after.tokens + granted == r.tokens <= b.tokens + gain
            && Max(after.tokens, b.reserve) + (if c.write then 0.0 else granted) <= Max(r.tokens, b.reserve)
            && Max(r.tokens, b.reserve) <= Max(b.tokens, b.reserve) + gain
  {
    RefillBounds(b, c.t);
  }

  /** Whatever the clock does: grants fit into what the bucket held at the first call and what forward time refilled,
      and reads into what it held above the reserve. */
  lemma {:induction false} GrantsFitForwardTime(b: Bucket, calls: seq<Call>)
    requires Sound(b) && calls != []
    ensures var first := Refilled(b, calls[0].t).tokens;
            && Grants(b, calls, false) as real + Run(b, calls).tokens <= first + Earned(b.perSec, calls)
            && Grants(b, calls, true) as real + Max(Run(b, calls).tokens, b.reserve)
               <= Max(first, b.reserve) + Earned(b.perSec, calls)
  {
    var before := calls[..|calls| - 1];
    var c := calls[|calls| - 1];
    RunSound(b, before);
    var mid := Run(b, before);
    var gain := Gain(b.perSec, c.t - mid.last);
    CallFits(mid, c, gain);
    if before == [] {
      assert Grants(b, before, false) == 0 && Grants(b, before, true) == 0;
    } else {
      GrantsFitForwardTime(b, before);
      assert Earned(b.perSec, calls) == Earned(b.perSec, before) + gain;
    }
  }

  predicate Monotone(calls: seq<Call>) {
    forall i, j :: 0 <= i < j < |calls| ==> calls[i].t <= calls[j].t
  }

  function Advance(dt: real): real { if dt > 0.0 then dt else 0.0 }

  /** How far the clock moved forward between the calls, in all. */
  function Forward(calls: seq<Call>): real {
    if |calls| <= 1 then 0.0
    else Forward(calls[..|calls| - 1]) + Advance(calls[|calls| - 1].t - calls[|calls| - 2].t)
  }

  lemma {:induction false} EarnedForward(rate: real, calls: seq<Call>)
    ensures Earned(rate, calls) == rate * Forward(calls)
  {
    if |calls| > 1 {
      var before, dt := calls[..|calls| - 1], calls[|calls| - 1].t - calls[|calls| - 2].t;
      EarnedForward(rate, before);
      GainIs(rate, dt);
      Together(rate, Forward(before), Advance(dt), Earned(rate, before), Gain(rate, dt));
    }
  }

  lemma {:induction false} GainIs(rate: real, dt: real)
    ensures Gain(rate, dt) == rate * Advance(dt)
  {
  }

  lemma {:induction false} Together(rate: real, a: real, b: real, x: real, y: real)
    requires x == rate * a && y == rate * b
    ensures x + y == rate * (a + b)
  {
  }

  lemma {:induction false} MonotoneForward(calls: seq<Call>)
    requires Monotone(calls) && calls != []
    ensures Forward(calls) == calls[|calls| - 1].t - calls[0].t
  {
    if |calls| > 1 { MonotoneForward(calls[..|calls| - 1]); }
  }

  /** Over any calls between which the clock moves forward by at most T seconds in all, at most capacity + T * rate
      requests are granted, and at most capacity - reserve + T * rate reads. */
  lemma {:induction false} WindowBound(b: Bucket, calls: seq<Call>, T: real)
    requires Sound(b) && T >= 0.0 && Forward(calls) <= T
    ensures Grants(b, calls, false) as real <= b.capacity + b.perSec * T
    ensures Grants(b, calls, true) as real <= (b.capacity - b.reserve) + b.perSec * T
  {
    RefillCovers(b.perSec, calls, T, b.perSec * T);
    GrantsWithin(b, calls, b.perSec * T);
  }

  /** A clock that does not go back moves forward by at most the window. */
  lemma {:induction false} MonotoneFits(calls: seq<Call>, from: real, T: real)
    requires Monotone(calls) && T >= 0.0 && forall i :: 0 <= i < |calls| ==> from <= calls[i].t <= from + T
    ensures Forward(calls) <= T
  {
    if calls != [] { MonotoneForward(calls); }
  }

  lemma {:induction false} RefillCovers(rate: real, calls: seq<Call>, T: real, refill: real)
    requires rate >= 0.0 && T >= 0.0 && refill == rate * T && Forward(calls) <= T
    ensures 0.0 <= refill && Earned(rate, calls) <= refill
  {
    NonNegative(T, rate);
    EarnedForward(rate, calls);
    TimesMonotone(Forward(calls), T, rate);
  }

  lemma {:induction false} GrantsWithin(b: Bucket, calls: seq<Call>, refill: real)
    requires Sound(b) && 0.0 <= refill && Earned(b.perSec, calls) <= refill
    ensures Grants(b, calls, false) as real <= b.capacity + refill
    ensures Grants(b, calls, true) as real <= (b.capacity - b.reserve) + refill
  {
    if calls != [] {
      RunSound(b, calls);
      RefillBounds(b, calls[0].t);
      GrantsFitForwardTime(b, calls);
    }
  }

  lemma {:induction false} NonNegative(a: real, k: real)
    requires a >= 0.0 && k >= 0.0
    ensures k * a >= 0.0
  {
  }

  lemma {:induction false} TimesMonotone(a: real, b: real, k: real)
    requires a <= b && k >= 0.0
    ensures k * a <= k * b
  {
  }

  /** A clock that goes back by the time of one token grants two requests at one moment from a bucket of one. */
  lemma {:induction false} StepBackGrantsTwice(b: Bucket, dt: real)
    requires b == Bucket(1.0, 0.0, b.perSec, 1.0, 0.0) && b.perSec > 0.0 && dt > 0.0 && b.perSec * dt == 1.0
    ensures Grants(b, [Call(true, 0.0), Call(true, -dt), Call(true, 0.0)], false) == 2
  {
    var c0, c1, c2 := Call(true, 0.0), Call(true, -dt), Call(true, 0.0);
    assert [c0, c1, c2][..2] == [c0, c1] && [c0, c1][..1] == [c0] && [c0][..0] == [];
    var b1 := b.(tokens := 0.0);
    var b2 := b1.(last := -dt);
    assert Run(b, []) == b && Asked(b, true, 0.0).Granted? && After(b, true, 0.0) == b1;
    assert Asked(b1, true, -dt).Denied? && After(b1, true, -dt) == b2;
    assert Gain(b.perSec, dt) == 1.0 && Refilled(b2, 0.0).tokens == 1.0;
    assert Asked(b2, true, 0.0).Granted?;
    assert Run(b, [c0]) == b1 && Run(b, [c0, c1]) == b2;
    assert Grants(b, [], false) == 0 && Grants(b, [c0], false) == 1 && Grants(b, [c0, c1], false) == 1;
  }

  /** So a clock that steps back breaks the window bound for T = 0: the forward time is then an hour. */
  lemma {:induction false} ClockStepBackExceeds()
    ensures var b := NewBucket(1, 0, 0.0);
            var calls := [Call(true, 0.0), Call(true, -3600.0), Call(true, 0.0)];
            calls[2].t == calls[0].t && Grants(b, calls, false) == 2 && b.capacity == 1.0
  {
    var b := NewBucket(1, 0, 0.0);
    QuotientIs(1.0, HOUR, b.perSec);
    Commutes(HOUR, b.perSec);
    StepBackGrantsTwice(b, HOUR);
    assert -HOUR == -3600.0;
  }

  lemma {:induction false} Commutes(x: real, y: real)
    ensures x * y == y * x
  {
  }

  // ---- The announced wait

  /** The answer k whole seconds later. */
  function AskedIn(b: Bucket, write: bool, t: real, k: int): Answer
    requires b.perSec > 0.0
  {
    Asked(b, write, t + k as real)
  }

  /** Denied is denied for every earlier whole second, and the announced second is enough exactly when the bucket
      can ever hold what the request needs; otherwise no time is. */
  lemma {:induction false} WaitIsLeast(b: Bucket, write: bool, t: real)
    requires Sound(b) && Asked(b, write, t).Denied?
    ensures Asked(b, write, t).wait > 0
    ensures forall k: int :: 0 <= k < Asked(b, write, t).wait ==> AskedIn(After(b, write, t), write, t, k).Denied?
    ensures AskedIn(After(b, write, t), write, t, Asked(b, write, t).wait).Granted? <==> Need(b, write) <= b.capacity
    ensures Need(b, write) > b.capacity ==> forall later :: Asked(After(b, write, t), write, later).Denied?
  {
    var r := After(b, write, t);
    DeniedFacts(b, write, t);
    var x := (Need(b, write) - r.tokens) / r.perSec;
    var wait := Asked(b, write, t).wait;
    forall k: int | 0 <= k < wait ensures AskedIn(r, write, t, k).Denied? {
      EarlierIsDenied(r, write, t, x, k);
    }
    EnoughIfPossible(r, write, t, x, wait);
    forall later | Need(b, write) > b.capacity ensures Asked(r, write, later).Denied? {
      RefillBounds(r, later);
    }
  }

  lemma {:induction false} DeniedFacts(b: Bucket, write: bool, t: real)
    requires Sound(b) && Asked(b, write, t).Denied?
    ensures var r := After(b, write, t);
            var x := (Need(b, write) - r.tokens) / r.perSec;
            var wait := Asked(b, write, t).wait;
            && Sound(r) && r.last == t && r.capacity == b.capacity && Need(r, write) == Need(b, write)
            && r.perSec * x == Need(r, write) - r.tokens
            && wait > 0 && (wait - 1) as real < x <= wait as real
  {
    RefillBounds(b, t);
    var r := After(b, write, t);
    QuotientIs(Need(b, write) - r.tokens, r.perSec, (Need(b, write) - r.tokens) / r.perSec);
  }

  lemma {:induction false} EnoughIfPossible(r: Bucket, write: bool, t: real, x: real, wait: int)
    requires Sound(r) && r.last == t && r.perSec * x == Need(r, write) - r.tokens && wait > 0 && x <= wait as real
    ensures AskedIn(r, write, t, wait).Granted? <==> Need(r, write) <= r.capacity
  {
    TimesMonotone(x, wait as real, r.perSec);
  }

  lemma {:induction false} QuotientIs(a: real, k: real, x: real)
    requires a > 0.0 && k > 0.0 && x == a / k
    ensures k * x == a && x > 0.0
  {
  }

  lemma {:induction false} EarlierIsDenied(r: Bucket, write: bool, t: real, x: real, k: int)
    requires Sound(r) && r.last == t && r.perSec * x == Need(r, write) - r.tokens && 0 <= k && k as real < x
    ensures AskedIn(r, write, t, k).Denied?
  {
    TimesStrict(k as real, x, r.perSec);
  }

  lemma {:induction false} TimesStrict(a: real, b: real, k: real)
    requires a < b && k > 0.0
    ensures k * a < k * b
  {
  }
}
