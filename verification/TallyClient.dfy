/** The HTTP client's retry loop and its backoff. */
module TallyClient {

  /** What one POST comes to. */
  datatype Post =
    | Reply(body: string)
    | AppError      // a business-layer error in the body
    | EmptyBody
    | HttpError     // a bad status, or any other exception that is no lost connection
    | Unreachable   // connection error or timeout

  datatype Failure = Rejected | Empty | BadStatus | CouldNotConnect | NegativeSleep

  datatype Response = Received(body: string) | Raised(failure: Failure)

  function Power(n: nat): (p: nat)
    ensures p >= 1
  {
    if n == 0 then 1 else 2 * Power(n - 1)
  }

  function MinReal(a: real, b: real): real {
    if b < a then b else a
  }

  function Exponential(attempt: nat, base: real): real {
    base * Power(attempt) as real
  }

  /** Exponential backoff with jitter, capped. */
  function BackoffWait(attempt: nat, jitter: real, base: real, cap: real): real {
    MinReal(Exponential(attempt, base) + jitter, cap)
  }

  function Sum(waits: seq<real>): real {
    if waits == [] then 0.0 else Sum(waits[..|waits| - 1]) + waits[|waits| - 1]
  }

  /** What random.uniform(0, 1) may return. */
  predicate InUnit(jitter: real) {
    0.0 <= jitter <= 1.0
  }

  ghost predicate JitterOk(jitter: nat -> real) {
    forall i: nat :: InUnit(jitter(i))
  }

  /** What the caller is told about the last post made. */
  function Told(p: Post): Response {
    match p
    case Reply(body) => Received(body)
    case AppError => Raised(Rejected)
    case EmptyBody => Raised(Empty)
    case HttpError => Raised(BadStatus)
    case Unreachable => Raised(CouldNotConnect)
  }

  /** Posts until an answer of any kind arrives or the retries are used up.  `post` and `jitter` say what
      each attempt meets; `posted` and `sleeps` what was done. */
  method Request(post: nat -> Post, jitter: nat -> real, maxRetries: int, base: real, cap: real)
      returns (r: Response, posted: nat, sleeps: seq<real>)
    ensures maxRetries <= 0 ==> posted == 0
    ensures maxRetries > 0 ==> 1 <= posted <= maxRetries
    // nothing is posted after an answer, and every post before the last met nobody
    ensures forall i :: 0 <= i < posted - 1 ==> post(i).Unreachable?
    // an answer ends the call, and the caller gets the body or the error that it stands for
    ensures forall b :: r == Received(b) <==> posted > 0 && post(posted - 1) == Reply(b)
    ensures r == Raised(Rejected) <==> posted > 0 && post(posted - 1) == AppError
    ensures r == Raised(Empty) <==> posted > 0 && post(posted - 1) == EmptyBody
    ensures r == Raised(BadStatus) <==> posted > 0 && post(posted - 1) == HttpError
    // the client gives up exactly when every retry allowed met nobody
    ensures r == Raised(CouldNotConnect) <==>
              posted == (if maxRetries < 0 then 0 else maxRetries) && forall i :: 0 <= i < posted ==> post(i).Unreachable?
    // it sleeps between posts and at no other time
    ensures |sleeps| == if posted == 0 then 0 else posted - 1
    ensures forall i :: 0 <= i < |sleeps| ==> sleeps[i] == BackoffWait(i, jitter(i), base, cap) >= 0.0
    ensures r == Raised(NegativeSleep) ==>
              0 < posted < maxRetries && post(posted - 1).Unreachable? && BackoffWait(posted - 1, jitter(posted - 1), base, cap) < 0.0
  {
    posted, sleeps := 0, [];
    var attempt := 0;
    while attempt < maxRetries
      invariant 0 <= attempt && (attempt <= maxRetries || attempt == 0)
      invariant posted == attempt
      invariant forall i :: 0 <= i < attempt ==> post(i).Unreachable?
      invariant |sleeps| == if attempt == 0 then 0 else if attempt < maxRetries then attempt else attempt - 1
      invariant forall i :: 0 <= i < |sleeps| ==> sleeps[i] == BackoffWait(i, jitter(i), base, cap) >= 0.0
    {
      var outcome := post(attempt);
      posted := posted + 1;
      if !outcome.Unreachable? {
        return Told(outcome), posted, sleeps;
      }
      var remaining := maxRetries - attempt - 1;
      if remaining > 0 {
        var wait := BackoffWait(attempt, jitter(attempt), base, cap);
        if wait < 0.0 {
          return Raised(NegativeSleep), posted, sleeps;
        }
        sleeps := sleeps + [wait];
      }
      attempt := attempt + 1;
    }
    return Raised(CouldNotConnect), posted, sleeps;
  }

  lemma {:induction false} ExponentialDoubles(base: real, n: nat)
    ensures Exponential(n + 1, base) == 2.0 * Exponential(n, base)
  {
  }

  /** n pauses of the cap. */
  function Capped(n: nat, cap: real): real {
    n as real * cap
  }

  /** n pauses of the exponential part and a second: a geometric sum. */
  function Geometric(n: nat, base: real): real {
    base * (Power(n) - 1) as real + n as real
  }

  /** The bound on n pauses. */
  function SleepBound(n: nat, base: real, cap: real): real {
    MinReal(Capped(n, cap), Geometric(n, base))
  }

  lemma {:induction false} CappedStep(n: nat, cap: real)
    ensures Capped(0, cap) == 0.0 && Capped(n + 1, cap) == Capped(n, cap) + cap
  {
    assert (n as real + 1.0) * cap == n as real * cap + cap;
  }

  lemma {:induction false} GeometricStep(n: nat, base: real)
    ensures Geometric(0, base) == 0.0 && Geometric(n + 1, base) == Geometric(n, base) + Exponential(n, base) + 1.0
  {
    assert Power(n + 1) == 2 * Power(n);
    var p := Power(n) as real;
    assert (Power(n) - 1) as real == p - 1.0 && (Power(n + 1) - 1) as real == 2.0 * p - 1.0;
    Doubling(base, p);
  }

  lemma {:induction false} Doubling(base: real, p: real)
    ensures base * (2.0 * p - 1.0) == base * (p - 1.0) + base * p
  {
  }

  lemma {:induction false} SumOfWaits(waits: seq<real>, jitter: nat -> real, base: real, cap: real)
    requires JitterOk(jitter)
    requires forall i :: 0 <= i < |waits| ==> waits[i] <= BackoffWait(i, jitter(i), base, cap)
    ensures Sum(waits) <= SleepBound(|waits|, base, cap)
  {
    hide BackoffWait, Capped, Geometric, Exponential, Power;
    CappedStep(0, cap);
    GeometricStep(0, base);
    if waits != [] {
      var n := |waits| - 1;
      SumOfWaits(waits[..n], jitter, base, cap);
      assert InUnit(jitter(n));
      WaitBound(n, jitter(n), base, cap);
      CappedStep(n, cap);
      GeometricStep(n, base);
    }
  }

  lemma {:induction false} WaitBound(attempt: nat, jitter: real, base: real, cap: real)
    requires InUnit(jitter)
    ensures BackoffWait(attempt, jitter, base, cap) <= cap
    ensures BackoffWait(attempt, jitter, base, cap) <= Exponential(attempt, base) + 1.0
  {
  }

  function Positive(x: real): real {
    if x < 0.0 then 0.0 else x
  }

  /** The pauses that a number of retries allows. */
  function Pauses(maxRetries: int): nat {
    if maxRetries <= 1 then 0 else maxRetries - 1
  }

  /** Whatever the posts, the jitter and the settings, all sleeping together is bounded by the cap for each
      pause, and by the geometric sum plus a second for each pause; a negative cap or base counts as 0. */
  lemma {:induction false} TotalSleepIsBounded(sleeps: seq<real>, jitter: nat -> real, maxRetries: int, base: real, cap: real)
    requires JitterOk(jitter) && |sleeps| <= Pauses(maxRetries)
    requires forall i :: 0 <= i < |sleeps| ==> sleeps[i] == BackoffWait(i, jitter(i), base, cap)
    ensures Sum(sleeps) <= SleepBound(Pauses(maxRetries), Positive(base), Positive(cap))
  {
    hide BackoffWait, SleepBound;
    forall i | 0 <= i < |sleeps| ensures sleeps[i] <= BackoffWait(i, jitter(i), Positive(base), Positive(cap)) {
      WaitIsMonotone(i, jitter(i), base, cap);
    }
    SumOfWaits(sleeps, jitter, Positive(base), Positive(cap));
    BoundIsMonotone(|sleeps|, Pauses(maxRetries), Positive(base), Positive(cap));
  }

  lemma {:induction false} WaitIsMonotone(attempt: nat, jitter: real, base: real, cap: real)
    ensures BackoffWait(attempt, jitter, base, cap) <= BackoffWait(attempt, jitter, Positive(base), Positive(cap))
  {
    hide Power;
    Scale(base, Positive(base), Power(attempt) as real);
    hide Exponential;
  }

  lemma {:induction false} BoundIsMonotone(k: nat, n: nat, base: real, cap: real)
    requires k <= n && base >= 0.0 && cap >= 0.0
    ensures SleepBound(k, base, cap) <= SleepBound(n, base, cap)
    decreases n
  {
    hide Capped, Geometric, Exponential, Power;
    if k < n {
      BoundIsMonotone(k, n - 1, base, cap);
      CappedStep(n - 1, cap);
      GeometricStep(n - 1, base);
      ExponentialIsPositive(n - 1, base);
    }
  }

  lemma {:induction false} ExponentialIsPositive(attempt: nat, base: real)
    requires base >= 0.0
    ensures Exponential(attempt, base) >= 0.0
  {
    hide Power;
    Scale(0.0, base, Power(attempt) as real);
  }

  lemma {:induction false} Scale(x: real, y: real, f: real)
    requires x <= y && f >= 0.0
    ensures x * f <= y * f && f * x <= f * y
  {
  }

  /** A later wait is never shorter whatever the jitter, exactly when the exponential part has reached
      one second or its double has reached the cap. */
  lemma {:induction false} WaitsNeverDecrease(attempt: nat, base: real, cap: real)
    ensures (forall now, later :: InUnit(now) && InUnit(later) ==>
               BackoffWait(attempt, now, base, cap) <= BackoffWait(attempt + 1, later, base, cap))
            <==> (Exponential(attempt, base) >= 1.0 || cap <= 2.0 * Exponential(attempt, base))
  {
    hide Exponential, Power, MinReal, InUnit;
    ExponentialDoubles(base, attempt);
    WaitsOf(Exponential(attempt, base), cap);
  }

  lemma {:induction false} WaitsOf(exp: real, cap: real)
    ensures (forall now, later :: InUnit(now) && InUnit(later) ==> MinReal(exp + now, cap) <= MinReal(2.0 * exp + later, cap))
            <==> (exp >= 1.0 || cap <= 2.0 * exp)
  {
    if exp >= 1.0 || cap <= 2.0 * exp {
      forall now, later | InUnit(now) && InUnit(later) ensures MinReal(exp + now, cap) <= MinReal(2.0 * exp + later, cap) {
        LaterIsLonger(exp, now, later, cap);
      }
    } else {
      assert InUnit(1.0) && InUnit(0.0);
      assert MinReal(exp + 1.0, cap) > MinReal(2.0 * exp + 0.0, cap);
    }
  }

  lemma {:induction false} ExponentialAtLeast(attempt: nat, base: real)
    requires base >= 1.0
    ensures Exponential(attempt, base) >= 1.0
  {
    Scale(1.0, Power(attempt) as real, base);
  }

  lemma {:induction false} LaterIsLonger(exp: real, now: real, later: real, cap: real)
    requires InUnit(now) && InUnit(later) && (exp >= 1.0 || cap <= 2.0 * exp)
    ensures MinReal(exp + now, cap) <= MinReal(2.0 * exp + later, cap)
  {
  }

  /** With a base of a second or more, waits never decrease over a whole run of retries. */
  lemma {:induction false} SleepsAreSorted(sleeps: seq<real>, jitter: nat -> real, base: real, cap: real, i: nat, j: nat)
    requires JitterOk(jitter) && base >= 1.0 && i <= j < |sleeps|
    requires forall k :: 0 <= k < |sleeps| ==> sleeps[k] == BackoffWait(k, jitter(k), base, cap)
    ensures sleeps[i] <= sleeps[j]
    decreases j
  {
    if i < j {
      SleepsAreSorted(sleeps, jitter, base, cap, i, j - 1);
      WaitsNeverDecrease(j - 1, base, cap);
      hide BackoffWait, InUnit, Exponential;
      ExponentialAtLeast(j - 1, base);
      assert InUnit(jitter(j - 1)) && InUnit(jitter(j));
    }
  }
}
