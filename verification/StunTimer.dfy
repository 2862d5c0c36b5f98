/** The STUN retransmission timer, with its 32-bit delay. */
module StunTimer {
  import opened Arith

  /** A `struct timeval`: seconds and microseconds. */
  datatype Timeval = Timeval(sec: int, usec: int)

  datatype Outcome = Success | Retransmit | Timeout

  datatype Timer = Timer(deadline: Timeval, delay: Word, retransmissions: nat, maxRetransmissions: nat)

  const SECOND: int := 1000000

  function Micros(t: Timeval): int {
    t.sec * SECOND + t.usec
  }

  /** A clock reading. */
  predicate Reading(t: Timeval) {
    0 <= t.usec < SECOND
  }

  type Instant = t: Timeval | Reading(t) witness Timeval(0, 0)

  /** Deadlines may rest on a full second without carrying it over. */
  predicate Normal(t: Timeval) {
    0 <= t.usec <= SECOND
  }

  function Carry(t: Timeval): Timeval
    decreases if t.usec > 0 then t.usec else 0
  {
    if t.usec > SECOND then Carry(Timeval(t.sec + 1, t.usec - SECOND)) else t
  }

  /** The delay is divided as a signed number. */
  function AddDelay(t: Timeval, delay: Word): Timeval {
    var quot := Truncate(S32(delay), 1000);
    Carry(Timeval(t.sec + quot, t.usec + (S32(delay) - 1000 * quot) * 1000))
  }

  function Start(now: Timeval, initial: Word, maxRetransmissions: nat): Timer {
    Timer(AddDelay(now, initial), initial, 0, maxRetransmissions)
  }

  /** Milliseconds until the deadline, in unsigned arithmetic. */
  function Remainder(timer: Timer, now: Timeval): Word {
    if now.sec > timer.deadline.sec then 0
    else
      var delay := U32(timer.deadline.sec - now.sec);
      if delay == 0 && now.usec >= timer.deadline.usec then 0
      else U32(U32(delay * 1000) + Truncate(timer.deadline.usec - now.usec, 1000))
  }

  function Refresh(timer: Timer, now: Timeval): (Timer, Outcome) {
    if Remainder(timer, now) != 0 then (timer, Success)
    else if timer.retransmissions >= timer.maxRetransmissions then (timer, Timeout)
    else
      var delay := U32(2 * timer.delay);
      (timer.(deadline := AddDelay(timer.deadline, delay), delay := delay,
              retransmissions := timer.retransmissions + 1), Retransmit)
  }

  // ---------------------------------------------------------------------
  // One call

  lemma {:induction false} CarryExact(t: Timeval)
    ensures Micros(Carry(t)) == Micros(t) && (0 <= t.usec ==> Normal(Carry(t)))
    decreases if t.usec > 0 then t.usec else 0
  {
    if t.usec > SECOND {
      CarryExact(Timeval(t.sec + 1, t.usec - SECOND));
    }
  }

  /** Adding a delay adds its signed value, whatever the carry. */
  lemma AddDelaySigned(t: Timeval, delay: Word)
    ensures Micros(AddDelay(t, delay)) == Micros(t) + 1000 * S32(delay)
    ensures Normal(t) && delay < TWO31 ==> Normal(AddDelay(t, delay))
  {
    var quot := Truncate(S32(delay), 1000);
    CarryExact(Timeval(t.sec + quot, t.usec + (S32(delay) - 1000 * quot) * 1000));
  }

  /** Adding a delay in milliseconds is exact if and only if it is below 2^31; a longer one
      moves the deadline back. */
  lemma AddDelayExactIff(t: Timeval, delay: Word)
    ensures Micros(AddDelay(t, delay)) == Micros(t) + 1000 * delay <==> delay < TWO31
    ensures delay >= TWO31 ==> Micros(AddDelay(t, delay)) < Micros(t)
  {
    AddDelaySigned(t, delay);
  }

  /** Less than 2^32 - 1 ms, so that the unsigned arithmetic of the remainder is exact. */
  predicate Near(timer: Timer, now: Timeval) {
    Micros(timer.deadline) - Micros(now) < 1000 * (TWO32 - 1)
  }

  /** The remainder before its conversion to 32 bits. */
  lemma RemainderExact(timer: Timer, now: Timeval)
    requires Normal(timer.deadline) && Reading(now) && Near(timer, now) && now.sec <= timer.deadline.sec
    requires now.sec < timer.deadline.sec || now.usec < timer.deadline.usec
    ensures var ms := (timer.deadline.sec - now.sec) * 1000 + Truncate(timer.deadline.usec - now.usec, 1000);
            Remainder(timer, now) == ms && 1000 * ms < Micros(timer.deadline) - Micros(now) + 1000
  {
    var secs, du := timer.deadline.sec - now.sec, timer.deadline.usec - now.usec;
    assert secs < 4300000;
    assert U32(secs) == secs;
    var tr := Truncate(du, 1000);
    assert -1000 <= tr <= 1000 && 1000 * tr < du + 1000 && du - 1000 < 1000 * tr;
    assert 1000 * (secs * 1000 + tr) < secs * SECOND + du + 1000;
    assert secs * 1000 + tr < TWO32;
    WrapFirst(secs * 1000, tr);
  }

  lemma WrapFirst(a: nat, b: int)
    requires 0 <= a + b < TWO32
    ensures U32(U32(a) + b) == a + b
  {
    assert U32(a) == a - (a / TWO32) * TWO32;
  }

  /** The timer has run out exactly when the deadline has passed or lies less
      than a millisecond ahead in the same second. */
  lemma RemainderZeroIff(timer: Timer, now: Timeval)
    requires Normal(timer.deadline) && Reading(now) && Near(timer, now)
    ensures var ahead := Micros(timer.deadline) - Micros(now);
            Remainder(timer, now) == 0 <==>
            ahead <= 0 || (ahead < 1000 && now.sec == timer.deadline.sec)
  {
    if now.sec <= timer.deadline.sec && (now.sec < timer.deadline.sec || now.usec < timer.deadline.usec) {
      RemainderExact(timer, now);
    }
  }

  // ---------------------------------------------------------------------
  // Any sequence of polls

  function Pow2(k: nat): (p: nat)
    ensures p > 0
  {
    if k == 0 then 1 else 2 * Pow2(k - 1)
  }

  /** The state after `k` retransmissions of a timer started at `start`. */
  ghost predicate After(timer: Timer, start: Timeval, initial: nat, max: nat, k: nat) {
    && timer.retransmissions == k <= max == timer.maxRetransmissions
    && timer.delay == initial * Pow2(k)
    && Normal(timer.deadline)
    && Micros(timer.deadline) == Micros(start) + 1000 * (initial * (Pow2(k + 1) - 1))
  }

  function Polls(timer: Timer, times: seq<Timeval>): (Timer, seq<Outcome>)
    decreases |times|
  {
    if times == [] then (timer, [])
    else
      var (timer', outcome) := Refresh(timer, times[0]);
      var (final, rest) := Polls(timer', times[1..]);
      (final, [outcome] + rest)
  }

  function Count(outcomes: seq<Outcome>, o: Outcome): nat {
    if outcomes == [] then 0 else (if outcomes[0] == o then 1 else 0) + Count(outcomes[1..], o)
  }

  lemma StartAfter(now: Timeval, initial: Word, max: nat)
    requires Reading(now) && initial < TWO31
    ensures After(Start(now, initial, max), now, initial, max, 0)
  {
    AddDelaySigned(now, initial);
    assert Pow2(1) == 2;
  }

  lemma {:induction false} Pow2Mono(i: nat, j: nat)
    requires i <= j
    ensures Pow2(i) <= Pow2(j)
    decreases j
  {
    if i < j {
      Pow2Mono(i, j - 1);
    }
  }

  lemma ShorterBefore(initial: nat, i: nat, j: nat)
    requires i <= j
    ensures initial * Pow2(i) <= initial * Pow2(j)
  {
    Pow2Mono(i, j);
    assert initial * (Pow2(j) - Pow2(i)) >= 0;
  }

  /** After a start, the deadline is never so far ahead that the remainder wraps. */
  lemma AfterNear(timer: Timer, start: Timeval, initial: nat, max: nat, k: nat, now: Timeval)
    requires After(timer, start, initial, max, k) && Micros(start) <= Micros(now)
    requires initial * Pow2(k) < TWO31
    ensures Near(timer, now)
  {
    var p := Pow2(k);
    assert initial * (2 * p - 1) == 2 * (initial * p) - initial;
  }

  lemma RefreshAfter(timer: Timer, start: Timeval, initial: nat, max: nat, k: nat, now: Timeval)
    requires After(timer, start, initial, max, k) && Reading(now) && Micros(start) <= Micros(now)
    requires initial * Pow2(max) < TWO31
    ensures var (timer', outcome) := Refresh(timer, now);
            match outcome
            case Success => timer' == timer
            case Retransmit => k < max && After(timer', start, initial, max, k + 1)
            case Timeout => k == max && timer' == timer
    ensures Refresh(timer, now).1 != Success ==>
              Micros(now) > Micros(start) + 1000 * (initial * (Pow2(k + 1) - 1)) - 1000
  {
    hide Remainder, AddDelay;
    ShorterBefore(initial, k, max);
    AfterNear(timer, start, initial, max, k, now);
    RemainderZeroIff(timer, now);
    if Refresh(timer, now).1 == Retransmit {
      ShorterBefore(initial, k + 1, max);
      Doubling(initial, k);
      AddDelaySigned(timer.deadline, 2 * timer.delay);
    }
  }

  lemma Doubling(initial: nat, k: nat)
    ensures 2 * (initial * Pow2(k)) == initial * Pow2(k + 1)
    ensures initial * (Pow2(k + 1) - 1) + initial * Pow2(k + 1) == initial * (Pow2(k + 2) - 1)
  {
    var p := Pow2(k);
    assert Pow2(k + 1) == 2 * p && Pow2(k + 2) == 4 * p;
    assert initial * (2 * p - 1) == 2 * (initial * p) - initial;
    assert initial * (4 * p - 1) == 4 * (initial * p) - initial;
    assert initial * (2 * p) == 2 * (initial * p);
  }

  /** Clock readings, none before the timer was started. */
  ghost predicate Since(start: Timeval, times: seq<Timeval>) {
    Reading(start) && forall t :: t in times ==> Reading(t) && Micros(start) <= Micros(t)
  }

  lemma {:induction false} PollsAfter(timer: Timer, start: Timeval, initial: nat, max: nat, k: nat, times: seq<Timeval>)
    requires After(timer, start, initial, max, k)
    requires Since(start, times) && initial * Pow2(max) < TWO31
    ensures var (final, outcomes) := Polls(timer, times);
            && |outcomes| == |times|
            && k + Count(outcomes, Retransmit) <= max
            && After(final, start, initial, max, k + Count(outcomes, Retransmit))
            && (Count(outcomes, Timeout) > 0 ==> k + Count(outcomes, Retransmit) == max)
            && forall i :: 0 <= i < |times| && outcomes[i] == Timeout ==>
                 Micros(times[i]) > Micros(start) + 1000 * (initial * (Pow2(max + 1) - 1)) - 1000
    decreases |times|
  {
    hide Refresh, Pow2, Micros;
    if times != [] {
      var (timer', outcome) := Refresh(timer, times[0]);
      RefreshAfter(timer, start, initial, max, k, times[0]);
      var k' := if outcome == Retransmit then k + 1 else k;
      assert forall t :: t in times[1..] ==> t in times;
      PollsAfter(timer', start, initial, max, k', times[1..]);
      var (final, rest) := Polls(timer', times[1..]);
      assert ([outcome] + rest)[1..] == rest;
      forall i | 0 <= i < |times| && ([outcome] + rest)[i] == Timeout
        ensures Micros(times[i]) > Micros(start) + 1000 * (initial * (Pow2(max + 1) - 1)) - 1000
      {
        if i > 0 {
          assert rest[i - 1] == Timeout && times[1..][i - 1] == times[i];
        }
      }
    }
  }

  /** What the documentation promises of a timer polled at the given times: after k
      retransmissions the deadline is start + initial * (2^(k+1) - 1) ms; a timeout is
      reported only after exactly the allowed number of retransmissions, and less than
      1 ms before the documented total at the earliest. */
  ghost predicate AsDocumented(start: Timeval, initial: Word, max: nat, times: seq<Timeval>) {
    var (final, outcomes) := Polls(Start(start, initial, max), times);
    var k := Count(outcomes, Retransmit);
    && |outcomes| == |times|
    && final.retransmissions == k <= max
    && Micros(final.deadline) == Micros(start) + 1000 * (initial * (Pow2(k + 1) - 1))
    && (Count(outcomes, Timeout) > 0 ==> k == max)
    && forall i :: 0 <= i < |times| && outcomes[i] == Timeout ==>
         Micros(times[i]) > Micros(start) + 1000 * (initial * (Pow2(max + 1) - 1)) - 1000
  }

  /** As long as the longest delay stays below 2^31 ms, every timer behaves as documented,
      for any polling times. */
  lemma TotalTimeout(start: Timeval, initial: Word, max: nat, times: seq<Timeval>)
    requires Since(start, times) && initial * Pow2(max) < TWO31
    ensures AsDocumented(start, initial, max, times)
  {
    hide Polls, Start, Pow2, Micros, Count;
    InitialShort(initial, max);
    StartAfter(start, initial, max);
    PollsAfter(Start(start, initial, max), start, initial, max, 0, times);
  }

  lemma InitialShort(initial: nat, max: nat)
    ensures initial <= initial * Pow2(max)
  {
    ShorterBefore(initial, 0, max);
    assert Pow2(0) == 1;
  }

  /** A reading at which the deadline has certainly passed. */
  function Past(deadline: Timeval): Timeval {
    Timeval(deadline.sec + 1, 0)
  }

  lemma PastIsSince(timer: Timer, start: Timeval, initial: nat, max: nat, k: nat)
    requires After(timer, start, initial, max, k) && Reading(start)
    ensures Reading(Past(timer.deadline)) && Micros(start) <= Micros(Past(timer.deadline))
    ensures Remainder(timer, Past(timer.deadline)) == 0
  {
    assert initial * (Pow2(k + 1) - 1) >= 0;
  }

  /** Polled past each deadline, the timer reaches the first delay of 2^31 ms or more. */
  lemma {:induction false} Overflows(timer: Timer, start: Timeval, initial: nat, max: nat, j: nat, k: nat)
    returns (times: seq<Timeval>)
    requires After(timer, start, initial, max, j) && j < k <= max && Reading(start)
    requires initial * Pow2(k - 1) < TWO31 <= initial * Pow2(k)
    ensures Since(start, times)
    ensures var (final, outcomes) := Polls(timer, times);
            && Count(outcomes, Retransmit) == k - j
            && Micros(final.deadline) != Micros(start) + 1000 * (initial * (Pow2(k + 1) - 1))
    decreases k - j
  {
    hide Remainder, AddDelay, Pow2, Micros;
    var now := Past(timer.deadline);
    PastIsSince(timer, start, initial, max, j);
    var (timer', outcome) := Refresh(timer, now);
    Doubling(initial, j);
    ShorterBefore(initial, j, k - 1);
    AddDelaySigned(timer.deadline, 2 * timer.delay);
    if j + 1 < k {
      ShorterBefore(initial, j + 1, k - 1);
      times := Overflows(timer', start, initial, max, j + 1, k);
    } else {
      times := [];
    }
    var (final, rest) := Polls(timer', times);
    assert ([now] + times)[1..] == times;
    assert ([outcome] + rest)[1..] == rest;
    times := [now] + times;
  }

  /** The first delay of 2^31 ms or more. */
  lemma {:induction false} FirstLong(initial: nat, max: nat) returns (k: nat)
    requires initial < TWO31 <= initial * Pow2(max)
    ensures 0 < k <= max && initial * Pow2(k - 1) < TWO31 <= initial * Pow2(k)
  {
    if max == 0 {
      assert false;
    } else if initial * Pow2(max - 1) < TWO31 {
      k := max;
    } else {
      k := FirstLong(initial, max - 1);
    }
  }

  /** Once the longest delay reaches 2^31 ms, there are polling times at which the timer
      does not behave as documented. */
  lemma TotalTimeoutFails(start: Timeval, initial: Word, max: nat) returns (times: seq<Timeval>)
    requires Reading(start) && initial * Pow2(max) >= TWO31
    ensures Since(start, times) && !AsDocumented(start, initial, max, times)
  {
    hide AddDelay;
    if initial >= TWO31 {
      times := [];
      AddDelayExactIff(start, initial);
      assert Pow2(1) == 2;
    } else {
      var k := FirstLong(initial, max);
      StartAfter(start, initial, max);
      times := Overflows(Start(start, initial, max), start, initial, max, 0, k);
    }
  }

  /** The default timeout with 22 retransmissions is such a timer. */
  lemma LongTimerExists()
    ensures 600 * Pow2(21) < TWO31 <= 600 * Pow2(22)
  {
    assert Pow2(5) == 32;
    assert Pow2(10) == 1024;
    assert Pow2(15) == 32768;
    assert Pow2(20) == 1048576;
  }

  /** A poll at or after the deadline is never ignored. */
  lemma DeadlineIsNoticed(timer: Timer, now: Timeval)
    requires Normal(timer.deadline) && Reading(now) && Micros(timer.deadline) <= Micros(now)
    ensures Refresh(timer, now).1 ==
            if timer.retransmissions >= timer.maxRetransmissions then Timeout else Retransmit
  {
    RemainderZeroIff(timer, now);
  }

  // ---------------------------------------------------------------------
  // The timer object

  class StunTimerObject {
    var deadline: Timeval
    var delay: Word
    var retransmissions: nat
    var maxRetransmissions: nat

    ghost function Model(): Timer
      reads this
    {
      Timer(deadline, delay, retransmissions, maxRetransmissions)
    }

    /** Move the deadline by `ms` milliseconds. */
    method Extend(ms: Word)
      modifies this`deadline
      ensures deadline == AddDelay(old(deadline), ms)
    {
      var quot := Truncate(S32(ms), 1000);
      deadline := Timeval(deadline.sec + quot, deadline.usec + (S32(ms) - 1000 * quot) * 1000);
      while deadline.usec > SECOND
        invariant Carry(deadline) == AddDelay(old(deadline), ms)
        decreases deadline.usec
      {
        deadline := Timeval(deadline.sec + 1, deadline.usec - SECOND);
      }
    }

    method Restart(now: Timeval, initial: Word, max: nat)
      modifies this
      ensures Model() == Start(now, initial, max)
    {
      deadline := now;
      retransmissions := 0;
      delay := initial;
      maxRetransmissions := max;
      Extend(delay);
    }

    method Poll(now: Timeval) returns (outcome: Outcome)
      modifies this
      ensures (Model(), outcome) == Refresh(old(Model()), now)
    {
      if Remainder(Timer(deadline, delay, retransmissions, maxRetransmissions), now) != 0 {
        return Success;
      }
      if retransmissions >= maxRetransmissions {
        return Timeout;
      }
      delay := U32(2 * delay);
      Extend(delay);
      retransmissions := retransmissions + 1;
      outcome := Retransmit;
    }
  }
}
