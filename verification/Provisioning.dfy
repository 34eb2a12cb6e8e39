/** Throttling relay-secret provisioning: one deadline, shared by concurrent callers under a lock. */
module Provisioning {
  import opened Optional

  /** Durations in nanoseconds. */
  const SECOND: int := 1_000_000_000
  const RETRY_INTERVAL: int := 15 * 60 * SECOND
  const MAX_JITTER: int := 5 * 60 * SECOND
  const DAY: int := 24 * 60 * 60 * SECOND
  const MAX_DURATION: int := 0x7FFF_FFFF_FFFF_FFFF
  const TWO_64: int := 0x1_0000_0000_0000_0000

  /** 64-bit addition of durations. */
  function Add64(a: int, b: int): int
  {
    var s := (a + b) % TWO_64;
    if s > MAX_DURATION then s - TWO_64 else s
  }

  // ------------------------------------------------------------ jitter

  function Tenth(d: int): int
  {
    if d >= 0 then d / 10 else -((-d) / 10)
  }

  function JitterWindow(retryAfter: int): int
  {
    var window := Tenth(retryAfter);
    if window > MAX_JITTER then MAX_JITTER else if window <= 0 then 0 else window
  }

  /** `hash` is the 64-bit hash of the server id; masking drops its top bit. */
  function Jitter(hash: int, retryAfter: int): int
    requires 0 <= hash < TWO_64
  {
    var window := JitterWindow(retryAfter);
    if window == 0 then 0 else (hash % (MAX_DURATION + 1)) % (window + 1)
  }

  /** The jitter stays within a tenth of the wait and five minutes, and every intermediate value of
      the masked modulus is a non-negative 64-bit number. */
  lemma JitterBounds(hash: int, retryAfter: int)
    requires 0 <= hash < TWO_64
    ensures 0 <= Jitter(hash, retryAfter) <= MAX_JITTER
    ensures retryAfter >= 0 ==> Jitter(hash, retryAfter) <= retryAfter / 10
    ensures retryAfter <= 0 ==> Jitter(hash, retryAfter) == 0
    ensures 0 <= hash % (MAX_DURATION + 1) <= MAX_DURATION
    ensures 1 <= JitterWindow(retryAfter) + 1 <= MAX_DURATION
  {
  }

  /** The jitter is the hash without its top bit, reduced modulo one more than the window. */
  lemma JitterIsReduced(hash: int, retryAfter: int) returns (k: int)
    requires 0 <= hash < TWO_64 && retryAfter >= 0
    ensures var window := if retryAfter / 10 > MAX_JITTER then MAX_JITTER else retryAfter / 10;
            && 0 <= Jitter(hash, retryAfter) <= window
            && hash % 0x8000_0000_0000_0000 == k * (window + 1) + Jitter(hash, retryAfter)
  {
    var window := JitterWindow(retryAfter);
    var masked := hash % (MAX_DURATION + 1);
    k := masked / (window + 1);
    assert masked == k * (window + 1) + masked % (window + 1);
    if window == 0 {
      assert masked % 1 == 0;
    }
  }

  // ------------------------------------------------------------ the server's Retry-After

  /** The header after trimming: missing, a decimal integer of any size, a date, or anything else. */
  datatype Header = Missing | Integer(seconds: int) | Date(when: int) | Malformed

  /** The distance between two clock readings, kept within a 64-bit duration. */
  function Since(when: int, now: int): int
  {
    var d := when - now;
    if d > MAX_DURATION then MAX_DURATION else if d < -MAX_DURATION - 1 then -MAX_DURATION - 1 else d
  }

  /** An integer beyond 64 bits fails to parse, is no date either, and counts as no header at all. */
  function RetryAfter(header: Header, now: int): int
  {
    match header
    case Missing => 0
    case Malformed => 0
    case Integer(seconds) =>
      if seconds > MAX_DURATION || seconds < -MAX_DURATION - 1 then 0
      else if seconds <= 0 then 0
      else if seconds > DAY / SECOND then DAY
      else seconds * SECOND
    case Date(when) =>
      var d := Since(when, now);
      if d <= 0 then 0 else if d > DAY then DAY else d
  }

  /** The wait a header asks for, kept between nothing and a day. */
  function Asked(header: Header, now: int): int
    requires header.Integer? || header.Date?
  {
    var d := if header.Integer? then header.seconds * SECOND else header.when - now;
    if d <= 0 then 0 else if d > DAY then DAY else d
  }

  /** Whatever the server sends, the wait lies between nothing and a day. It is what the header asks
      for within those bounds if and only if the number fits 64 bits: a larger one is not taken for a
      day but for nothing. */
  lemma RetryAfterExactly(header: Header, now: int)
    ensures 0 <= RetryAfter(header, now) <= DAY
    ensures header.Integer? || header.Date? ==>
              (RetryAfter(header, now) == Asked(header, now) <==>
               !(header.Integer? && header.seconds > MAX_DURATION))
    ensures header == Missing || header == Malformed ==> RetryAfter(header, now) == 0
  {
    assert DAY == 86400 * SECOND;
  }

  /** The first number that does not fit asks for a day and gets nothing. */
  lemma TooLongIsIgnored(now: int)
    ensures RetryAfter(Integer(MAX_DURATION + 1), now) == 0 && Asked(Integer(MAX_DURATION + 1), now) == DAY
  {
  }

  // ------------------------------------------------------------ the shared deadline

  /** What a caller does under the lock: ask for an attempt, or report the server's answer. Both
      carry the caller's own clock reading, taken before the lock was held; `readAt` is the clock when
      the answer's header was read. */
  datatype Event = Attempt(now: int) | Answer(now: int, header: Header, readAt: int)
  {
    function Wait(): int
    {
      if Answer? then RetryAfter(header, readAt) else 0
    }
  }

  predicate Admits(deadline: Option<int>, now: int)
  {
    deadline == None || now >= deadline.value
  }

  function AfterAttempt(deadline: Option<int>, now: int): Option<int>
  {
    if Admits(deadline, now) then Some(now + RETRY_INTERVAL) else deadline
  }

  function AfterAnswer(deadline: Option<int>, now: int, retryAfter: int, hash: int): Option<int>
    requires 0 <= hash < TWO_64
  {
    if retryAfter <= RETRY_INTERVAL then deadline
    else
      var retryAt := now + Add64(retryAfter, Jitter(hash, retryAfter));
      if deadline == None || retryAt > deadline.value then Some(retryAt) else deadline
  }

  function Deadline(events: seq<Event>, hash: int): Option<int>
    requires 0 <= hash < TWO_64
  {
    if events == [] then None
    else
      var d := Deadline(events[..|events| - 1], hash);
      match events[|events| - 1]
      case Attempt(now) => AfterAttempt(d, now)
      case Answer(now, header, readAt) => AfterAnswer(d, now, RetryAfter(header, readAt), hash)
  }

  predicate NotBefore(d: Option<int>, e: Option<int>)
  {
    d == None || (e.Some? && d.value <= e.value)
  }

  /** The deadline never decreases, whatever the callers' clocks say. */
  lemma {:induction false} DeadlineIsMonotone(events: seq<Event>, hash: int, i: nat, j: nat)
    requires 0 <= hash < TWO_64 && i <= j <= |events|
    ensures NotBefore(Deadline(events[..i], hash), Deadline(events[..j], hash))
    decreases j
  {
    if i < j {
      DeadlineIsMonotone(events, hash, i, j - 1);
      assert events[..j][..j - 1] == events[..j - 1];
    }
  }

  /** The event at `k` is an attempt that goes through. */
  predicate Admitted(events: seq<Event>, hash: int, k: nat)
    requires 0 <= hash < TWO_64
  {
    k < |events| && events[k].Attempt? && Admits(Deadline(events[..k], hash), events[k].now)
  }

  /** Any two attempts that go through read clocks at least fifteen minutes apart. */
  lemma AttemptsAreSpaced(events: seq<Event>, hash: int, i: nat, j: nat)
    requires 0 <= hash < TWO_64 && i < j
    requires Admitted(events, hash, i) && Admitted(events, hash, j)
    ensures events[j].now >= events[i].now + RETRY_INTERVAL
  {
    assert events[..i + 1][..i] == events[..i];
    assert Deadline(events[..i + 1], hash) == Some(events[i].now + RETRY_INTERVAL);
    DeadlineIsMonotone(events, hash, i + 1, j);
  }

  /** Within a day the 64-bit sum of wait and jitter is the true one. */
  lemma WaitsDoNotWrap(retryAfter: int, hash: int)
    requires 0 <= hash < TWO_64 && 0 <= retryAfter <= DAY
    ensures Add64(retryAfter, Jitter(hash, retryAfter)) == retryAfter + Jitter(hash, retryAfter)
  {
    JitterBounds(hash, retryAfter);
  }

  /** A wait longer than the local floor is honoured by every later attempt, plus the jitter. */
  lemma BackoffIsHonoured(events: seq<Event>, hash: int, k: nat, j: nat)
    requires 0 <= hash < TWO_64 && k < j && k < |events|
    requires events[k].Answer? && RETRY_INTERVAL < events[k].Wait()
    requires Admitted(events, hash, j)
    ensures events[j].now >= events[k].now + events[k].Wait() + Jitter(hash, events[k].Wait())
  {
    RetryAfterExactly(events[k].header, events[k].readAt);
    WaitsDoNotWrap(events[k].Wait(), hash);
    assert events[..k + 1][..k] == events[..k];
    DeadlineIsMonotone(events, hash, k + 1, j);
  }

  /** No sequence of answers suppresses the attempts for good: one is let through at the latest a day
      and five minutes after the last clock reading. */
  lemma {:induction false} AttemptsResume(events: seq<Event>, hash: int, last: int)
    requires 0 <= hash < TWO_64
    requires forall i :: 0 <= i < |events| ==> events[i].now <= last
    ensures Admits(Deadline(events, hash), last + DAY + MAX_JITTER)
  {
    if events != [] {
      var init, e := events[..|events| - 1], events[|events| - 1];
      assert forall i :: 0 <= i < |init| ==> init[i] == events[i];
      AttemptsResume(init, hash, last);
      if e.Answer? {
        RetryAfterExactly(e.header, e.readAt);
        WaitsDoNotWrap(e.Wait(), hash);
        JitterBounds(hash, e.Wait());
      }
    }
  }

  // ------------------------------------------------------------ the daemon's field

  class Throttle {
    var retryAt: Option<int>
    const hash: int

    ghost predicate Valid()
    {
      0 <= hash < TWO_64
    }

    constructor (hash: int)
      requires 0 <= hash < TWO_64
      ensures Valid() && this.hash == hash && retryAt == None
    {
      this.hash, retryAt := hash, None;
    }

    /** First critical section: the floor is installed before the network call. */
    method Begin(now: int) returns (go: bool)
      modifies this
      ensures go == Admits(old(retryAt), now) && retryAt == AfterAttempt(old(retryAt), now)
    {
      if retryAt != None && now < retryAt.value {
        return false;
      }
      retryAt := Some(now + RETRY_INTERVAL);
      return true;
    }

    /** Second critical section: a longer wait extends the deadline, never shortens it. */
    method Finish(now: int, retryAfter: int)
      requires Valid()
      modifies this
      ensures retryAt == AfterAnswer(old(retryAt), now, retryAfter, hash)
    {
      if retryAfter > RETRY_INTERVAL {
        var at := now + Add64(retryAfter, Jitter(hash, retryAfter));
        if retryAt == None || at > retryAt.value {
          retryAt := Some(at);
        }
      }
    }
  }
}
