/**
 * The fifteen-minute writing timer of the editor shell (App.tsx): the
 * countdown state machine driven by interval ticks, typing and resets, and
 * the "mm:ss" rendering of the remaining seconds.
 */
module Countdown {

  /** The session length, in seconds. */
  const SessionSeconds := 900

  /** `timerSeconds` and `isTimerRunning`. */
  datatype Timer = Timer(seconds: int, running: bool)

  /**
   * The states reachable from a reset: the count lies in [0, 900], a running
   * timer has time left, and a stopped timer shows either the full session
   * or zero.
   */
  predicate Valid(t: Timer) {
    && 0 <= t.seconds <= SessionSeconds
    && (t.running ==> t.seconds > 0)
    && (!t.running ==> t.seconds == 0 || t.seconds == SessionSeconds)
  }

  /** The reset button, a new entry and loading an entry: back to the full session, stopped. */
  function Reset(): (t: Timer)
    ensures Valid(t) && !t.running && t.seconds == SessionSeconds
  {
    Timer(SessionSeconds, false)
  }

  /** Typing starts the timer only when it is stopped at exactly the full session. */
  function Arm(t: Timer): (r: Timer)
    ensures r.seconds == t.seconds
    ensures r.running <==> t.running || t.seconds == SessionSeconds
    ensures Valid(t) ==> Valid(r)
  {
    if !t.running && t.seconds == SessionSeconds then Timer(t.seconds, true) else t
  }

  /**
   * One interval tick. The interval exists only while the timer runs with
   * time left; then the count drops by one and the timer stops when it
   * reaches zero. Otherwise nothing changes.
   */
  function Tick(t: Timer): (r: Timer)
    ensures t.running && t.seconds > 0 ==>
      r.seconds == t.seconds - 1 && (r.running <==> r.seconds > 0)
    ensures !(t.running && t.seconds > 0) ==> r == t
    ensures t.seconds >= 0 ==> r.seconds >= 0
    ensures Valid(t) ==> Valid(r)
  {
    if t.running && t.seconds > 0 then
      if t.seconds <= 1 then Timer(0, false) else Timer(t.seconds - 1, true)
    else t
  }

  /** `k` ticks in a row. */
  function Ticks(t: Timer, k: nat): Timer {
    if k == 0 then t else Tick(Ticks(t, k - 1))
  }

  /** Started with `s` seconds left, the timer counts down once per tick and freezes at zero. */
  lemma {:induction false} TicksFrom(s: int, k: nat)
    requires s > 0
    ensures Ticks(Timer(s, true), k) == if k < s then Timer(s - k, true) else Timer(0, false)
  {
    if k > 0 {
      TicksFrom(s, k - 1);
    }
  }

  /** From a full session, after `k` ticks: 900 - k seconds left while k < 900, then stopped at zero. */
  lemma SessionCountdown(k: nat)
    ensures Ticks(Timer(SessionSeconds, true), k)
         == if k < SessionSeconds then Timer(SessionSeconds - k, true) else Timer(0, false)
  {
    TicksFrom(SessionSeconds, k);
  }

  /** What can happen to the timer: an interval tick, a keystroke, a reset. */
  datatype Event = TickEvent | Typed | ResetEvent

  function Step(t: Timer, e: Event): Timer {
    match e
    case TickEvent => Tick(t)
    case Typed => Arm(t)
    case ResetEvent => Reset()
  }

  function Run(t: Timer, events: seq<Event>): Timer
    decreases events
  {
    if events == [] then t else Run(Step(t, events[0]), events[1..])
  }

  /** Every sequence of ticks, keystrokes and resets keeps the timer in its reachable states. */
  lemma {:induction false} RunValid(t: Timer, events: seq<Event>)
    requires Valid(t)
    ensures Valid(Run(t, events))
    decreases events
  {
    if events != [] {
      RunValid(Step(t, events[0]), events[1..]);
    }
  }

  /** Once expired, neither ticks nor typing move the timer: it stays at zero until a reset. */
  lemma {:induction false} ExpiredStaysExpired(events: seq<Event>)
    requires forall i :: 0 <= i < |events| ==> events[i] != ResetEvent
    ensures Run(Timer(0, false), events) == Timer(0, false)
  {
    if events != [] {
      ExpiredStaysExpired(events[1..]);
    }
  }

  // ---- formatTime ----

  function Digit(d: nat): (c: char)
    requires d < 10
    ensures '0' <= c <= '9'
  {
    (48 + d) as char
  }

  function DigitValue(c: char): nat
    requires '0' <= c <= '9'
  {
    c as int - 48
  }

  /** `n.toString()` for a natural number. */
  function DecimalString(n: nat): (r: string)
    ensures |r| >= 1
    ensures forall i :: 0 <= i < |r| ==> '0' <= r[i] <= '9'
    ensures n < 10 <==> |r| == 1
    ensures n >= 100 ==> |r| >= 3
  {
    if n < 10 then [Digit(n)] else DecimalString(n / 10) + [Digit(n % 10)]
  }

  /** `padStart(2, '0')`. */
  function PadStart2(s: string): (r: string)
    ensures |s| >= 2 ==> r == s
    ensures |s| < 2 ==> |r| == 2 && r[2 - |s|..] == s && forall i :: 0 <= i < 2 - |s| ==> r[i] == '0'
  {
    if |s| >= 2 then s else if |s| == 1 then "0" + s else "00"
  }

  lemma TwoDigits(n: nat)
    requires n < 100
    ensures PadStart2(DecimalString(n)) == [Digit(n / 10), Digit(n % 10)]
  {
    if n >= 10 {
      assert DecimalString(n / 10) == [Digit(n / 10)];
    }
  }

  /** The "mm:ss" label of the timer button: minutes and seconds, each padded to two digits. */
  function FormatTime(secs: nat): (r: string)
    ensures |r| >= 5
    ensures |r| == 5 <==> secs < 6000
    ensures r[|r| - 3] == ':'
  {
    PadStart2(DecimalString(secs / 60)) + ":" + PadStart2(DecimalString(secs % 60))
  }

  predicate IsClockText(r: string) {
    |r| == 5 && r[2] == ':' && forall i :: 0 <= i < 5 && i != 2 ==> '0' <= r[i] <= '9'
  }

  /** Reads "mm:ss" back as a number of seconds. */
  function ParseTime(r: string): nat
    requires IsClockText(r)
  {
    60 * (10 * DigitValue(r[0]) + DigitValue(r[1])) + 10 * DigitValue(r[3]) + DigitValue(r[4])
  }

  /**
   * Below 100 minutes (so for every count the timer can show, 0 to 900) the
   * label is exactly "mm:ss", its seconds field is below 60, and reading it
   * back gives the count.
   */
  lemma FormatTimeRoundTrip(secs: nat)
    requires secs < 6000
    ensures IsClockText(FormatTime(secs))
    ensures 10 * DigitValue(FormatTime(secs)[3]) + DigitValue(FormatTime(secs)[4]) < 60
    ensures ParseTime(FormatTime(secs)) == secs
  {
    TwoDigits(secs / 60);
    TwoDigits(secs % 60);
  }
}
