/**
  The port's microsecond time source: a 32-bit free-running hardware counter that
  ticks three times every four microseconds, the tick/microsecond conversions, and
  the compare ("wake me at") scheduling with its guard band near the current time.
*/
module Timer {
  import opened PortTypes

  /** The longest forward distance, in ticks, that is still taken to lie in the future. */
  const MaxCompareDuration: Uint32 := 0x7FFF_FFFF

  /** Deadlines closer than this many ticks to "now" fire at once (about 30 us). */
  const EventGuardTimeTicks: Uint32 := 40

  /** The counter's load value: (2^32 - 1) * 3 / 4, rounded down. */
  const LoadValue: Uint32 := 3221225471

  // ---------------------------------------------------------------------------
  // Conversions (3 ticks == 4 us)
  // ---------------------------------------------------------------------------

  /** Ticks to microseconds, computed in 64 bits and cast back to 32 bits. */
  function TicksToUs(ticks: Uint32): (us: Uint32)
    ensures ticks <= LoadValue ==> us * 3 <= ticks * 4 < us * 3 + 3
  {
    (ticks * 4 / 3) % Two32
  }

  /** Microseconds to ticks, computed in 64 bits; the result always fits 32 bits. */
  function UsToTicks(us: Uint32): (ticks: Uint32)
    ensures ticks * 4 <= us * 3 < ticks * 4 + 4
    ensures ticks <= us
  {
    us * 3 / 4
  }

  /** Above the load value the 32-bit cast truncates: the result wraps below the input. */
  lemma TicksToUsWrapsAboveLoad(ticks: Uint32)
    requires ticks > LoadValue
    ensures TicksToUs(ticks) == ticks * 4 / 3 - Two32
    ensures TicksToUs(ticks) < ticks
  {
    assert Two32 <= ticks * 4 / 3 < 2 * Two32;
  }

  /** The conversions are exact on multiples: 3k ticks are 4k microseconds and back. */
  lemma ConversionsExactOnMultiples(k: nat)
    requires 4 * k < Two32
    ensures TicksToUs(3 * k) == 4 * k
    ensures UsToTicks(4 * k) == 3 * k
  {
    assert 3 * k <= LoadValue;
  }

  lemma TicksToUsMonotone(a: Uint32, b: Uint32)
    requires a <= b <= LoadValue
    ensures TicksToUs(a) <= TicksToUs(b)
  {
  }

  lemma UsToTicksMonotone(a: Uint32, b: Uint32)
    requires a <= b
    ensures UsToTicks(a) <= UsToTicks(b)
  {
  }

  /** A microsecond value sent through ticks and back loses at most one microsecond. */
  lemma UsRoundTrip(us: Uint32)
    ensures us - 1 <= TicksToUs(UsToTicks(us)) <= us
  {
    var t := UsToTicks(us);
    assert t <= LoadValue;
  }

  /** A tick value sent through microseconds and back loses at most one tick. */
  lemma TicksRoundTrip(ticks: Uint32)
    requires ticks <= LoadValue
    ensures ticks - 1 <= UsToTicks(TicksToUs(ticks)) <= ticks
  {
  }

  // ---------------------------------------------------------------------------
  // Compare scheduling
  // ---------------------------------------------------------------------------

  /** How far ahead of `now` the counter value `target` lies, going forward around the wrap. */
  function Ahead(now: Uint32, target: Uint32): (d: Uint32)
    ensures Add32(now, d) == target
  {
    (target - now) % Two32
  }

  /**
    The comparison made before programming the match register: the deadline, less the
    guard time, is less than the maximal compare duration ahead of `now`.
  */
  predicate GuardAdmits(compareTicks: Uint32, nowTicks: Uint32)
  {
    Sub32(Sub32(compareTicks, EventGuardTimeTicks), nowTicks) < MaxCompareDuration
  }

  /** The guard admits exactly the deadlines between 40 ticks and 40 + 0x7FFFFFFF ticks ahead. */
  lemma GuardAdmitsIff(compareTicks: Uint32, nowTicks: Uint32)
    ensures GuardAdmits(compareTicks, nowTicks) <==>
      EventGuardTimeTicks <= Ahead(nowTicks, compareTicks) < EventGuardTimeTicks + MaxCompareDuration
  {
    var x := Ahead(nowTicks, compareTicks);
    var g := Sub32(Sub32(compareTicks, EventGuardTimeTicks), nowTicks);
    assert (g - x + EventGuardTimeTicks) % Two32 == 0;
    if x >= EventGuardTimeTicks {
      assert g == x - EventGuardTimeTicks;
    } else {
      assert g == x - EventGuardTimeTicks + Two32;
    }
  }

  /** What SetCompare does once the match interrupt is enabled. */
  datatype CompareAction = ProgramMatch(matchValue: Uint32) | FireNow

  /** The decision of SetCompare for a deadline in microseconds and the raw counter in ticks. */
  function CompareDecision(compareValueUs: Uint32, nowTicks: Uint32): (a: CompareAction)
    ensures a.ProgramMatch? ==> a.matchValue == UsToTicks(compareValueUs)
    ensures a.ProgramMatch? <==>
      EventGuardTimeTicks <= Ahead(nowTicks, UsToTicks(compareValueUs)) < EventGuardTimeTicks + MaxCompareDuration
  {
    var c := UsToTicks(compareValueUs);
    GuardAdmitsIff(c, nowTicks);
    if GuardAdmits(c, nowTicks) then ProgramMatch(c) else FireNow
  }

  /**
    The guard boundary: a deadline exactly 40 ticks ahead is programmed, one 39 ticks
    ahead fires at once, and so does one up to 2^31 - 39 ticks in the past; one 2^31 - 38
    ticks in the past is read as lying far ahead and is programmed.
  */
  lemma GuardBoundary(nowTicks: Uint32, pastBy: int)
    requires 1 <= pastBy <= Two32 / 2 - EventGuardTimeTicks + 1
    ensures GuardAdmits(Add32(nowTicks, EventGuardTimeTicks), nowTicks)
    ensures !GuardAdmits(Add32(nowTicks, EventGuardTimeTicks - 1), nowTicks)
    ensures !GuardAdmits(Sub32(nowTicks, pastBy), nowTicks)
    ensures GuardAdmits(Sub32(nowTicks, Two32 / 2 - EventGuardTimeTicks + 2), nowTicks)
  {
    GuardAtOffset(nowTicks, EventGuardTimeTicks);
    GuardAtOffset(nowTicks, EventGuardTimeTicks - 1);
    GuardPastBy(nowTicks, pastBy);
    GuardPastBy(nowTicks, Two32 / 2 - EventGuardTimeTicks + 2);
  }

  /** The guard on a deadline `d` ticks ahead of `now`. */
  lemma GuardAtOffset(nowTicks: Uint32, d: Uint32)
    ensures GuardAdmits(Add32(nowTicks, d), nowTicks) <==>
      EventGuardTimeTicks <= d < EventGuardTimeTicks + MaxCompareDuration
  {
    AheadOfOffset(nowTicks, d);
    GuardAdmitsIff(Add32(nowTicks, d), nowTicks);
  }

  /** The guard on a deadline `k` ticks before `now`: it lies 2^32 - k ticks ahead. */
  lemma GuardPastBy(nowTicks: Uint32, k: int)
    requires 1 <= k < Two32
    ensures GuardAdmits(Sub32(nowTicks, k), nowTicks) <==>
      EventGuardTimeTicks <= Two32 - k < EventGuardTimeTicks + MaxCompareDuration
  {
    assert Sub32(nowTicks, k) == Add32(nowTicks, Two32 - k);
    GuardAtOffset(nowTicks, Two32 - k);
  }

  /** The forward distance to `now + d` is `d`. */
  lemma AheadOfOffset(now: Uint32, d: Uint32)
    ensures Ahead(now, Add32(now, d)) == d
  {
    var t := Add32(now, d);
    if now + d < Two32 {
      assert t == now + d;
    } else {
      assert t == now + d - Two32;
    }
  }

  /** The longest compare duration the MAC may ask for. */
  function GetMaxCompareDuration(): (d: Uint32)
    ensures d == Two32 / 2 - 1
  {
    MaxCompareDuration
  }

  // ---------------------------------------------------------------------------
  // The timer descriptor
  // ---------------------------------------------------------------------------

  /** An opaque hardware timer handle (non-null). */
  type TimerHandle = nat

  /** The calls the port makes on the timer hardware and on the MAC's compare callback. */
  datatype TimerCall =
    | Open
    | SetLoadValue(value: Uint32)
    | RegisterIsr
    | Start
    | Stop
    | UnregisterIsr
    | Close
    | EnableMatchInterrupt
    | SetMatchValue(value: Uint32)
    | ForcePending
    | DisableMatchInterrupt
    | InvokeCallback(callback: CallbackRef, context: ContextRef)

  /** The calls made when tearing down a timer whose handle is `h`. */
  function TeardownCalls(h: Option<TimerHandle>): (calls: seq<TimerCall>)
    ensures h.None? <==> calls == []
  {
    if h.Some? then [Stop, UnregisterIsr, Close] else []
  }

  /** The calls SetCompare makes after enabling the match interrupt. */
  function CompareCalls(a: CompareAction): (calls: seq<TimerCall>)
    ensures |calls| == 1
    ensures a.ProgramMatch? <==> calls[0].SetMatchValue?
  {
    match a
    case ProgramMatch(v) => [SetMatchValue(v)]
    case FireNow => [ForcePending]
  }

  /** The file-level timer descriptor: the MAC's compare callback, its context and the hardware handle. */
  class TimerPort {
    var callback: Option<CallbackRef>
    var context: ContextRef
    var hTimer: Option<TimerHandle>
    ghost var calls: seq<TimerCall>

    /** Static zero initialisation. */
    constructor ()
      ensures callback == None && context == 0 && hTimer == None && calls == []
    {
      callback, context, hTimer := None, 0, None;
      calls := [];
    }

    /**
      Tears down any earlier timer, records the callback and context, opens the timer
      (`openResult` is what the driver returns) and starts it. A failed open hangs the
      port (`hung`), with the handle left null.
    */
    method Init(compareCallback: Option<CallbackRef>, ctx: ContextRef, openResult: Option<TimerHandle>)
      returns (hung: bool)
      modifies this
      ensures callback == compareCallback && context == ctx && hTimer == openResult
      ensures hung <==> openResult.None?
      ensures calls == old(calls) + TeardownCalls(old(hTimer)) + [Open]
                       + (if hung then [] else [SetLoadValue(LoadValue), RegisterIsr, Start])
    {
      Deinit();
      callback, context, hTimer := compareCallback, ctx, None;
      hTimer := openResult;
      calls := calls + [Open];
      if hTimer.None? {
        hung := true;
        return;
      }
      hung := false;
      calls := calls + [SetLoadValue(LoadValue), RegisterIsr, Start];
    }

    /** Stops and releases the timer if it is open; idempotent. */
    method Deinit()
      modifies this
      ensures hTimer == None
      ensures callback == old(callback) && context == old(context)
      ensures calls == old(calls) + TeardownCalls(old(hTimer))
      ensures old(hTimer).None? ==> calls == old(calls)
    {
      if hTimer.Some? {
        calls := calls + [Stop, UnregisterIsr, Close];
        hTimer := None;
      }
    }

    /**
      Schedules the compare interrupt for `compareValue` microseconds, given the raw
      free-running counter `freeRunTicks` read from the hardware: the match interrupt is
      enabled, then either the match register is programmed or the interrupt is forced pending.
    */
    method SetCompare(compareValue: Uint32, freeRunTicks: Uint32)
      requires hTimer.Some?
      modifies this
      ensures callback == old(callback) && context == old(context) && hTimer == old(hTimer)
      ensures calls == old(calls) + [EnableMatchInterrupt] + CompareCalls(CompareDecision(compareValue, freeRunTicks))
    {
      var c := UsToTicks(compareValue);
      calls := calls + [EnableMatchInterrupt];
      if Sub32(Sub32(c, EventGuardTimeTicks), freeRunTicks) < MaxCompareDuration {
        calls := calls + [SetMatchValue(c)];
      } else {
        calls := calls + [ForcePending];
      }
    }

    /** The current time in microseconds, from the raw free-running counter `freeRunTicks`. */
    method ReadCounter(freeRunTicks: Uint32) returns (us: Uint32)
      requires hTimer.Some?
      ensures us == TicksToUs(freeRunTicks)
      ensures freeRunTicks <= LoadValue ==> us * 3 <= freeRunTicks * 4 < us * 3 + 3
    {
      us := TicksToUs(freeRunTicks);
    }

    /** The compare interrupt: disables the match interrupt, then calls the stored callback once. */
    method IsrHandler()
      modifies this
      ensures callback == old(callback) && context == old(context) && hTimer == old(hTimer)
      ensures calls == old(calls) + [DisableMatchInterrupt]
                       + (if callback.Some? then [InvokeCallback(callback.value, context)] else [])
    {
      calls := calls + [DisableMatchInterrupt];
      if callback.Some? {
        calls := calls + [InvokeCallback(callback.value, context)];
      }
    }
  }
}
