/**
 * The single-light controller of lights/client.go.
 *
 * The controller holds an on/off status and the list of done-channels of the
 * blink loops started on it, and it drives one output register through
 * AllOn()/AllOff().  The register is modelled only by the log of calls made to
 * it, and a channel send by the log of channels signalled.  Each method is
 * treated as atomic (the program guards the fields with mutexes).
 */
module Lights {
  import opened Wrappers

  /** Identity of a done-channel handed to Blink (a `chan os.Signal` in the program). */
  type ChannelId = nat

  /** A blink interval (a `time.Duration`, in nanoseconds). */
  datatype Duration = Duration(nanos: int)

  /** time.NewTicker panics unless the interval is positive. */
  predicate TickerPanics(interval: Duration)
  {
    interval.nanos <= 0
  }

  /** A call made on the output register. */
  datatype RegCall = AllOn | AllOff

  /** What a blink loop observes next: its ticker firing, or a signal on its done-channel. */
  datatype Event = Tick | Done

  /** The whole observable state of a controller: its fields and the two logs. */
  datatype Snapshot = Snapshot(
    status: bool,
    blinkers: seq<ChannelId>,
    calls: seq<RegCall>,
    signals: seq<ChannelId>)

  /** The register call that puts the output in state `on`. */
  function CallFor(on: bool): RegCall
  {
    if on then AllOn else AllOff
  }

  /** `b` after `n` flips. */
  function Flip(b: bool, n: nat): bool
  {
    if n % 2 == 0 then b else !b
  }

  /** The status agrees with the register: on exactly when the last register call was AllOn. */
  predicate Consistent(status: bool, calls: seq<RegCall>)
  {
    status <==> (|calls| > 0 && calls[|calls| - 1] == AllOn)
  }

  predicate Coherent(s: Snapshot)
  {
    Consistent(s.status, s.calls)
  }

  // ---------------------------------------------------------------------------
  // Specification of each operation, on snapshots
  // ---------------------------------------------------------------------------

  /** New: the register is switched off once and the light starts off with no blinkers. */
  function Initial(): (r: Snapshot)
    ensures Coherent(r) && !r.status
    ensures r.blinkers == [] && r.signals == [] && |r.calls| == 1
  {
    Snapshot(false, [], [AllOff], [])
  }

  /** On: status becomes true and AllOn is sent to the register. */
  function OnSpec(s: Snapshot): (r: Snapshot)
    ensures r.status && Coherent(r)
    ensures r.blinkers == s.blinkers && r.signals == s.signals
  {
    s.(status := true, calls := s.calls + [AllOn])
  }

  /** Off: status becomes false and AllOff is sent to the register. */
  function OffSpec(s: Snapshot): (r: Snapshot)
    ensures !r.status && Coherent(r)
    ensures r.blinkers == s.blinkers && r.signals == s.signals
  {
    s.(status := false, calls := s.calls + [AllOff])
  }

  /** Toggle: Off when on, On when off. */
  function ToggleSpec(s: Snapshot): (r: Snapshot)
    ensures r.status == !s.status && Coherent(r)
    ensures r.blinkers == s.blinkers && r.signals == s.signals
  {
    if s.status then OffSpec(s) else OnSpec(s)
  }

  /** StopBlinking: every registered done-channel is signalled once, in registration order. */
  function StopSpec(s: Snapshot): (r: Snapshot)
    ensures r.status == s.status && r.blinkers == s.blinkers && r.calls == s.calls
    ensures |r.signals| == |s.signals| + |s.blinkers|
    ensures Coherent(s) ==> Coherent(r)
  {
    s.(signals := s.signals + s.blinkers)
  }

  // ---------------------------------------------------------------------------
  // The blink loop
  // ---------------------------------------------------------------------------

  /** The position of the first Done at or after `from`, or |events| when there is none. */
  function FirstDone(events: seq<Event>, from: nat): (k: nat)
    requires from <= |events|
    ensures from <= k <= |events|
    ensures forall j :: from <= j < k ==> events[j] == Tick
    ensures k < |events| ==> events[k] == Done
    decreases |events| - from
  {
    if from == |events| then from
    else
      match events[from]
      case Done => from
      case Tick => FirstDone(events, from + 1)
  }

  lemma FlipNext(b: bool, n: nat)
    ensures Flip(b, n + 1) == !Flip(b, n)
  {
  }

  /** The register calls made by `n` Ticks from `status`: the n-th puts the light in its state after n flips. */
  function TickCalls(status: bool, n: nat): (r: seq<RegCall>)
  {
    if n == 0 then [] else TickCalls(status, n - 1) + [CallFor(Flip(status, n))]
  }

  /** What the blink loop does to status and the register, and how far it reads its events. */
  datatype LoopRun = LoopRun(status: bool, calls: seq<RegCall>, consumed: nat, exited: bool)

  /**
   * The blink loop (lights/client.go:81-92) over `events`, starting with the
   * light in state `status`: every Tick before the first Done toggles the
   * light, and the first Done turns it off and ends the loop.  When the events
   * run out without a Done the loop has not exited (in the program it goes on
   * waiting).  `consumed` counts the events read.
   */
  function BlinkLoop(status: bool, events: seq<Event>): LoopRun
  {
    var ticks := FirstDone(events, 0);
    if ticks == |events| then LoopRun(Flip(status, ticks), TickCalls(status, ticks), ticks, false)
    else LoopRun(false, TickCalls(status, ticks) + [AllOff], ticks + 1, true)
  }

  /** The effect of one Blink call, whether it panicked before its loop, and how its loop ended. */
  datatype BlinkRun = BlinkRun(state: Snapshot, panicked: bool, consumed: nat, exited: bool)

  /**
   * Blink: register `done`, then run the loop over `events`.  The ticker is
   * made after the registration, so on a non-positive interval the channel
   * stays registered, the call panics and no loop runs.
   */
  function BlinkSpec(s: Snapshot, interval: Duration, done: ChannelId, events: seq<Event>): (r: BlinkRun)
    ensures r.state.blinkers == s.blinkers + [done] && r.state.signals == s.signals
    ensures r.panicked <==> TickerPanics(interval)
    ensures r.panicked ==>
      && r.state.status == s.status && r.state.calls == s.calls
      && r.consumed == 0 && !r.exited
  {
    var registered := s.(blinkers := s.blinkers + [done]);
    if TickerPanics(interval) then BlinkRun(registered, true, 0, false)
    else
      var run := BlinkLoop(s.status, events);
      BlinkRun(registered.(status := run.status, calls := s.calls + run.calls), false, run.consumed, run.exited)
  }

  // ---------------------------------------------------------------------------
  // Properties of the specification
  // ---------------------------------------------------------------------------

  /** Turning on twice is the same, for the status and the register's last state, as once. */
  lemma OnIdempotent(s: Snapshot)
    ensures OnSpec(OnSpec(s)).status == OnSpec(s).status
    ensures OnSpec(OnSpec(s)).calls == OnSpec(s).calls + [AllOn]
  {
  }

  lemma OffIdempotent(s: Snapshot)
    ensures OffSpec(OffSpec(s)).status == OffSpec(s).status
    ensures OffSpec(OffSpec(s)).calls == OffSpec(s).calls + [AllOff]
  {
  }

  /** Two toggles restore the status; the register sees the opposite state, then the original. */
  lemma ToggleTwice(s: Snapshot)
    ensures ToggleSpec(ToggleSpec(s)).status == s.status
    ensures ToggleSpec(ToggleSpec(s)).calls == s.calls + [CallFor(!s.status), CallFor(s.status)]
  {
  }

  /** FirstDone is determined by its contract: a Done preceded only by Ticks is the first Done. */
  lemma FirstDoneAt(events: seq<Event>, k: nat)
    requires k <= |events|
    requires forall j :: 0 <= j < k ==> events[j] == Tick
    requires k < |events| ==> events[k] == Done
    ensures FirstDone(events, 0) == k
  {
  }

  /**
   * The state of Light.RunLoop after reading `i` events: until a Done, every
   * event read was a Tick and each flipped the light; once a Done is read the
   * light is off and the loop has exited.
   */
  ghost predicate LoopState(status0: bool, calls0: seq<RegCall>, events: seq<Event>, i: nat, exited: bool,
                            status: bool, calls: seq<RegCall>)
  {
    && i <= |events|
    && Consistent(status, calls)
    && (!exited ==>
          && (forall j :: 0 <= j < i ==> events[j] == Tick)
          && status == Flip(status0, i)
          && calls == calls0 + TickCalls(status0, i))
    && (exited ==>
          && 0 < i && events[i - 1] == Done
          && (forall j :: 0 <= j < i - 1 ==> events[j] == Tick)
          && !status && calls == calls0 + TickCalls(status0, i - 1) + [AllOff])
  }

  /** One pass of the select keeps LoopState. */
  lemma LoopStep(status0: bool, calls0: seq<RegCall>, events: seq<Event>, i: nat, status: bool, calls: seq<RegCall>)
    requires i < |events|
    requires LoopState(status0, calls0, events, i, false, status, calls)
    ensures var next := events[i] == Tick && !status;
      LoopState(status0, calls0, events, i + 1, events[i] == Done, next, calls + [CallFor(next)])
  {
    FlipNext(status0, i);
  }

  /** Where Light.RunLoop stops, BlinkLoop says the loop stops, in the state the method has reached. */
  lemma LoopExit(status0: bool, calls0: seq<RegCall>, events: seq<Event>, i: nat, exited: bool,
                 status: bool, calls: seq<RegCall>)
    requires LoopState(status0, calls0, events, i, exited, status, calls)
    requires !exited ==> i == |events|
    ensures var run := BlinkLoop(status0, events);
      && run.exited == exited && run.consumed == i
      && run.status == status && calls == calls0 + run.calls
  {
    FirstDoneAt(events, if exited then i - 1 else i);
  }

  /** Each Tick flips the light: the k-th register call of the Ticks is the state after k + 1 flips. */
  lemma {:induction false} TickCallsAt(status: bool, n: nat, k: nat)
    requires k < n
    ensures |TickCalls(status, n)| == n
    ensures TickCalls(status, n)[k] == CallFor(Flip(status, k + 1))
  {
    if k < n - 1 {
      TickCallsAt(status, n - 1, k);
    } else if n > 1 {
      TickCallsAt(status, n - 1, 0);
    }
  }

  /** The loop exits exactly when a Done occurs, and it stops right after the first one. */
  lemma BlinkLoopStopsAtFirstDone(status: bool, events: seq<Event>)
    ensures var r := BlinkLoop(status, events);
      && r.consumed <= |events|
      && (r.exited <==> exists j :: 0 <= j < |events| && events[j] == Done)
      && (r.exited ==> events[r.consumed - 1] == Done)
      && (forall j :: 0 <= j < r.consumed - 1 ==> events[j] == Tick)
      && (!r.exited ==> r.consumed == |events|)
  {
  }

  /**
   * Before the first Done each event toggles the light: the call made for the
   * k-th event is the state after k + 1 flips, and a loop still running has
   * flipped once per event.
   */
  lemma BlinkLoopTicks(status: bool, events: seq<Event>, k: nat)
    requires k < |events| && forall j :: 0 <= j <= k ==> events[j] == Tick
    ensures var r := BlinkLoop(status, events);
      k < |r.calls| && r.calls[k] == CallFor(Flip(status, k + 1))
    ensures var r := BlinkLoop(status, events);
      !r.exited ==> r.status == Flip(status, |events|)
  {
    TickCallsAt(status, FirstDone(events, 0), k);
  }

  /** A loop that exits leaves the light off, and its last register call is AllOff. */
  lemma BlinkLoopEndsOff(status: bool, events: seq<Event>)
    ensures var r := BlinkLoop(status, events);
      r.exited ==> !r.status && |r.calls| > 0 && r.calls[|r.calls| - 1] == AllOff
  {
  }

  /** Events after the first Done are never read: appending more changes nothing. */
  lemma BlinkLoopIgnoresLater(status: bool, events: seq<Event>, later: seq<Event>)
    requires exists j :: 0 <= j < |events| && events[j] == Done
    ensures BlinkLoop(status, events + later) == BlinkLoop(status, events)
  {
    var k := FirstDone(events, 0);
    forall j | 0 <= j < k
      ensures (events + later)[j] == Tick
    {
      assert events[j] == Tick;
    }
    FirstDoneAt(events + later, k);
  }

  /** Every register call of the loop keeps status and register in agreement. */
  lemma BlinkLoopConsistent(status: bool, calls: seq<RegCall>, events: seq<Event>)
    requires Consistent(status, calls)
    ensures var r := BlinkLoop(status, events);
      Consistent(r.status, calls + r.calls)
  {
    var ticks := FirstDone(events, 0);
    var all := calls + TickCalls(status, ticks);
    if ticks == 0 {
      assert all == calls;
    } else {
      assert all[|all| - 1] == CallFor(Flip(status, ticks));
    }
  }

  /** Blink keeps the snapshot coherent and, when its loop exits, leaves the light off. */
  lemma BlinkSpecCoherent(s: Snapshot, interval: Duration, done: ChannelId, events: seq<Event>)
    requires Coherent(s)
    ensures Coherent(BlinkSpec(s, interval, done, events).state)
    ensures BlinkSpec(s, interval, done, events).exited ==> !BlinkSpec(s, interval, done, events).state.status
  {
    BlinkLoopConsistent(s.status, s.calls, events);
  }

  // ---------------------------------------------------------------------------
  // Serialisation
  // ---------------------------------------------------------------------------

  /** The text json.Marshal writes before the boolean. */
  function StatusPrefix(): string
  {
    "{\"status\":"
  }

  /** What json.Marshal makes of the one-entry map {"status": on}. */
  function StatusJson(on: bool): string
  {
    StatusPrefix() + (if on then "true" else "false") + "}"
  }

  /** Reads back a document of the shape StatusJson produces. */
  function ParseStatusJson(s: string): Option<bool>
  {
    if |s| < |StatusPrefix()| || s[..|StatusPrefix()|] != StatusPrefix() then None
    else
      var rest := s[|StatusPrefix()|..];
      if rest == "true}" then Some(true)
      else if rest == "false}" then Some(false)
      else None
  }

  lemma StatusJsonRoundTrip(on: bool)
    ensures ParseStatusJson(StatusJson(on)) == Some(on)
  {
    var s := StatusJson(on);
    assert s[..|StatusPrefix()|] == StatusPrefix();
    assert s[|StatusPrefix()|..] == (if on then "true" else "false") + "}";
  }

  /** The serialisation is canonical: only StatusJson(on) reads back as `on`. */
  lemma StatusJsonCanonical(s: string, on: bool)
    requires ParseStatusJson(s) == Some(on)
    ensures s == StatusJson(on)
  {
    assert s == s[..|StatusPrefix()|] + s[|StatusPrefix()|..];
  }

  // ---------------------------------------------------------------------------
  // The controller
  // ---------------------------------------------------------------------------

  class Light {
    var status: bool
    var blinkers: seq<ChannelId>
    /** Every call made on the output register, oldest first. */
    ghost var calls: seq<RegCall>
    /** Every send made on a done-channel, oldest first. */
    ghost var signals: seq<ChannelId>

    ghost function Model(): Snapshot
      reads this
    {
      Snapshot(status, blinkers, calls, signals)
    }

    /** The status matches the register's last call. */
    ghost predicate Valid()
      reads this
    {
      Consistent(status, calls)
    }

    /** New: switches the register off and returns a light with no blinkers. */
    constructor New()
      ensures Valid()
      ensures Model() == Initial()
    {
      calls := [AllOff];
      status := false;
      blinkers := [];
      signals := [];
    }

    method IsOn() returns (on: bool)
      requires Valid()
      ensures on == status
      ensures Consistent(on, calls)
    {
      on := status;
    }

    method On()
      requires Valid()
      modifies this
      ensures Valid()
      ensures Model() == OnSpec(old(Model()))
    {
      status := true;
      calls := calls + [AllOn];
    }

    method Off()
      requires Valid()
      modifies this
      ensures Valid()
      ensures Model() == OffSpec(old(Model()))
    {
      status := false;
      calls := calls + [AllOff];
    }

    method Toggle()
      requires Valid()
      modifies this
      ensures Valid()
      ensures Model() == ToggleSpec(old(Model()))
    {
      var on := IsOn();
      if on {
        Off();
      } else {
        On();
      }
    }

    /** Sends a signal on every registered done-channel; nothing is deregistered. */
    method StopBlinking()
      requires Valid()
      modifies this
      ensures Valid()
      ensures Model() == StopSpec(old(Model()))
    {
      for i := 0 to |blinkers|
        invariant status == old(status) && blinkers == old(blinkers) && calls == old(calls)
        invariant signals == old(signals) + blinkers[..i]
      {
        signals := signals + [blinkers[i]];
      }
      assert blinkers[..|blinkers|] == blinkers;
    }

    /**
     * Blink: registers `done`, then runs the blink loop over `events`, what the
     * loop observes in order (the ticker and its interval are not modelled).
     * The channel stays registered after the loop ends.
     */
    method Blink(interval: Duration, done: ChannelId, events: seq<Event>) returns (panicked: bool, consumed: nat, exited: bool)
      requires Valid()
      modifies this
      ensures Valid()
      ensures Model() == BlinkSpec(old(Model()), interval, done, events).state
      ensures panicked == BlinkSpec(old(Model()), interval, done, events).panicked
      ensures consumed == BlinkSpec(old(Model()), interval, done, events).consumed
      ensures exited == BlinkSpec(old(Model()), interval, done, events).exited
    {
      blinkers := blinkers + [done];
      if TickerPanics(interval) {
        // time.NewTicker panics here: the channel stays registered and no loop runs.
        panicked, consumed, exited := true, 0, false;
        return;
      }
      panicked := false;
      consumed, exited := RunLoop(events);
    }

    /** The `for !exit` loop of Blink: runs Select on each event until one says to exit. */
    method RunLoop(events: seq<Event>) returns (consumed: nat, exited: bool)
      requires Valid()
      modifies this
      ensures Valid()
      ensures blinkers == old(blinkers) && signals == old(signals)
      ensures var run := BlinkLoop(old(status), events);
        && status == run.status && calls == old(calls) + run.calls
        && consumed == run.consumed && exited == run.exited
    {
      ghost var status0, calls0 := status, calls;
      var i := 0;
      exited := false;
      while !exited && i < |events|
        invariant 0 <= i <= |events|
        invariant blinkers == old(blinkers) && signals == old(signals)
        invariant LoopState(status0, calls0, events, i, exited, status, calls)
        decreases |events| - i
      {
        ghost var status1, calls1 := status, calls;
        exited := Select(events[i]);
        LoopStep(status0, calls0, events, i, status1, calls1);
        i := i + 1;
      }
      LoopExit(status0, calls0, events, i, exited, status, calls);
      consumed := i;
    }

    /** One pass of the select: a Done turns the light off and exits, a Tick toggles it. */
    method Select(e: Event) returns (exit: bool)
      requires Valid()
      modifies this
      ensures Valid()
      ensures blinkers == old(blinkers) && signals == old(signals)
      ensures exit == (e == Done)
      ensures status == (e == Tick && !old(status))
      ensures calls == old(calls) + [CallFor(status)]
    {
      match e {
        case Done =>
          Off();
          exit := true;
        case Tick =>
          Toggle();
          exit := false;
      }
    }

    /** ToJSON: {"status":true} or {"status":false}; nothing changes. */
    method ToJSON() returns (json: string)
      ensures json == StatusJson(status)
      ensures ParseStatusJson(json) == Some(status)
    {
      json := StatusJson(status);
      StatusJsonRoundTrip(status);
    }
  }
}
