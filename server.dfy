/**
 * The update_light handler of main.go: a decoded PUT /light request either
 * starts a blink loop or sets the light, on the one Light value the server
 * holds.
 */
module Server {
  import opened Wrappers
  import opened Lights

  /** The decoded request body: each field is absent when the JSON omits it (a nil pointer). */
  datatype UpdateRequest = UpdateRequest(blink: Option<Duration>, on: Option<bool>)

  /** A call the handler makes on the light. */
  datatype Action = CallBlink(interval: Duration) | CallStopBlinking | CallOn | CallOff

  /**
   * The calls the handler makes for `req`, in order.  A blink field wins over an
   * on field.  With an on field every blink loop is stopped first, and the light
   * is then switched off whatever the field says, after being switched on when
   * it says true (main.go:83-86 has no `else` before `light.Off()`).
   */
  function Plan(req: UpdateRequest): (r: seq<Action>)
    ensures req.blink.Some? ==> r == [CallBlink(req.blink.value)]
    ensures req.blink.None? && req.on.None? ==> r == []
    ensures req.blink.None? && req.on.Some? ==>
      && 2 <= |r| <= 3
      && r[0] == CallStopBlinking && r[|r| - 1] == CallOff
      && (|r| == 3 <==> req.on.value)
      && (req.on.value ==> r[1] == CallOn)
  {
    if req.blink.Some? then [CallBlink(req.blink.value)]
    else if req.on.Some? then [CallStopBlinking] + (if req.on.value then [CallOn] else []) + [CallOff]
    else []
  }

  /** The effect of one call on the light; a blink loop registers `done` and reads `events`. */
  function Exec(s: Snapshot, a: Action, done: ChannelId, events: seq<Event>): Snapshot
  {
    match a
    case CallBlink(interval) => BlinkSpec(s, interval, done, events).state
    case CallStopBlinking => StopSpec(s)
    case CallOn => OnSpec(s)
    case CallOff => OffSpec(s)
  }

  /** The effect of a sequence of calls, first to last. */
  function Perform(s: Snapshot, actions: seq<Action>, done: ChannelId, events: seq<Event>): Snapshot
    decreases |actions|
  {
    if actions == [] then s else Perform(Exec(s, actions[0], done, events), actions[1..], done, events)
  }

  /**
   * update_light after the body is decoded: the calls of Plan(req), in order,
   * on `light`.  `done` is the server's signal channel, handed to every blink
   * loop; `events` is what such a loop observes.
   */
  method UpdateLight(light: Light, req: UpdateRequest, done: ChannelId, events: seq<Event>)
    requires light.Valid()
    modifies light
    ensures light.Valid()
    ensures light.Model() == Perform(old(light.Model()), Plan(req), done, events)
  {
    ghost var s := light.Model();
    if req.blink.Some? {
      var blink := req.blink.value;
      var _, _, _ := light.Blink(blink, done, events);
      return;
    }
    if req.on.Some? {
      light.StopBlinking();
      if req.on.value {
        light.On();
      }
      // The program switches the light off on every on-request, including {"on": true}.
      light.Off();
      assert Perform(s, Plan(req), done, events) == light.Model() by {
        var stopped := StopSpec(s);
        PerformSeq(stopped, if req.on.value then [CallOn] else [], [CallOff], done, events);
        assert Plan(req)[1..] == (if req.on.value then [CallOn] else []) + [CallOff];
      }
      return;
    }
  }

  /** Performing two sequences of calls one after the other is performing their concatenation. */
  lemma {:induction false} PerformSeq(s: Snapshot, xs: seq<Action>, ys: seq<Action>, done: ChannelId, events: seq<Event>)
    ensures Perform(s, xs + ys, done, events) == Perform(Perform(s, xs, done, events), ys, done, events)
    decreases |xs|
  {
    if xs == [] {
      assert xs + ys == ys;
    } else {
      assert (xs + ys)[1..] == xs[1..] + ys;
      PerformSeq(Exec(s, xs[0], done, events), xs[1..], ys, done, events);
    }
  }

  /** Every call keeps the light's status in agreement with the register. */
  lemma ExecCoherent(s: Snapshot, a: Action, done: ChannelId, events: seq<Event>)
    requires Coherent(s)
    ensures Coherent(Exec(s, a, done, events))
  {
    if a.CallBlink? {
      BlinkSpecCoherent(s, a.interval, done, events);
    }
  }

  /** Any sequence of calls keeps the light's status in agreement with the register. */
  lemma {:induction false} PerformCoherent(s: Snapshot, actions: seq<Action>, done: ChannelId, events: seq<Event>)
    requires Coherent(s)
    ensures Coherent(Perform(s, actions, done, events))
    decreases |actions|
  {
    if actions != [] {
      ExecCoherent(s, actions[0], done, events);
      PerformCoherent(Exec(s, actions[0], done, events), actions[1..], done, events);
    }
  }

  /** A request with a blink field only blinks: whatever its on field says, the effect is Blink's. */
  lemma BlinkRequestOnlyBlinks(s: Snapshot, req: UpdateRequest, done: ChannelId, events: seq<Event>)
    requires req.blink.Some?
    ensures Perform(s, Plan(req), done, events) == BlinkSpec(s, req.blink.value, done, events).state
    ensures Perform(s, Plan(req), done, events).signals == s.signals
  {
    assert Plan(req)[1..] == [];
  }

  /**
   * A blink request with an interval of zero or less (which decodes, since a
   * duration is a plain integer) registers its channel and makes no register
   * call: the ticker panics before the loop starts.
   */
  lemma NonPositiveBlinkOnlyRegisters(s: Snapshot, req: UpdateRequest, done: ChannelId, events: seq<Event>)
    requires req.blink.Some? && req.blink.value.nanos <= 0
    ensures Perform(s, Plan(req), done, events) == s.(blinkers := s.blinkers + [done])
  {
    assert Plan(req)[1..] == [];
  }

  /**
   * A request with only an on field stops every blink loop, sends AllOn when the
   * field is true, and always ends with AllOff: the light is left off.
   */
  lemma OnRequestEndsOff(s: Snapshot, on: bool, done: ChannelId, events: seq<Event>)
    ensures var r := Perform(s, Plan(UpdateRequest(None, Some(on))), done, events);
      && !r.status
      && r.blinkers == s.blinkers
      && r.signals == s.signals + s.blinkers
      && r.calls == s.calls + (if on then [AllOn, AllOff] else [AllOff])
  {
    var plan := Plan(UpdateRequest(None, Some(on)));
    var stopped := StopSpec(s);
    assert plan[1..] == (if on then [CallOn] else []) + [CallOff];
    PerformSeq(stopped, if on then [CallOn] else [], [CallOff], done, events);
    if on {
      assert [CallOn][1..] == [];
      assert (s.calls + [AllOn]) + [AllOff] == s.calls + [AllOn, AllOff];
    }
  }

  /** A request with neither field changes nothing. */
  lemma EmptyRequestNoop(s: Snapshot, done: ChannelId, events: seq<Event>)
    ensures Perform(s, Plan(UpdateRequest(None, None)), done, events) == s
  {
  }
}
