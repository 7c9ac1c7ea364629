/** The fixture and the scenarios of the `debounce` and `throttle` test suites,
    replayed on the scheduler with the clock standing in for `setTimeout`. Each
    scenario returns the tests' `calls` counter at every point where a test
    checks it. */
module DebounceTest {
  import opened Modes
  import opened Timing
  import opened Dom

  const Form: ElementId := 0
  const BlurInput: ElementId := 1       // <input name="blur" phx-debounce="blur">
  const DebounceInput: ElementId := 2   // <input name="debounce-100" phx-debounce="100">
  const ThrottleInput: ElementId := 3   // <input name="throttle-100" phx-throttle="100">
  const ThrottleButton: ElementId := 4  // <button id="throttle-100" phx-throttle="100">

  /** The page every test starts from: a form holding the four controls, with
      the attributes the scheduler reads (names, types and the form's own
      `phx-change`/`phx-submit` bindings play no part in it). */
  function Container(): Document {
    Document(
      map[Form := map[],
          BlurInput := map["phx-debounce" := "blur"],
          DebounceInput := map["phx-debounce" := "100"],
          ThrottleInput := map["phx-throttle" := "100"],
          ThrottleButton := map["phx-throttle" := "100"]],
      map[BlurInput := Form, DebounceInput := Form, ThrottleInput := Form, ThrottleButton := Form])
  }

  /** The mode each of the four controls declares. */
  function Declared(e: ElementId): Mode {
    if e == BlurInput then OnBlur
    else if e == DebounceInput then Debounced(100)
    else Throttled(100)
  }

  /** The four controls resolve to the modes they declare; the form itself declares none. */
  lemma ContainerModes(e: ElementId)
    requires e <= ThrottleButton
    ensures Resolve(AttrsOf(Container(), e), "phx-debounce", "phx-throttle")
         == if e == Form then Err(NoTrigger) else Ok(Declared(e))
  {
    assert ParseMillis("100") == Some(100) by {
      assert AllDigits("100");
      assert "100"[..2] == "10" && "10"[..1] == "1" && "1"[..0] == [];
    }
  }

  /** A scheduler over the fixture, as every test sets it up. */
  predicate OnContainer(s: Scheduler)
    reads s
  {
    s.doc == Container() && s.debounceAttr == "phx-debounce" && s.throttleAttr == "phx-throttle"
  }

  /** Every event of `evs` reaches control `e`, as the matching event of `seen`. */
  predicate Reaches(evs: seq<DomEvent>, e: ElementId, seen: seq<Event>) {
    |seen| == |evs| && forall i :: 0 <= i < |evs| ==> Project(Container(), evs[i], e) == Some(seen[i])
  }

  /** Replays the segments of a test one after the other and reads the `calls`
      counter of control `e` after each, given what `e` goes through: `seen[k]` is
      what reaches it in segment `k`, `views[k]` how it looks before that segment. */
  method Checkpoints(s: Scheduler, e: ElementId, segments: seq<seq<DomEvent>>,
                     ghost seen: seq<seq<Event>>, ghost views: seq<Config>) returns (calls: seq<nat>)
    requires s.Valid() && OnContainer(s) && BlurInput <= e <= ThrottleButton
    requires |seen| == |segments| && |views| == |segments| + 1
    requires View(s.timing, s.clock, s.log, e) == views[0]
    requires forall k :: 0 <= k < |segments| ==> Reaches(segments[k], e, seen[k])
    requires forall k :: 0 <= k < |segments| ==> Run(Declared(e), views[k], seen[k]) == views[k + 1]
    modifies s
    ensures |calls| == |segments|
    ensures forall k :: 0 <= k < |segments| ==> calls[k] == |views[k + 1].log|
  {
    ContainerModes(e);
    calls := [];
    var k := 0;
    while k < |segments|
      invariant 0 <= k <= |segments| && |calls| == k
      invariant s.Valid() && OnContainer(s) && View(s.timing, s.clock, s.log, e) == views[k]
      invariant forall j :: 0 <= j < k ==> calls[j] == |views[j + 1].log|
    {
      ProjectAllReaching(Container(), segments[k], e);
      assert ProjectAll(Container(), segments[k], e) == seen[k];
      s.Replay(segments[k]);
      calls := calls + [s.Calls(e)];
      k := k + 1;
    }
  }

  // ---------------------------------------------------------------- debounce

  /** The call arms the listener and the first blur runs the callback at once. */
  lemma {:induction false} BlurFirstTrace()
    ensures Run(OnBlur, Config(Idle, 0, []), [Call(1), Blurred]) == Config(Armed(1), 0, [Fired(1, 0)])
  {
    var t := [Call(1), Blurred];
    RunFirst(OnBlur, Config(Idle, 0, []), t, Config(Armed(1), 0, []));
    RunFirst(OnBlur, Config(Armed(1), 0, []), t[1..], Config(Armed(1), 0, [Fired(1, 0)]));
  }

  /** Three more blurs run the callback three more times. */
  lemma {:induction false} BlurThreeTrace()
    ensures Run(OnBlur, Config(Armed(1), 0, [Fired(1, 0)]), [Blurred, Blurred, Blurred])
         == Config(Armed(1), 0, [Fired(1, 0), Fired(1, 0), Fired(1, 0), Fired(1, 0)])
  {
    var t, f := [Blurred, Blurred, Blurred], Fired(1, 0);
    RunFirst(OnBlur, Config(Armed(1), 0, [f]), t, Config(Armed(1), 0, [f, f]));
    RunFirst(OnBlur, Config(Armed(1), 0, [f, f]), t[1..], Config(Armed(1), 0, [f, f, f]));
    RunFirst(OnBlur, Config(Armed(1), 0, [f, f, f]), t[2..], Config(Armed(1), 0, [f, f, f, f]));
  }

  /** "triggers on input blur": the first blur runs the callback once, three more
      blurs run it three more times. */
  method TriggersOnInputBlur() returns (afterOne: nat, afterFour: nat)
    ensures afterOne == 1 && afterFour == 4
  {
    var s := new Scheduler(Container(), "phx-debounce", "phx-throttle");
    BlurFirstTrace();
    BlurThreeTrace();
    var f := Fired(1, 0);
    var calls := Checkpoints(s, BlurInput,
                             [[DebounceCall(BlurInput, 1), Blur(BlurInput)], [Blur(BlurInput), Blur(BlurInput), Blur(BlurInput)]],
                             [[Call(1), Blurred], [Blurred, Blurred, Blurred]],
                             [Config(Idle, 0, []), Config(Armed(1), 0, [f]), Config(Armed(1), 0, [f, f, f, f])]);
    afterOne, afterFour := calls[0], calls[1];
  }

  /** Three quick inputs `a`, `b`, `c` on an idle debounce at `now`: one deadline,
      100 ms away, for the last callback. */
  lemma {:induction false} ThreeInputsTrace(a: Callback, b: Callback, c: Callback, now: nat, log: seq<Fired>)
    ensures Run(Debounced(100), Config(Idle, now, log), [Call(a), Call(b), Call(c)])
         == Config(Pending(now + 100, c), now, log)
  {
    var m, t := Debounced(100), [Call(a), Call(b), Call(c)];
    RunFirst(m, Config(Idle, now, log), t, Config(Pending(now + 100, a), now, log));
    RunFirst(m, Config(Pending(now + 100, a), now, log), t[1..], Config(Pending(now + 100, b), now, log));
    RunFirst(m, Config(Pending(now + 100, b), now, log), t[2..], Config(Pending(now + 100, c), now, log));
  }

  /** 100 ms later the deadline is reached and the callback runs, at the deadline. */
  lemma {:induction false} DebounceWaitTrace(cb: Callback, now: nat, log: seq<Fired>)
    ensures Run(Debounced(100), Config(Pending(now + 100, cb), now, log), [Elapsed(100)])
         == Config(Idle, now + 100, log + [Fired(cb, now + 100)])
  {
    RunFirst(Debounced(100), Config(Pending(now + 100, cb), now, log), [Elapsed(100)],
             Config(Idle, now + 100, log + [Fired(cb, now + 100)]));
  }

  /** "triggers on timeout": one run 100 ms after three quick inputs, a second
      one 100 ms after three more. */
  method TriggersOnTimeout() returns (first: nat, second: nat)
    ensures first == 1 && second == 2
  {
    var s := new Scheduler(Container(), "phx-debounce", "phx-throttle");
    ghost var l1 := [Fired(3, 100)];
    ghost var l2 := [Fired(3, 100), Fired(6, 200)];
    ThreeInputsTrace(1, 2, 3, 0, []);
    DebounceWaitTrace(3, 0, []);
    assert [] + [Fired(3, 100)] == l1;
    ThreeInputsTrace(4, 5, 6, 100, l1);
    DebounceWaitTrace(6, 100, l1);
    assert l1 + [Fired(6, 200)] == l2;
    var el := DebounceInput;
    var calls := Checkpoints(s, el,
                             [[DebounceCall(el, 1), DebounceCall(el, 2), DebounceCall(el, 3)], [Wait(100)],
                              [DebounceCall(el, 4), DebounceCall(el, 5), DebounceCall(el, 6)], [Wait(100)]],
                             [[Call(1), Call(2), Call(3)], [Elapsed(100)], [Call(4), Call(5), Call(6)], [Elapsed(100)]],
                             [Config(Idle, 0, []), Config(Pending(100, 3), 0, []), Config(Idle, 100, l1),
                              Config(Pending(200, 6), 100, l1), Config(Idle, 200, l2)]);
    first, second := calls[1], calls[3];
  }

  /** An input, a cancellation and 100 ms: the pending input never runs. */
  lemma {:induction false} CancelledInputTrace()
    ensures Run(Debounced(100), Config(Idle, 0, []), [Call(1), Cancelled, Elapsed(100)]) == Config(Idle, 100, [])
  {
    var m, t := Debounced(100), [Call(1), Cancelled, Elapsed(100)];
    RunFirst(m, Config(Idle, 0, []), t, Config(Pending(100, 1), 0, []));
    RunFirst(m, Config(Pending(100, 1), 0, []), t[1..], Config(Idle, 0, []));
    RunFirst(m, Config(Idle, 0, []), t[2..], Config(Idle, 100, []));
  }

  /** After the cancellation, the next input runs 100 ms later as usual. */
  lemma {:induction false} InputAgainTrace()
    ensures Run(Debounced(100), Config(Idle, 100, []), [Call(2), Elapsed(100)]) == Config(Idle, 200, [Fired(2, 200)])
  {
    var m, t := Debounced(100), [Call(2), Elapsed(100)];
    RunFirst(m, Config(Idle, 100, []), t, Config(Pending(200, 2), 100, []));
    RunFirst(m, Config(Pending(200, 2), 100, []), t[1..], Config(Idle, 200, [Fired(2, 200)]));
  }

  /** An input on the debounce input, the form event `cancel`, 100 ms; then another
      input and 100 ms. */
  method DebounceThenCancel(cancel: DomEvent) returns (cancelled: nat, later: nat)
    requires cancel == PhxChange(Form, None) || cancel == Submit(Form)
    ensures cancelled == 0 && later == 1
  {
    var s := new Scheduler(Container(), "phx-debounce", "phx-throttle");
    CancelledInputTrace();
    InputAgainTrace();
    var calls := Checkpoints(s, DebounceInput,
                             [[DebounceCall(DebounceInput, 1), cancel, Wait(100)], [DebounceCall(DebounceInput, 2), Wait(100)]],
                             [[Call(1), Cancelled, Elapsed(100)], [Call(2), Elapsed(100)]],
                             [Config(Idle, 0, []), Config(Idle, 100, []), Config(Idle, 200, [Fired(2, 200)])]);
    cancelled, later := calls[0], calls[1];
  }

  /** "cancels trigger on phx-change": nothing runs for the cancelled input; the next one runs. */
  method CancelsDebounceOnPhxChange() returns (cancelled: nat, later: nat)
    ensures cancelled == 0 && later == 1
  {
    cancelled, later := DebounceThenCancel(PhxChange(Form, None));
  }

  /** "cancels trigger on submit" (debounce): as for `phx-change`. */
  method CancelsDebounceOnSubmit() returns (cancelled: nat, later: nat)
    ensures cancelled == 0 && later == 1
  {
    cancelled, later := DebounceThenCancel(Submit(Form));
  }

  // ---------------------------------------------------------------- throttle

  /** Three quick calls `a`, `b`, `c` with the window open at `now`: the first
      runs at once, the other two fall inside the window it opens. */
  lemma {:induction false} ThreeClicksTrace(a: Callback, b: Callback, c: Callback, st: State, now: nat, log: seq<Fired>)
    requires !LockedAt(st, now)
    ensures Run(Throttled(100), Config(st, now, log), [Call(a), Call(b), Call(c)])
         == Config(Locked(now + 100), now, log + [Fired(a, now)])
  {
    var m, t := Throttled(100), [Call(a), Call(b), Call(c)];
    var locked := Config(Locked(now + 100), now, log + [Fired(a, now)]);
    RunFirst(m, Config(st, now, log), t, locked);
    RunFirst(m, locked, t[1..], locked);
    RunFirst(m, locked, t[2..], locked);
  }

  /** 100 ms pass over a throttle: only the clock moves. */
  lemma {:induction false} ThrottleWaitTrace(st: State, now: nat, log: seq<Fired>)
    requires st.Locked?
    ensures Run(Throttled(100), Config(st, now, log), [Elapsed(100)]) == Config(st, now + 100, log)
  {
    RunFirst(Throttled(100), Config(st, now, log), [Elapsed(100)], Config(st, now + 100, log));
  }

  /** "triggers immediately, then on timeout": the first of three clicks runs at
      once, nothing more runs by the end of the window, and the first of three
      clicks after it runs again. */
  method ThrottleTriggersImmediately() returns (burst: nat, windowOver: nat, secondBurst: nat)
    ensures burst == 1 && windowOver == 1 && secondBurst == 2
  {
    var s := new Scheduler(Container(), "phx-debounce", "phx-throttle");
    ghost var l1 := [Fired(1, 0)];
    ghost var l2 := [Fired(1, 0), Fired(4, 100)];
    ThreeClicksTrace(1, 2, 3, Idle, 0, []);
    assert [] + [Fired(1, 0)] == l1;
    ThrottleWaitTrace(Locked(100), 0, l1);
    ThreeClicksTrace(4, 5, 6, Locked(100), 100, l1);
    assert l1 + [Fired(4, 100)] == l2;
    ThrottleWaitTrace(Locked(200), 100, l2);
    var el := ThrottleButton;
    var calls := Checkpoints(s, el,
                             [[DebounceCall(el, 1), DebounceCall(el, 2), DebounceCall(el, 3)], [Wait(100)],
                              [DebounceCall(el, 4), DebounceCall(el, 5), DebounceCall(el, 6)], [Wait(100)]],
                             [[Call(1), Call(2), Call(3)], [Elapsed(100)], [Call(4), Call(5), Call(6)], [Elapsed(100)]],
                             [Config(Idle, 0, []), Config(Locked(100), 0, l1), Config(Locked(100), 100, l1),
                              Config(Locked(200), 100, l2), Config(Locked(200), 200, l2)]);
    burst, windowOver, secondBurst := calls[0], calls[1], calls[3];
  }

  /** Two inputs inside one window, then a cancellation: the first has run, and
      the lock is gone. */
  lemma {:induction false} CancelledWindowTrace()
    ensures Run(Throttled(100), Config(Idle, 0, []), [Call(1), Call(2), Cancelled]) == Config(Idle, 0, [Fired(1, 0)])
  {
    var m, t := Throttled(100), [Call(1), Call(2), Cancelled];
    var locked := Config(Locked(100), 0, [Fired(1, 0)]);
    RunFirst(m, Config(Idle, 0, []), t, locked);
    RunFirst(m, locked, t[1..], locked);
    RunFirst(m, locked, t[2..], Config(Idle, 0, [Fired(1, 0)]));
  }

  /** With the lock gone, a third input runs at once although the first input's
      window has not ended. */
  lemma {:induction false} ThirdInputTrace()
    ensures Run(Throttled(100), Config(Idle, 0, [Fired(1, 0)]), [Call(3), Elapsed(100)])
         == Config(Locked(100), 100, [Fired(1, 0), Fired(3, 0)])
  {
    var m, t, l := Throttled(100), [Call(3), Elapsed(100)], [Fired(1, 0), Fired(3, 0)];
    RunFirst(m, Config(Idle, 0, [Fired(1, 0)]), t, Config(Locked(100), 0, l));
    RunFirst(m, Config(Locked(100), 0, l), t[1..], Config(Locked(100), 100, l));
  }

  /** Two inputs on the throttle input, the form event `cancel`; then a third input and 100 ms. */
  method ThrottleThenCancel(cancel: DomEvent) returns (beforeCancel: nat, after: nat)
    requires cancel == PhxChange(Form, Some(DebounceInput)) || cancel == Submit(Form)
    ensures beforeCancel == 1 && after == 2
  {
    var s := new Scheduler(Container(), "phx-debounce", "phx-throttle");
    CancelledWindowTrace();
    ThirdInputTrace();
    var calls := Checkpoints(s, ThrottleInput,
                             [[DebounceCall(ThrottleInput, 1), DebounceCall(ThrottleInput, 2), cancel],
                              [DebounceCall(ThrottleInput, 3), Wait(100)]],
                             [[Call(1), Call(2), Cancelled], [Call(3), Elapsed(100)]],
                             [Config(Idle, 0, []), Config(Idle, 0, [Fired(1, 0)]),
                              Config(Locked(100), 100, [Fired(1, 0), Fired(3, 0)])]);
    beforeCancel, after := calls[0], calls[1];
  }

  /** "cancels trigger on phx-change" (throttle), the change coming from another
      control: one run for the first two inputs, and the third, inside the first
      window, runs as well. */
  method CancelsThrottleOnPhxChange() returns (beforeChange: nat, after: nat)
    ensures beforeChange == 1 && after == 2
  {
    beforeChange, after := ThrottleThenCancel(PhxChange(Form, Some(DebounceInput)));
  }

  /** "cancels trigger on submit" (throttle): as for `phx-change`. */
  method CancelsThrottleOnSubmit() returns (beforeSubmit: nat, after: nat)
    ensures beforeSubmit == 1 && after == 2
  {
    beforeSubmit, after := ThrottleThenCancel(Submit(Form));
  }
}
