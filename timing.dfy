/** The per-element timing state machine behind `DOM.debounce`: what one
    element's scheduler state does on a call, a blur, a cancellation (a
    `phx-change` or `submit` on its form) and the passing of time. */
module Timing {
  import opened Modes

  /** Identifies the callback passed with one call, so that a log says which call's callback ran. */
  type Callback = nat

  /** One element's scheduler state; `Idle` is also what an element without an entry has. */
  datatype State =
    | Idle
    | Armed(cb: Callback)                    // blur mode: a blur listener is installed
    | Pending(deadline: nat, cb: Callback)   // debounce: `cb` runs at `deadline` unless superseded
    | Locked(windowEnd: nat)                 // throttle: calls before `windowEnd` are dropped

  /** One invocation of a callback and the time it ran. */
  datatype Fired = Fired(cb: Callback, at: nat)

  /** An element's state, the clock and the invocations so far. */
  datatype Config = Config(state: State, clock: nat, log: seq<Fired>)

  /** What reaches one element's scheduler. */
  datatype Event =
    | Call(cb: Callback)   // `DOM.debounce(el, …, cb)` is called
    | Blurred              // the element loses focus
    | Cancelled            // a form lifecycle event cancels the element's timing
    | Elapsed(ms: nat)     // `ms` milliseconds pass

  /** What a call does at once: the next state and the callback run immediately, if any. */
  datatype Reaction = Reaction(next: State, fire: Option<Callback>)

  /** The states an element in `mode` can be in. */
  predicate Fits(mode: Mode, st: State) {
    match st
    case Idle => true
    case Armed(_) => mode.OnBlur?
    case Pending(_, _) => mode.Debounced?
    case Locked(_) => mode.Throttled?
  }

  /** A throttle window that is still open at `now` (expiry is evaluated lazily). */
  predicate LockedAt(st: State, now: nat) {
    st.Locked? && now < st.windowEnd
  }

  /** The response to a call at time `now` with callback `cb`. */
  function Schedule(mode: Mode, st: State, now: nat, cb: Callback): (r: Reaction)
    ensures r.fire.Some? <==> mode.Throttled? && !LockedAt(st, now)
    ensures r.fire.Some? ==> r.fire.value == cb
    ensures Fits(mode, r.next) && !r.next.Idle?
    ensures mode.Debounced? ==> r.next.Pending? && r.next.deadline == now + mode.delay && r.next.cb == cb
    ensures mode.Throttled? && !LockedAt(st, now) ==> r.next == Locked(now + mode.window)
    ensures LockedAt(st, now) && mode.Throttled? ==> r.next == st
  {
    match mode
    case OnBlur => Reaction(if st.Armed? then st else Armed(cb), None)
    case Debounced(d) => Reaction(Pending(now + d, cb), None)
    case Throttled(w) =>
      if LockedAt(st, now) then Reaction(st, None) else Reaction(Locked(now + w), Some(cb))
  }

  /** A cancellation: a pending debounce is discarded and a throttle lock cleared;
      a blur listener stays. */
  function Cancel(st: State): (r: State)
    ensures !r.Pending? && !r.Locked?
    ensures st.Pending? || st.Locked? ==> r == Idle
    ensures st.Idle? || st.Armed? ==> r == st
  {
    if st.Pending? || st.Locked? then Idle else st
  }

  /** A debounce whose deadline has been reached by `now`. */
  predicate Due(st: State, now: nat) {
    st.Pending? && st.deadline <= now
  }

  /** `ms` milliseconds pass: a debounce whose deadline falls within them runs, at its deadline. */
  function Tick(c: Config, ms: nat): (r: Config)
    ensures r.clock == c.clock + ms
    ensures Due(c.state, r.clock) ==> r.state == Idle && r.log == c.log + [Fired(c.state.cb, c.state.deadline)]
    ensures !Due(c.state, r.clock) ==> r.state == c.state && r.log == c.log
  {
    var now := c.clock + ms;
    if Due(c.state, now) then Config(Idle, now, c.log + [Fired(c.state.cb, c.state.deadline)])
    else Config(c.state, now, c.log)
  }

  /** The element after one event. */
  function Step(mode: Mode, c: Config, ev: Event): (r: Config)
    ensures r.clock == c.clock + (if ev.Elapsed? then ev.ms else 0)
    ensures c.log <= r.log && |r.log| <= |c.log| + 1
    ensures Fits(mode, c.state) ==> Fits(mode, r.state)
    ensures |r.log| == |c.log| + 1 <==>
              (ev.Call? && mode.Throttled? && !LockedAt(c.state, c.clock))
              || (ev.Blurred? && c.state.Armed?)
              || (ev.Elapsed? && Due(c.state, c.clock + ev.ms))
  {
    match ev
    case Call(cb) =>
      var r := Schedule(mode, c.state, c.clock, cb);
      Config(r.next, c.clock, if r.fire.Some? then c.log + [Fired(cb, c.clock)] else c.log)
    case Blurred =>
      if c.state.Armed? then Config(c.state, c.clock, c.log + [Fired(c.state.cb, c.clock)]) else c
    case Cancelled =>
      Config(Cancel(c.state), c.clock, c.log)
    case Elapsed(ms) => Tick(c, ms)
  }

  function TotalElapsed(evs: seq<Event>): nat
    decreases |evs|
  {
    if evs == [] then 0
    else TotalElapsed(evs[..|evs| - 1]) + (if evs[|evs| - 1].Elapsed? then evs[|evs| - 1].ms else 0)
  }

  /** The element after a sequence of events. */
  function Run(mode: Mode, c: Config, evs: seq<Event>): (r: Config)
    ensures c.log <= r.log
    ensures |r.log| <= |c.log| + |evs|
    ensures r.clock == c.clock + TotalElapsed(evs)
    ensures Fits(mode, c.state) ==> Fits(mode, r.state)
    decreases |evs|
  {
    if evs == [] then c else Step(mode, Run(mode, c, evs[..|evs| - 1]), evs[|evs| - 1])
  }

  lemma {:induction false} RunAppend(mode: Mode, c: Config, a: seq<Event>, b: seq<Event>)
    ensures Run(mode, c, a + b) == Run(mode, Run(mode, c, a), b)
    decreases |b|
  {
    if b == [] {
      assert a + b == a;
    } else {
      var b' := b[..|b| - 1];
      assert (a + b)[..|a + b| - 1] == a + b';
      RunAppend(mode, c, a, b');
    }
  }

  lemma {:induction false} RunFirst(mode: Mode, c: Config, evs: seq<Event>, next: Config)
    requires evs != [] && Step(mode, c, evs[0]) == next
    ensures Run(mode, c, evs) == Run(mode, next, evs[1..])
  {
    RunAppend(mode, c, [evs[0]], evs[1..]);
    assert [evs[0]] + evs[1..] == evs;
    assert [evs[0]][..0] == [];
  }

  /** Two traces that each run one callback run both, in order, when run one after the other. */
  lemma {:induction false} RunTwoSteps(mode: Mode, c: Config, a: seq<Event>, b: seq<Event>, f1: Fired, f2: Fired)
    requires Run(mode, c, a).log == c.log + [f1]
    requires Run(mode, Run(mode, c, a), b).log == Run(mode, c, a).log + [f2]
    ensures Run(mode, c, a + b).log == c.log + [f1, f2]
  {
    RunAppend(mode, c, a, b);
    assert c.log + [f1] + [f2] == c.log + [f1, f2];
  }

  lemma {:induction false} RunSnoc(mode: Mode, c: Config, a: seq<Event>, ev: Event)
    ensures Run(mode, c, a + [ev]) == Step(mode, Run(mode, c, a), ev)
  {
    assert (a + [ev])[..|a|] == a;
  }

  // ---------------------------------------------------------------------------
  // Blur mode

  function Blurs(k: nat): (evs: seq<Event>)
    ensures |evs| == k && forall i :: 0 <= i < k ==> evs[i] == Blurred
  {
    seq(k, _ => Blurred)
  }

  function Repeat(f: Fired, k: nat): (fs: seq<Fired>)
    ensures |fs| == k && forall i :: 0 <= i < k ==> fs[i] == f
  {
    seq(k, _ => f)
  }

  /** Blur mode never suppresses: once armed, each of `k` blurs runs the callback once. */
  lemma {:induction false} BlurFiresEveryTime(mode: Mode, c: Config, k: nat)
    requires c.state.Armed?
    ensures Run(mode, c, Blurs(k)) == Config(c.state, c.clock, c.log + Repeat(Fired(c.state.cb, c.clock), k))
    decreases k
  {
    if k > 0 {
      assert Blurs(k) == Blurs(k - 1) + [Blurred];
      RunSnoc(mode, c, Blurs(k - 1), Blurred);
      BlurFiresEveryTime(mode, c, k - 1);
      assert Repeat(Fired(c.state.cb, c.clock), k) == Repeat(Fired(c.state.cb, c.clock), k - 1) + [Fired(c.state.cb, c.clock)];
    }
  }

  /** The blur test: one call arms the element, then `k` blurs give exactly `k` invocations. */
  lemma {:induction false} ArmThenBlur(c: Config, cb: Callback, k: nat)
    requires c.state.Idle?
    ensures Run(OnBlur, c, [Call(cb)] + Blurs(k)).log == c.log + Repeat(Fired(cb, c.clock), k)
  {
    RunAppend(OnBlur, c, [Call(cb)], Blurs(k));
    assert Run(OnBlur, c, [Call(cb)]) == Step(OnBlur, Run(OnBlur, c, []), Call(cb));
    BlurFiresEveryTime(OnBlur, Run(OnBlur, c, [Call(cb)]), k);
  }

  // ---------------------------------------------------------------------------
  // Bursts of calls

  /** A call that arrives `gap` ms after the previous one of its burst. */
  datatype Tap = Tap(gap: nat, cb: Callback)

  /** A call with `first`, then each tap of `rest` after its gap. */
  function Burst(first: Callback, rest: seq<Tap>): (evs: seq<Event>)
    ensures |evs| == 1 + 2 * |rest|
    decreases |rest|
  {
    if rest == [] then [Call(first)]
    else Burst(first, rest[..|rest| - 1]) + [Elapsed(rest[|rest| - 1].gap), Call(rest[|rest| - 1].cb)]
  }

  /** The time from the first call of a burst to its last. */
  function Gaps(rest: seq<Tap>): nat
    decreases |rest|
  {
    if rest == [] then 0 else Gaps(rest[..|rest| - 1]) + rest[|rest| - 1].gap
  }

  /** The callback of the last call of a burst. */
  function LastCallback(first: Callback, rest: seq<Tap>): Callback {
    if rest == [] then first else rest[|rest| - 1].cb
  }

  /** Every call of the burst comes less than `ms` after the one before it. */
  predicate Tight(rest: seq<Tap>, ms: nat) {
    forall i :: 0 <= i < |rest| ==> rest[i].gap < ms
  }

  lemma {:induction false} RunBurstStep(mode: Mode, c: Config, first: Callback, rest: seq<Tap>)
    requires rest != []
    ensures Run(mode, c, Burst(first, rest))
         == Step(mode, Step(mode, Run(mode, c, Burst(first, rest[..|rest| - 1])), Elapsed(rest[|rest| - 1].gap)),
                 Call(rest[|rest| - 1].cb))
  {
    var pre := Burst(first, rest[..|rest| - 1]);
    var t := rest[|rest| - 1];
    assert Burst(first, rest) == (pre + [Elapsed(t.gap)]) + [Call(t.cb)];
    RunSnoc(mode, c, pre + [Elapsed(t.gap)], Call(t.cb));
    RunSnoc(mode, c, pre, Elapsed(t.gap));
  }

  /** Debounce coalescing: a burst whose calls come closer together than the delay
      leaves nothing run yet, and one pending invocation of the LAST call's callback,
      due `delay` ms after the last call. */
  lemma {:induction false} DebounceCoalesces(d: nat, c: Config, first: Callback, rest: seq<Tap>)
    requires Tight(rest, d)
    ensures Run(Debounced(d), c, Burst(first, rest))
         == Config(Pending(c.clock + Gaps(rest) + d, LastCallback(first, rest)), c.clock + Gaps(rest), c.log)
    decreases |rest|
  {
    if rest != [] {
      var pre := rest[..|rest| - 1];
      assert Tight(pre, d);
      DebounceCoalesces(d, c, first, pre);
      RunBurstStep(Debounced(d), c, first, rest);
    }
  }

  /** After a burst, waiting `wait` ms runs the last callback exactly once if the delay
      has passed since the last call, and nothing otherwise. */
  lemma {:induction false} DebounceFiresOnce(d: nat, c: Config, first: Callback, rest: seq<Tap>, wait: nat)
    requires Tight(rest, d)
    ensures Run(Debounced(d), c, Burst(first, rest) + [Elapsed(wait)]).clock == c.clock + Gaps(rest) + wait
    ensures wait >= d ==>
              Run(Debounced(d), c, Burst(first, rest) + [Elapsed(wait)])
              == Config(Idle, c.clock + Gaps(rest) + wait,
                        c.log + [Fired(LastCallback(first, rest), c.clock + Gaps(rest) + d)])
    ensures wait < d ==>
              Run(Debounced(d), c, Burst(first, rest) + [Elapsed(wait)])
              == Config(Pending(c.clock + Gaps(rest) + d, LastCallback(first, rest)), c.clock + Gaps(rest) + wait, c.log)
  {
    DebounceCoalesces(d, c, first, rest);
    RunSnoc(Debounced(d), c, Burst(first, rest), Elapsed(wait));
  }

  /** A fresh cycle: after a burst has fired, a second burst fires exactly once more,
      with its own last callback. */
  lemma {:induction false} DebounceTwoCycles(d: nat, c: Config, first1: Callback, rest1: seq<Tap>, wait1: nat,
                          first2: Callback, rest2: seq<Tap>, wait2: nat)
    requires Tight(rest1, d) && Tight(rest2, d) && wait1 >= d && wait2 >= d
    ensures var t1 := c.clock + Gaps(rest1) + d;
            var t2 := c.clock + Gaps(rest1) + wait1 + Gaps(rest2) + d;
            Run(Debounced(d), c, Burst(first1, rest1) + [Elapsed(wait1)] + Burst(first2, rest2) + [Elapsed(wait2)]).log
            == c.log + [Fired(LastCallback(first1, rest1), t1), Fired(LastCallback(first2, rest2), t2)]
  {
    var m := Debounced(d);
    var a := Burst(first1, rest1) + [Elapsed(wait1)];
    var b := Burst(first2, rest2) + [Elapsed(wait2)];
    DebounceFiresOnce(d, c, first1, rest1, wait1);
    var c1 := Run(m, c, a);
    DebounceFiresOnce(d, c1, first2, rest2, wait2);
    var f1 := Fired(LastCallback(first1, rest1), c.clock + Gaps(rest1) + d);
    var f2 := Fired(LastCallback(first2, rest2), c1.clock + Gaps(rest2) + d);
    RunTwoSteps(m, c, a, b, f1, f2);
    assert a + Burst(first2, rest2) + [Elapsed(wait2)] == a + b;
  }

  /** Only a call can start a debounce: from a state with no pending deadline,
      events without calls run nothing and leave no deadline pending. */
  lemma {:induction false} NoCallsNoDebounce(mode: Mode, c: Config, evs: seq<Event>)
    requires !c.state.Pending? && !c.state.Armed?
    requires forall i :: 0 <= i < |evs| ==> !evs[i].Call?
    ensures Run(mode, c, evs).log == c.log
    ensures !Run(mode, c, evs).state.Pending? && !Run(mode, c, evs).state.Armed?
    decreases |evs|
  {
    if evs != [] {
      NoCallsNoDebounce(mode, c, evs[..|evs| - 1]);
    }
  }

  /** Cancellation of a pending debounce: the burst's invocation never happens,
      whatever time passes; a later call starts an independent cycle that fires once. */
  lemma {:induction false} DebounceCancelled(d: nat, c: Config, first: Callback, rest: seq<Tap>,
                          quiet: seq<Event>, cb: Callback, wait: nat)
    requires Tight(rest, d) && wait >= d
    requires forall i :: 0 <= i < |quiet| ==> !quiet[i].Call?
    ensures var m := Debounced(d);
            var cancelled := Run(m, c, Burst(first, rest) + [Cancelled] + quiet);
            && cancelled.log == c.log
            && cancelled.state == Idle
            && Run(m, c, Burst(first, rest) + [Cancelled] + quiet + [Call(cb), Elapsed(wait)]).log
               == c.log + [Fired(cb, cancelled.clock + d)]
  {
    var m := Debounced(d);
    var burst := Burst(first, rest);
    DebounceCoalesces(d, c, first, rest);
    RunSnoc(m, c, burst, Cancelled);
    var afterCancel := Run(m, c, burst + [Cancelled]);
    RunAppend(m, c, burst + [Cancelled], quiet);
    NoCallsNoDebounce(m, afterCancel, quiet);
    var cancelled := Run(m, c, burst + [Cancelled] + quiet);
    assert Fits(m, cancelled.state);
    RunAppend(m, c, burst + [Cancelled] + quiet, [Call(cb), Elapsed(wait)]);
    assert Run(m, cancelled, [Call(cb), Elapsed(wait)])
        == Step(m, Step(m, cancelled, Call(cb)), Elapsed(wait)) by {
      RunSnoc(m, cancelled, [Call(cb)], Elapsed(wait));
      RunSnoc(m, cancelled, [], Call(cb));
      assert [] + [Call(cb)] == [Call(cb)];
    }
  }

  // ---------------------------------------------------------------------------
  // Throttle mode

  /** Throttling is leading edge: a burst that starts with the window open and ends
      before `window` ms have passed runs its FIRST callback at once and nothing else. */
  lemma {:induction false} ThrottleLeadingEdge(w: nat, c: Config, first: Callback, rest: seq<Tap>)
    requires !LockedAt(c.state, c.clock)
    requires Gaps(rest) < w
    ensures Run(Throttled(w), c, Burst(first, rest))
         == Config(Locked(c.clock + w), c.clock + Gaps(rest), c.log + [Fired(first, c.clock)])
    decreases |rest|
  {
    if rest != [] {
      ThrottleLeadingEdge(w, c, first, rest[..|rest| - 1]);
      RunBurstStep(Throttled(w), c, first, rest);
    }
  }

  /** No trailing invocation: in throttle mode, events without calls never run a callback. */
  lemma {:induction false} ThrottleNoTrailing(w: nat, c: Config, evs: seq<Event>)
    requires Fits(Throttled(w), c.state)
    requires forall i :: 0 <= i < |evs| ==> !evs[i].Call?
    ensures Run(Throttled(w), c, evs).log == c.log
    decreases |evs|
  {
    if evs != [] {
      ThrottleNoTrailing(w, c, evs[..|evs| - 1]);
    }
  }

  /** The window reopens: two bursts separated so that the second starts once the
      first window has closed run exactly two callbacks, the first of each burst. */
  lemma {:induction false} ThrottleTwoWindows(w: nat, c: Config, first1: Callback, rest1: seq<Tap>, wait: nat,
                           first2: Callback, rest2: seq<Tap>)
    requires !LockedAt(c.state, c.clock)
    requires Gaps(rest1) < w && Gaps(rest2) < w && Gaps(rest1) + wait >= w
    ensures Run(Throttled(w), c, Burst(first1, rest1) + [Elapsed(wait)] + Burst(first2, rest2)).log
         == c.log + [Fired(first1, c.clock), Fired(first2, c.clock + Gaps(rest1) + wait)]
  {
    var m := Throttled(w);
    var a := Burst(first1, rest1) + [Elapsed(wait)];
    RunAppend(m, c, a, Burst(first2, rest2));
    ThrottleLeadingEdge(w, c, first1, rest1);
    RunSnoc(m, c, Burst(first1, rest1), Elapsed(wait));
    var c1 := Run(m, c, a);
    var f1 := Fired(first1, c.clock);
    assert c1 == Config(Locked(c.clock + w), c.clock + Gaps(rest1) + wait, c.log + [f1]);
    ThrottleLeadingEdge(w, c1, first2, rest2);
    var f2 := Fired(first2, c1.clock);
    assert Run(m, c1, Burst(first2, rest2)).log == c1.log + [f2];
    assert c.log + [f1] + [f2] == c.log + [f1, f2];
  }

  /** Cancellation unlocks a throttle: the cancel runs nothing, and the next call,
      though still inside the original window, runs at once. */
  lemma {:induction false} ThrottleCancelUnlocks(w: nat, c: Config, first: Callback, rest: seq<Tap>, cb: Callback)
    requires !LockedAt(c.state, c.clock)
    requires Gaps(rest) < w
    ensures var m := Throttled(w);
            && Run(m, c, Burst(first, rest) + [Cancelled]).log == c.log + [Fired(first, c.clock)]
            && LockedAt(Run(m, c, Burst(first, rest)).state, c.clock + Gaps(rest))
            && Run(m, c, Burst(first, rest) + [Cancelled, Call(cb)]).log
               == c.log + [Fired(first, c.clock), Fired(cb, c.clock + Gaps(rest))]
  {
    var m := Throttled(w);
    var burst := Burst(first, rest);
    ThrottleLeadingEdge(w, c, first, rest);
    var locked := Run(m, c, burst);
    var f1 := Fired(first, c.clock);
    assert locked == Config(Locked(c.clock + w), c.clock + Gaps(rest), c.log + [f1]);
    RunSnoc(m, c, burst, Cancelled);
    var unlocked := Run(m, c, burst + [Cancelled]);
    assert unlocked == Config(Idle, locked.clock, locked.log);
    assert burst + [Cancelled, Call(cb)] == (burst + [Cancelled]) + [Call(cb)];
    RunSnoc(m, c, burst + [Cancelled], Call(cb));
    assert Step(m, unlocked, Call(cb)).log == c.log + [f1] + [Fired(cb, locked.clock)];
    assert c.log + [f1] + [Fired(cb, locked.clock)] == c.log + [f1, Fired(cb, locked.clock)];
  }
}
