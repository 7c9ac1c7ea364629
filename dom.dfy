/** The document-level scheduler behind `DOM.debounce(el, "phx-debounce", "phx-throttle", callback)`:
    one timing state per element, calls and blurs on single elements, `phx-change`
    and `submit` on a form cancelling the timing of the form's elements, and an
    explicit clock in place of `setTimeout`. */
module Dom {
  import opened Modes
  import opened Timing

  type ElementId = nat

  /** The elements of a page: the attributes of each, and the form that encloses it. */
  datatype Document = Document(attrs: map<ElementId, map<string, string>>, formOf: map<ElementId, ElementId>)

  function AttrsOf(doc: Document, e: ElementId): map<string, string> {
    if e in doc.attrs then doc.attrs[e] else map[]
  }

  /** `e` is `scope` itself or an element of the form `scope`. */
  predicate InScope(doc: Document, e: ElementId, scope: ElementId) {
    e == scope || (e in doc.formOf && doc.formOf[e] == scope)
  }

  /** A lifecycle event on `scope` reaches `e`: `e` is in scope and did not trigger the event. */
  predicate Swept(doc: Document, e: ElementId, scope: ElementId, exclude: Option<ElementId>) {
    InScope(doc, e, scope) && exclude != Some(e)
  }

  /** One invocation of the callback `cb` passed for element `el`, at time `at`. */
  datatype Invocation = Invocation(el: ElementId, cb: Callback, at: nat)

  /** The invocations made for `e`, in order. */
  function LogOf(log: seq<Invocation>, e: ElementId): (r: seq<Fired>)
    ensures |r| <= |log|
    ensures forall f :: f in r <==> exists i :: 0 <= i < |log| && log[i].el == e && f == Fired(log[i].cb, log[i].at)
    decreases |log|
  {
    if log == [] then []
    else
      var x := log[|log| - 1];
      LogOf(log[..|log| - 1], e) + (if x.el == e then [Fired(x.cb, x.at)] else [])
  }

  lemma {:induction false} LogOfSnoc(log: seq<Invocation>, x: Invocation, e: ElementId)
    ensures LogOf(log + [x], e) == LogOf(log, e) + (if x.el == e then [Fired(x.cb, x.at)] else [])
  {
    assert (log + [x])[..|log|] == log;
  }

  function StateOf(timing: map<ElementId, State>, e: ElementId): State {
    if e in timing then timing[e] else Idle
  }

  /** What the page looks like from element `e`: its state, the clock and its invocations. */
  function View(timing: map<ElementId, State>, clock: nat, log: seq<Invocation>, e: ElementId): Config {
    Config(StateOf(timing, e), clock, LogOf(log, e))
  }

  /** What one `DOM.debounce` call did. */
  datatype Outcome =
    | Invoked                      // the callback ran at once (throttle, window open)
    | Dropped                      // the call fell inside a throttle window
    | Deferred                     // a debounce deadline was (re)armed
    | Listening                    // blur mode: the element runs the callback on blur
    | Rejected(error: ResolveError)  // the element declares no usable mode

  /** What happens on a page, in the order it happens. */
  datatype DomEvent =
    | DebounceCall(el: ElementId, cb: Callback)                 // `DOM.debounce(el, …, cb)`
    | Blur(el: ElementId)                                       // `el` loses focus
    | PhxChange(form: ElementId, triggeredBy: Option<ElementId>)  // `phx-change` on `form`
    | Submit(form: ElementId)                                   // `submit` on `form`
    | Wait(ms: nat)                                             // `ms` milliseconds pass

  /** What a page event means for element `e`, if anything. */
  function Project(doc: Document, ev: DomEvent, e: ElementId): Option<Event> {
    match ev
    case DebounceCall(el, cb) => if el == e then Some(Call(cb)) else None
    case Blur(el) => if el == e then Some(Blurred) else None
    case PhxChange(form, origin) => if Swept(doc, e, form, origin) then Some(Cancelled) else None
    case Submit(form) => if Swept(doc, e, form, None) then Some(Cancelled) else None
    case Wait(ms) => Some(Elapsed(ms))
  }

  function Emitted(o: Option<Event>): seq<Event> {
    match o
    case Some(x) => [x]
    case None => []
  }

  /** The events that reach element `e`, in order. */
  function ProjectAll(doc: Document, evs: seq<DomEvent>, e: ElementId): seq<Event>
    decreases |evs|
  {
    if evs == [] then []
    else ProjectAll(doc, evs[..|evs| - 1], e) + Emitted(Project(doc, evs[|evs| - 1], e))
  }

  /** The time that page events let pass. */
  function Waited(evs: seq<DomEvent>): nat
    decreases |evs|
  {
    if evs == [] then 0
    else Waited(evs[..|evs| - 1]) + (if evs[|evs| - 1].Wait? then evs[|evs| - 1].ms else 0)
  }

  lemma {:induction false} WaitedSnoc(evs: seq<DomEvent>, ev: DomEvent)
    ensures Waited(evs + [ev]) == Waited(evs) + (if ev.Wait? then ev.ms else 0)
  {
    assert (evs + [ev])[..|evs|] == evs;
  }

  /** Every element sees all the time that passes on the page. */
  lemma {:induction false} WaitedReachesAll(doc: Document, evs: seq<DomEvent>, e: ElementId)
    ensures TotalElapsed(ProjectAll(doc, evs, e)) == Waited(evs)
    decreases |evs|
  {
    if evs != [] {
      var pre, ev := evs[..|evs| - 1], evs[|evs| - 1];
      WaitedReachesAll(doc, pre, e);
      var p := ProjectAll(doc, pre, e);
      match Project(doc, ev, e)
      case None =>
        assert p + [] == p;
      case Some(x) =>
        assert (p + [x])[..|p|] == p;
    }
  }

  lemma {:induction false} ProjectAllSnoc(doc: Document, evs: seq<DomEvent>, ev: DomEvent, e: ElementId)
    ensures ProjectAll(doc, evs + [ev], e) == ProjectAll(doc, evs, e) + Emitted(Project(doc, ev, e))
  {
    assert (evs + [ev])[..|evs|] == evs;
  }

  /** Events that all reach `e` arrive at `e` one for one and in order. */
  lemma {:induction false} ProjectAllReaching(doc: Document, evs: seq<DomEvent>, e: ElementId)
    requires forall i :: 0 <= i < |evs| ==> Project(doc, evs[i], e).Some?
    ensures |ProjectAll(doc, evs, e)| == |evs|
    ensures forall i :: 0 <= i < |evs| ==> ProjectAll(doc, evs, e)[i] == Project(doc, evs[i], e).value
    decreases |evs|
  {
    if evs != [] {
      var pre := evs[..|evs| - 1];
      ProjectAllReaching(doc, pre, e);
    }
  }

  /** The timing state of every element of a page, the clock, and every callback invocation. */
  class Scheduler {
    const doc: Document
    const debounceAttr: string
    const throttleAttr: string

    var clock: nat
    var timing: map<ElementId, State>
    var log: seq<Invocation>

    /** The mode element `e` declares. */
    function ModeOf(e: ElementId): Resolution {
      Resolve(AttrsOf(doc, e), debounceAttr, throttleAttr)
    }

    /** Only elements with a mode hold state, it is a state of their mode, and no
        debounce deadline lies in the past. */
    ghost predicate Valid()
      reads this
    {
      Sound(timing, clock)
    }

    ghost predicate Sound(timing: map<ElementId, State>, clock: nat) {
      forall e :: e in timing ==>
        && ModeOf(e).Ok?
        && Fits(ModeOf(e).mode, timing[e])
        && !timing[e].Idle?
        && (timing[e].Pending? ==> clock <= timing[e].deadline)
    }

    /** How many times the callbacks passed for `e` have run: the tests' `calls` counter. */
    function Calls(e: ElementId): nat
      reads this
    {
      |LogOf(log, e)|
    }

    constructor (doc: Document, debounceAttr: string, throttleAttr: string)
      ensures Valid()
      ensures this.doc == doc && this.debounceAttr == debounceAttr && this.throttleAttr == throttleAttr
      ensures clock == 0 && timing == map[] && log == []
    {
      this.doc := doc;
      this.debounceAttr := debounceAttr;
      this.throttleAttr := throttleAttr;
      clock := 0;
      timing := map[];
      log := [];
    }

    /** `DOM.debounce(el, debounceAttr, throttleAttr, cb)` at the current time. */
    method Debounce(el: ElementId, cb: Callback) returns (outcome: Outcome)
      requires Valid()
      modifies this
      ensures Valid() && clock == old(clock)
      ensures ModeOf(el).Err? ==>
                outcome == Rejected(ModeOf(el).error) && timing == old(timing) && log == old(log)
      ensures ModeOf(el).Ok? ==>
                var mode := ModeOf(el).mode;
                var r := Schedule(mode, StateOf(old(timing), el), clock, cb);
                && timing == old(timing)[el := r.next]
                && log == old(log) + (if r.fire.Some? then [Invocation(el, cb, clock)] else [])
                && (outcome == Invoked <==> r.fire.Some?)
                && (outcome == Dropped <==> mode.Throttled? && r.fire.None?)
                && (outcome == Deferred <==> mode.Debounced?)
                && (outcome == Listening <==> mode.OnBlur?)
      ensures forall e :: ModeOf(e).Ok? ==>
                View(timing, clock, log, e)
                == if e == el then Step(ModeOf(e).mode, View(old(timing), old(clock), old(log), e), Call(cb))
                   else View(old(timing), old(clock), old(log), e)
      ensures forall e :: ModeOf(e).Err? ==> LogOf(log, e) == LogOf(old(log), e)
    {
      match ModeOf(el)
      case Err(error) =>
        outcome := Rejected(error);
      case Ok(mode) =>
        var r := Schedule(mode, StateOf(timing, el), clock, cb);
        timing := timing[el := r.next];
        if r.fire.Some? {
          log := log + [Invocation(el, cb, clock)];
          outcome := Invoked;
        } else {
          outcome := match mode
            case OnBlur => Listening
            case Debounced(_) => Deferred
            case Throttled(_) => Dropped;
        }
        forall e ensures LogOf(log, e) == LogOf(old(log), e) + (if e == el && r.fire.Some? then [Fired(cb, clock)] else []) {
          if r.fire.Some? {
            LogOfSnoc(old(log), Invocation(el, cb, clock), e);
          }
        }
    }

    /** A blur on `el`: runs the callback of a blur-mode element. */
    method Blur(el: ElementId)
      requires Valid()
      modifies this
      ensures Valid() && clock == old(clock) && timing == old(timing)
      ensures log == old(log) + match StateOf(timing, el) case Armed(cb) => [Invocation(el, cb, clock)] case _ => []
      ensures forall e :: ModeOf(e).Ok? ==>
                View(timing, clock, log, e)
                == if e == el then Step(ModeOf(e).mode, View(old(timing), old(clock), old(log), e), Blurred)
                   else View(old(timing), old(clock), old(log), e)
      ensures forall e :: ModeOf(e).Err? ==> LogOf(log, e) == LogOf(old(log), e)
    {
      match StateOf(timing, el)
      case Armed(cb) =>
        log := log + [Invocation(el, cb, clock)];
        forall e ensures LogOf(log, e) == LogOf(old(log), e) + (if e == el then [Fired(cb, clock)] else []) {
          LogOfSnoc(old(log), Invocation(el, cb, clock), e);
        }
      case _ =>
    }

    /** A lifecycle event on `scope` (a `phx-change` triggered by `exclude`, or a `submit`
        when `exclude` is `None`): every element in scope except `exclude` loses its
        pending debounce or its throttle lock; blur listeners stay. */
    method Cancel(scope: ElementId, exclude: Option<ElementId>)
      requires Valid()
      modifies this
      ensures Valid() && clock == old(clock) && log == old(log)
      ensures timing == map e | e in old(timing) && !(Swept(doc, e, scope, exclude) && Timing.Cancel(old(timing)[e]).Idle?)
                              :: old(timing)[e]
      ensures exclude.Some? ==> StateOf(timing, exclude.value) == StateOf(old(timing), exclude.value)
      ensures forall e :: ModeOf(e).Ok? ==>
                View(timing, clock, log, e)
                == if Swept(doc, e, scope, exclude)
                   then Step(ModeOf(e).mode, View(old(timing), old(clock), old(log), e), Cancelled)
                   else View(old(timing), old(clock), old(log), e)
    {
      timing := map e | e in timing && !(Swept(doc, e, scope, exclude) && Timing.Cancel(timing[e]).Idle?) :: timing[e];
    }

    /** `ms` milliseconds pass: every debounce whose deadline falls within them runs
        its callback, at its deadline. */
    method Advance(ms: nat)
      requires Valid()
      modifies this
      ensures Valid() && clock == old(clock) + ms && old(log) <= log
      ensures timing == map e | e in old(timing) && !Due(old(timing)[e], clock) :: old(timing)[e]
      ensures forall e :: View(timing, clock, log, e) == Tick(View(old(timing), old(clock), old(log), e), ms)
    {
      ghost var t0 := timing;
      var now := clock + ms;
      FireDue(now);
      assert Sound(t0, clock);
      clock := now;
    }

    /** Runs, one element at a time, every pending debounce due by `now`. */
    method FireDue(now: nat)
      requires clock <= now
      modifies this`timing, this`log
      ensures old(log) <= log
      ensures timing == map e | e in old(timing) && !Due(old(timing)[e], now) :: old(timing)[e]
      ensures forall e :: View(timing, now, log, e) == Tick(View(old(timing), clock, old(log), e), now - clock)
    {
      var due := set e | e in timing && Due(timing[e], now);
      ghost var t0, l0, c0, ms := timing, log, clock, now - clock;
      FireStart(t0, l0, c0, ms, due);
      while due != {}
        invariant Firing(t0, l0, c0, ms, timing, log, due)
        decreases due
      {
        var e :| e in due;
        assert e in timing;
        var p := timing[e];
        ghost var t1, l1, due1 := timing, log, due;
        timing := timing - {e};
        log := log + [Invocation(e, p.cb, p.deadline)];
        due := due - {e};
        FireOne(t0, l0, c0, ms, t1, l1, due1, e, timing, log, due);
      }
      FireDone(t0, l0, c0, ms, timing, log);
    }

    /** Handles one page event with the method that handles it. */
    method Dispatch(ev: DomEvent)
      requires Valid()
      modifies this
      ensures Valid() && clock == old(clock) + (if ev.Wait? then ev.ms else 0)
      ensures forall e :: ModeOf(e).Ok? ==>
                View(timing, clock, log, e)
                == match Project(doc, ev, e)
                   case Some(x) => Step(ModeOf(e).mode, View(old(timing), old(clock), old(log), e), x)
                   case None => View(old(timing), old(clock), old(log), e)
      ensures forall e :: ModeOf(e).Err? ==> LogOf(log, e) == LogOf(old(log), e)
    {
      match ev {
        case DebounceCall(el, cb) =>
          var _ := Debounce(el, cb);
        case Blur(el) =>
          Blur(el);
        case PhxChange(form, origin) =>
          Cancel(form, origin);
        case Submit(form) =>
          Cancel(form, None);
        case Wait(ms) =>
          Advance(ms);
          forall e | ModeOf(e).Err? ensures LogOf(log, e) == LogOf(old(log), e) {
            assert e !in old(timing);
            assert View(timing, clock, log, e) == Tick(View(old(timing), old(clock), old(log), e), ms);
          }
      }
    }

    /** Replays page events in order. */
    method Replay(evs: seq<DomEvent>)
      requires Valid()
      modifies this
      ensures Valid() && clock == old(clock) + Waited(evs)
      ensures forall e :: ModeOf(e).Ok? ==>
                View(timing, clock, log, e)
                == Run(ModeOf(e).mode, View(old(timing), old(clock), old(log), e), ProjectAll(doc, evs, e))
      ensures forall e :: ModeOf(e).Err? ==> LogOf(log, e) == LogOf(old(log), e)
    {
      ghost var t0, c0, l0 := timing, clock, log;
      var i := 0;
      while i < |evs|
        invariant 0 <= i <= |evs|
        invariant Valid() && clock == c0 + Waited(evs[..i])
        invariant forall e :: ModeOf(e).Ok? ==>
                    View(timing, clock, log, e) == Run(ModeOf(e).mode, View(t0, c0, l0, e), ProjectAll(doc, evs[..i], e))
        invariant forall e :: ModeOf(e).Err? ==> LogOf(log, e) == LogOf(l0, e)
      {
        ghost var t1, c1, l1 := timing, clock, log;
        Dispatch(evs[i]);
        WaitedSnoc(evs[..i], evs[i]);
        forall e | ModeOf(e).Ok?
          ensures View(timing, clock, log, e) == Run(ModeOf(e).mode, View(t0, c0, l0, e), ProjectAll(doc, evs[..i] + [evs[i]], e))
        {
          ReplayStep(ModeOf(e).mode, View(t0, c0, l0, e), View(t1, c1, l1, e), View(timing, clock, log, e), doc, evs[..i], evs[i], e);
        }
        assert evs[..i + 1] == evs[..i] + [evs[i]];
        i := i + 1;
      }
      assert evs[..i] == evs;
    }
  }

  /** The invariant of the loop in `FireDue`: the elements left in `due` still wait
      for their invocation, every other element already looks as `ms` more ms make it. */
  ghost predicate Firing(t0: map<ElementId, State>, l0: seq<Invocation>, c0: nat, ms: nat,
                         t: map<ElementId, State>, l: seq<Invocation>, due: set<ElementId>)
  {
    && l0 <= l
    && due <= t.Keys
    && (forall e :: e in t <==> e in t0 && (e in due || !Due(t0[e], c0 + ms)))
    && (forall e :: e in t ==> t[e] == t0[e])
    && (forall e :: e in due ==> Due(t0[e], c0 + ms) && LogOf(l, e) == LogOf(l0, e))
    && (forall e :: e !in due ==> View(t, c0 + ms, l, e) == Tick(View(t0, c0, l0, e), ms))
  }

  lemma {:induction false} FireStart(t0: map<ElementId, State>, l0: seq<Invocation>, c0: nat, ms: nat, due: set<ElementId>)
    requires due == set e | e in t0 && Due(t0[e], c0 + ms)
    ensures Firing(t0, l0, c0, ms, t0, l0, due)
  {
    forall e | e !in due ensures View(t0, c0 + ms, l0, e) == Tick(View(t0, c0, l0, e), ms) {
      assert !Due(StateOf(t0, e), c0 + ms);
    }
  }

  /** Running the due debounce of `e` keeps the invariant of the loop in `FireDue`. */
  lemma {:induction false} FireOne(t0: map<ElementId, State>, l0: seq<Invocation>, c0: nat, ms: nat,
                                   t1: map<ElementId, State>, l1: seq<Invocation>, due1: set<ElementId>, e: ElementId,
                                   t2: map<ElementId, State>, l2: seq<Invocation>, due2: set<ElementId>)
    requires Firing(t0, l0, c0, ms, t1, l1, due1) && e in due1
    requires t2 == t1 - {e} && l2 == l1 + [Invocation(e, t1[e].cb, t1[e].deadline)] && due2 == due1 - {e}
    ensures Firing(t0, l0, c0, ms, t2, l2, due2)
  {
    var x0 := Invocation(e, t1[e].cb, t1[e].deadline);
    forall x | x !in due2 ensures View(t2, c0 + ms, l2, x) == Tick(View(t0, c0, l0, x), ms) {
      LogOfSnoc(l1, x0, x);
      if x != e {
        assert StateOf(t2, x) == StateOf(t1, x);
      } else {
        assert LogOf(l1, e) == LogOf(l0, e);
        assert StateOf(t0, e) == t0[e];
      }
    }
    forall x | x in due2 ensures LogOf(l2, x) == LogOf(l0, x) {
      LogOfSnoc(l1, x0, x);
    }
  }

  lemma {:induction false} FireDone(t0: map<ElementId, State>, l0: seq<Invocation>, c0: nat, ms: nat,
                                    t: map<ElementId, State>, l: seq<Invocation>)
    requires Firing(t0, l0, c0, ms, t, l, {})
    ensures l0 <= l
    ensures t == map e | e in t0 && !Due(t0[e], c0 + ms) :: t0[e]
    ensures forall e :: View(t, c0 + ms, l, e) == Tick(View(t0, c0, l0, e), ms)
  {
  }

  /** One more page event extends each element's run by what the event means for it. */
  lemma {:induction false} ReplayStep(mode: Mode, c0: Config, c1: Config, c2: Config, doc: Document,
                                      evs: seq<DomEvent>, ev: DomEvent, e: ElementId)
    requires c1 == Run(mode, c0, ProjectAll(doc, evs, e))
    requires c2 == match Project(doc, ev, e) case Some(x) => Step(mode, c1, x) case None => c1
    ensures c2 == Run(mode, c0, ProjectAll(doc, evs + [ev], e))
  {
    ProjectAllSnoc(doc, evs, ev, e);
    var pre := ProjectAll(doc, evs, e);
    match Project(doc, ev, e)
    case Some(x) =>
      RunSnoc(mode, c0, pre, x);
    case None =>
      assert pre + [] == pre;
  }
}
