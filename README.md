# Debounce and throttle scheduling of Phoenix LiveView elements

This project models the scheduler that `DOM.debounce(el, "phx-debounce", "phx-throttle", callback)`
drives in `assets/test/debounce_test.js`. The scheduler rate-limits the callbacks of a
page's form controls. The model proves the behaviour the test file asserts.

- **Mode resolution** (`Modes`). Each element declares a mode through its attributes:
  - `phx-debounce="blur"` gives `OnBlur`: every blur runs the callback.
  - `phx-debounce="<ms>"` gives `Debounced(ms)`: a trailing-edge debounce that runs the last call's
    callback `ms` milliseconds after the last call.
  - `phx-throttle="<ms>"` gives `Throttled(ms)`: a leading-edge throttle. The first call runs at once,
    and calls inside the `ms` window are dropped for good.
- **Per-element timing** (`Timing`). One element's state is `Idle`, `Armed` (a blur listener),
  `Pending` (a debounce deadline and its callback) or `Locked` (a throttle window end). It changes
  through four events: a call, a blur, a cancellation and the passing of time.
  - `Run` folds a trace of events over one element. Time is an explicit clock.
  - Each invocation is logged with its callback and its time. The length of an element's log is the
    test's `calls` counter.
- **The page** (`Dom`). A class, `Scheduler`, holds the clock, a map from element id to state and the
  log of invocations. Its methods are:
  - `Debounce`: the `DOM.debounce` call;
  - `Blur`;
  - `Cancel`: a `phx-change` on a form, with an optional originating element, or a `submit`;
  - `Advance`: time passes, and due debounces fire;
  - `Dispatch` and `Replay`: handle one page event, or a whole sequence of them in a loop.

  Every method is proved against the per-element machine. For every element that declares a mode,
  the element's view after the call equals `Timing.Step` (`Timing.Tick` for `Advance`, `Timing.Run`
  for `Replay`) applied to its view before the call. An element without a mode never gains an
  invocation.
- **The tests** (`DebounceTest`). The fixture of `container()` (lines 11-22) is a form holding the four
  controls. Each test becomes a method: it builds a `Scheduler`, replays the test's events segment by
  segment, and returns the `calls` counter at every point where the test checks it. Each method's
  postcondition is the test's expectations.

## Model

| member | source | states |
|---|---|---|
| `Modes.ParseMillis` | assets/test/debounce_test.js:16-18 | a millisecond attribute value is accepted exactly when it is a non-empty string of decimal digits |
| `Modes.RenderMillis` | assets/test/debounce_test.js:16-18 | the spelling of a count of milliseconds is non-empty, all digits, and has no leading zero |
| `Modes.ParseRenderMillis` | assets/test/debounce_test.js:16-18 | reading back a rendered count of milliseconds gives the count (round trip) |
| `Modes.Resolve` | assets/test/debounce_test.js:15-18 | the mode comes from the one rate-limit attribute present: a throttle mode only from `phx-throttle`, a blur or debounce mode only from `phx-debounce`; no attribute is `NoTrigger`, and two are never `Ok` |
| `Modes.ResolveDeclare` | assets/test/debounce_test.js:15-18 | every mode can be declared by attributes, and resolving that declaration gives the mode back |
| `Timing.Schedule` | assets/test/debounce_test.js:113-126 | a call runs its callback at once exactly when the element throttles and its window is not open; a debounce call sets the deadline `delay` ms ahead with this call's callback; a call inside an open window changes nothing |
| `Timing.Cancel` | assets/test/debounce_test.js:63-84 | a cancellation turns a pending debounce or a throttle lock into an idle element; a blur listener and an idle element stay as they are |
| `Timing.Tick` | assets/test/debounce_test.js:49-51 | after `ms` ms, a debounce whose deadline has passed has run once, stamped with its deadline, and the element is idle; otherwise only the clock moves |
| `Timing.Step` | assets/test/debounce_test.js:24-188 | one event logs at most one invocation, and logs one exactly for a call on an unlocked throttle, a blur on an armed element, or time reaching a debounce deadline; the element stays in a state of its mode |
| `Timing.Run` | assets/test/debounce_test.js:24-188 | a trace only extends the log, by at most one invocation per event, and moves the clock by the total time waited |
| `Timing.RunAppend` | assets/test/debounce_test.js:52-58 | running two traces one after the other is running their concatenation |
| `Timing.BlurFiresEveryTime` | assets/test/debounce_test.js:33-36 | once armed, `k` blurs run the callback exactly `k` times and change nothing else |
| `Timing.ArmThenBlur` | assets/test/debounce_test.js:25-37 | one call followed by `k` blurs gives exactly `k` invocations of that call's callback |
| `Timing.DebounceCoalesces` | assets/test/debounce_test.js:46-48 | calls closer together than the delay run nothing yet and leave one deadline, `delay` ms after the last call, carrying the last call's callback |
| `Timing.DebounceFiresOnce` | assets/test/debounce_test.js:39-51 | after such a burst, waiting at least the delay runs the last callback exactly once, at its deadline; a shorter wait runs nothing |
| `Timing.DebounceTwoCycles` | assets/test/debounce_test.js:52-58 | after a burst has fired, a second burst runs exactly one more invocation, with its own last callback |
| `Timing.NoCallsNoDebounce` | assets/test/debounce_test.js:75-77 | from a state without a deadline or listener, events without calls run nothing and leave no deadline and no listener |
| `Timing.DebounceCancelled` | assets/test/debounce_test.js:63-108 | a cancelled burst never runs, whatever time passes; a later call starts a fresh cycle that runs once |
| `Timing.ThrottleLeadingEdge` | assets/test/debounce_test.js:123-127 | a burst shorter than the window runs only its first callback, at once, and locks the window |
| `Timing.ThrottleNoTrailing` | assets/test/debounce_test.js:128-130 | in throttle mode, events without calls never run a callback, so nothing trails the window |
| `Timing.ThrottleTwoWindows` | assets/test/debounce_test.js:131-137 | once the window has passed, a second burst runs exactly one more callback, the first of that burst |
| `Timing.ThrottleCancelUnlocks` | assets/test/debounce_test.js:142-186 | a cancellation inside the window runs nothing, and the next call, still inside the window, runs at once |
| `Dom.LogOf` | assets/test/debounce_test.js:26-29 | an element's invocations are exactly the invocations of the page log made for that element, and never more than the page's |
| `Dom.WaitedReachesAll` | assets/test/debounce_test.js:49-56 | every element sees all the time that passes on the page: the time in the events that reach it is the time the page events let pass |
| `Dom.ProjectAllReaching` | assets/test/debounce_test.js:46-48 | page events that all reach an element arrive at it one for one and in order |
| `Dom.Scheduler.constructor` | assets/test/debounce_test.js:11-22 | a new page has the clock at 0, no timing state and no invocations |
| `Dom.Scheduler.Debounce` | assets/test/debounce_test.js:29 | a call on an element without a mode is rejected and changes nothing; otherwise it applies `Timing.Schedule` to that element only, logs the invocation when the callback runs at once, and reports whether it ran, was dropped, was deferred or installed a listener |
| `Dom.Scheduler.Blur` | assets/test/debounce_test.js:30-35 | a blur runs the callback of an armed element, at the current time, and changes nothing else |
| `Dom.Scheduler.Cancel` | assets/test/debounce_test.js:155 | a `phx-change` or `submit` on a form cancels every element of the form except the originator, whose state is unchanged; the cancellation runs nothing |
| `Dom.Scheduler.Advance` | assets/test/debounce_test.js:49 | after `ms` ms, every element looks as `Timing.Tick` makes it: each due debounce has run once, at its deadline, and left the map; the log only grows |
| `Dom.Scheduler.FireDue` | assets/test/debounce_test.js:49 | the loop that runs every due debounce leaves exactly the entries that were not due, and every element as the tick makes it |
| `Dom.Scheduler.Dispatch` | assets/test/debounce_test.js:29-35 | one page event moves every element with a mode by exactly the event that reaches it, never logs for an element without a mode, and moves the page clock by the time a wait lets pass |
| `Dom.Scheduler.Replay` | assets/test/debounce_test.js:123-125 | a sequence of page events leaves each element with a mode as `Timing.Run` over the events that reach it, never logs for an element without a mode, and moves the page clock by the total time waited |
| `DebounceTest.ContainerModes` | assets/test/debounce_test.js:14-18 | the blur input, the 100 ms debounce input and the two 100 ms throttle controls resolve to their modes, and the form declares none |
| `DebounceTest.Checkpoints` | assets/test/debounce_test.js:24-188 | replaying a test's segments one after another reads, after each segment, the count of invocations that `Timing.Run` predicts |
| `DebounceTest.BlurFirstTrace` | assets/test/debounce_test.js:29-31 | the call arms the blur input and the first blur runs the callback once |
| `DebounceTest.BlurThreeTrace` | assets/test/debounce_test.js:33-36 | three more blurs run the callback three more times |
| `DebounceTest.TriggersOnInputBlur` | assets/test/debounce_test.js:25-37 | the counter reads 1 after the first blur and 4 after three more |
| `DebounceTest.ThreeInputsTrace` | assets/test/debounce_test.js:46-48 | three quick inputs leave one deadline, 100 ms away, for the third input's callback |
| `DebounceTest.DebounceWaitTrace` | assets/test/debounce_test.js:49-50 | 100 ms later that callback has run once, at its deadline |
| `DebounceTest.TriggersOnTimeout` | assets/test/debounce_test.js:39-61 | the counter reads 1 after the first three inputs and 100 ms, and 2 after three more and another 100 ms |
| `DebounceTest.CancelledInputTrace` | assets/test/debounce_test.js:73-76 | an input cancelled before its deadline has not run 100 ms later |
| `DebounceTest.InputAgainTrace` | assets/test/debounce_test.js:78-80 | after the cancellation, the next input runs once 100 ms later |
| `DebounceTest.DebounceThenCancel` | assets/test/debounce_test.js:63-108 | with a `phx-change` without originator or a `submit`, the counter reads 0 after the cancellation and 100 ms, and 1 after the next input and 100 ms |
| `DebounceTest.CancelsDebounceOnPhxChange` | assets/test/debounce_test.js:63-85 | the counter reads 0 and then 1 |
| `DebounceTest.CancelsDebounceOnSubmit` | assets/test/debounce_test.js:87-109 | the counter reads 0 and then 1 |
| `DebounceTest.ThreeClicksTrace` | assets/test/debounce_test.js:123-126 | three clicks with the window open run the first callback at once and lock the window for 100 ms |
| `DebounceTest.ThrottleWaitTrace` | assets/test/debounce_test.js:128-130 | 100 ms passing over a throttle runs nothing |
| `DebounceTest.ThrottleTriggersImmediately` | assets/test/debounce_test.js:113-140 | the counter reads 1 after three clicks, still 1 after 100 ms, and 2 after three more clicks and 100 ms |
| `DebounceTest.CancelledWindowTrace` | assets/test/debounce_test.js:153-156 | two inputs and a cancellation run the first input's callback only, and leave no lock |
| `DebounceTest.ThirdInputTrace` | assets/test/debounce_test.js:158-161 | with the lock gone, the third input runs at once, inside the first window |
| `DebounceTest.ThrottleThenCancel` | assets/test/debounce_test.js:142-186 | with a `phx-change` from another control or a `submit`, the counter reads 1 after the cancellation and 2 after the third input |
| `DebounceTest.CancelsThrottleOnPhxChange` | assets/test/debounce_test.js:142-164 | the counter reads 1 and then 2 |
| `DebounceTest.CancelsThrottleOnSubmit` | assets/test/debounce_test.js:166-187 | the counter reads 1 and then 2 |

## Left out

- `js/phoenix_live_view.js`, which implements `DOM.debounce`, is not part of this model. The model is
  an abstract scheduler that does what the test asserts. Where the test leaves the mechanism open,
  the model makes its own choices:
  - each element has its own timing state;
  - throttle windows expire lazily, so a call compares the clock with the window end;
  - a `phx-change` or `submit` on a form cancels the timing of the form's elements.
  Where the real library stores that state, and how it forgets elements that leave the page, is not
  modelled.
- Blur mode: the call installs a blur listener and each blur runs the callback. That meets lines
  29-36: the counter is 1 after the call and one blur (line 31), and each further blur adds one
  (line 36). The test never reads the counter between the call and the first blur, so the choice that
  the call itself runs nothing is the model's.
- `Timing.Schedule`: a second call on an element whose blur listener is installed keeps the first
  listener and its callback. The test never calls twice.
- Real DOM dispatch, `addEventListener` and `querySelector` (lines 6-22) are not modelled. Page events are
  values of `Dom.DomEvent` on element ids. Each `input` or `click` handler in the tests calls `DOM.debounce`
  once, so it becomes one `DebounceCall`.
- `setTimeout` (line 4) is replaced by the clock and `Wait(ms)`. When a debounce deadline and a test's
  `after` callback fall due at the same instant, the debounce runs first. Its timer was set earlier.
- The writes to `el.value` and `el.innerText` (lines 7, 71, 95, 120) and their expectations (lines 51,
  57, 77, 81, 101, 105, 127, 130, 136, 157, 161, 180, 184) are not modelled. They belong to the tests'
  own listeners. Callbacks are numbers, and the log records which one ran and when.
- The `phoenix` imports (lines 1-2) are not modelled. They are unused.
- The fixture keeps only the attributes the scheduler reads. `type`, `name`, `id` and the form's
  `phx-change`/`phx-submit` bindings play no part.
- `Modes.Resolve`: three cases are modelling choices that the tests do not cover:
  - an element declaring both attributes is rejected as `Ambiguous`;
  - a value that is neither `blur` nor decimal digits is rejected as `Malformed`;
  - an element declaring neither attribute resolves to `NoTrigger`, and `Dom.Scheduler.Debounce`
    rejects a call on it and changes nothing. No test calls `DOM.debounce` on such an element.
- `Dom.Scheduler.Cancel`: the originator of a `phx-change` is left untouched. This is a modelling
  choice. The tests only use an originator other than the cancelled element (line 155), so they say
  nothing about an element that triggers the change itself.
- `Dom.Scheduler.Cancel`: an element is in a form's scope when it is the form or the form encloses it
  directly (`Document.formOf`). Deeper nesting is not modelled.
- `Dom.Scheduler.Advance`: several debounces can fall due in one step. The per-element logs are exact,
  but the order in which the page log interleaves those invocations is not specified.
