/** Mode resolution: which rate-limiting mode an element asks for, read from
    its debounce and throttle attributes (`phx-debounce`, `phx-throttle`). */
module Modes {

  datatype Option<+T> = None | Some(value: T)

  /** The three trigger modes of an element. */
  datatype Mode =
    | OnBlur                    // `phx-debounce="blur"`: fire on every blur
    | Debounced(delay: nat)     // `phx-debounce="<ms>"`: trailing edge, `delay` ms after the last call
    | Throttled(window: nat)    // `phx-throttle="<ms>"`: leading edge only, then locked for `window` ms

  datatype ResolveError =
    | NoTrigger                 // neither attribute is declared
    | Ambiguous                 // both attributes are declared
    | Malformed(value: string)  // the declared value is neither the sentinel nor a number of ms

  datatype Resolution = Ok(mode: Mode) | Err(error: ResolveError)

  /** The reserved debounce value that selects `OnBlur`. */
  const BlurSentinel: string := "blur"

  predicate IsDigit(c: char) {
    '0' <= c <= '9'
  }

  predicate AllDigits(s: string) {
    forall i :: 0 <= i < |s| ==> IsDigit(s[i])
  }

  function DigitChar(d: nat): (c: char)
    requires d < 10
    ensures IsDigit(c) && c as int - '0' as int == d
  {
    ('0' as int + d) as char
  }

  /** The number a string of decimal digits denotes (most significant first). */
  function DigitsValue(s: string): nat
    requires AllDigits(s)
    decreases |s|
  {
    if s == [] then 0
    else 10 * DigitsValue(s[..|s| - 1]) + (s[|s| - 1] as int - '0' as int)
  }

  /** A millisecond count as the attributes write it: one or more decimal digits. */
  function ParseMillis(s: string): (r: Option<nat>)
    ensures r.Some? <==> s != [] && AllDigits(s)
  {
    if s != [] && AllDigits(s) then Some(DigitsValue(s)) else None
  }

  /** The canonical decimal spelling of `n`: digits only, no leading zero. */
  function RenderMillis(n: nat): (s: string)
    ensures s != [] && AllDigits(s)
    ensures |s| > 1 ==> s[0] != '0'
    decreases n
  {
    if n < 10 then [DigitChar(n)] else RenderMillis(n / 10) + [DigitChar(n % 10)]
  }

  /** Reading back a rendered count gives the count. */
  lemma {:induction false} ParseRenderMillis(n: nat)
    ensures ParseMillis(RenderMillis(n)) == Some(n)
  {
    ValueOfRender(n);
  }

  lemma {:induction false} ValueOfRender(n: nat)
    ensures DigitsValue(RenderMillis(n)) == n
    decreases n
  {
    var s := RenderMillis(n);
    if n >= 10 {
      ValueOfRender(n / 10);
      assert s[..|s| - 1] == RenderMillis(n / 10);
    }
  }

  /** The mode an element declares through the attributes named `debounceAttr`
      and `throttleAttr` (the two names a caller passes along with the element). */
  function Resolve(attrs: map<string, string>, debounceAttr: string, throttleAttr: string): (r: Resolution)
    ensures r == Err(NoTrigger) <==> debounceAttr !in attrs && throttleAttr !in attrs
    ensures r.Ok? ==> (debounceAttr in attrs) != (throttleAttr in attrs)
    ensures r.Ok? && r.mode.Throttled? ==> throttleAttr in attrs
    ensures r.Ok? && !r.mode.Throttled? ==> debounceAttr in attrs
  {
    if debounceAttr in attrs && throttleAttr in attrs then Err(Ambiguous)
    else if debounceAttr in attrs then
      var v := attrs[debounceAttr];
      if v == BlurSentinel then Ok(OnBlur)
      else match ParseMillis(v)
        case Some(ms) => Ok(Debounced(ms))
        case None => Err(Malformed(v))
    else if throttleAttr in attrs then
      var v := attrs[throttleAttr];
      match ParseMillis(v)
      case Some(ms) => Ok(Throttled(ms))
      case None => Err(Malformed(v))
    else Err(NoTrigger)
  }

  /** The attributes an element carries to declare `mode`. */
  function Declare(mode: Mode, debounceAttr: string, throttleAttr: string): map<string, string> {
    match mode
    case OnBlur => map[debounceAttr := BlurSentinel]
    case Debounced(ms) => map[debounceAttr := RenderMillis(ms)]
    case Throttled(ms) => map[throttleAttr := RenderMillis(ms)]
  }

  /** Every mode can be declared, and resolving its declaration gives it back. */
  lemma {:induction false} ResolveDeclare(mode: Mode, debounceAttr: string, throttleAttr: string)
    requires debounceAttr != throttleAttr
    ensures Resolve(Declare(mode, debounceAttr, throttleAttr), debounceAttr, throttleAttr) == Ok(mode)
  {
    match mode
    case OnBlur =>
    case Debounced(ms) =>
      ParseRenderMillis(ms);
      assert ParseMillis(BlurSentinel) == None by { assert !IsDigit(BlurSentinel[0]); }
    case Throttled(ms) =>
      ParseRenderMillis(ms);
  }
}
