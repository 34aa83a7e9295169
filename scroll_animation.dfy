/**
 * The scroll animation hooks and components: the visibility flag of
 * `useScrollAnimation`, the `useParallax` and `useScrollProgress` formulas,
 * the per-item styles of `AnimatedText` and `StaggerItem`, the class name of
 * `ScrollReveal`, and the count-up of `AnimatedCounter`.
 */
module ScrollAnimation {
  import opened Wrappers
  import opened Text
  import opened JsNumber

  // ---------------------------------------------------------------------
  // useScrollAnimation: the visibility flag
  // ---------------------------------------------------------------------

  /** The hook's options; `delay` is in milliseconds. */
  datatype Options = Options(once: bool, delay: real)

  /** The defaults `once = true`, `delay = 0`. */
  const DefaultOptions: Options := Options(true, 0.0)

  /**
   * The hook's state: the `isVisible` flag, whether the observer still
   * watches the element, how many `setTimeout` reveals are pending, and how
   * many were ever scheduled.
   */
  datatype Visibility = Visibility(visible: bool, observing: bool, pending: nat, scheduled: nat)

  const Unobserved: Visibility := Visibility(false, true, 0, 0)

  /** What reaches the hook: an observer entry, a pending reveal timer firing, or the effect cleanup. */
  datatype Signal = Entry(intersecting: bool) | RevealTimer | Disconnect

  /** One signal; a timer signal with nothing pending, or an entry after unobserving, changes nothing. */
  function Observe(opts: Options, s: Visibility, e: Signal): (r: Visibility)
    ensures e.Entry? && e.intersecting && s.observing ==>
      r.pending == s.pending + 1 && r.scheduled == s.scheduled + 1 && r.visible == s.visible
      && r.observing == !opts.once
    ensures e.Entry? && !e.intersecting && s.observing && !opts.once ==> !r.visible
    ensures e == RevealTimer && s.pending > 0 ==> r.visible && r.pending == s.pending - 1
    ensures opts.once && s.visible ==> r.visible
    ensures !s.observing ==> !r.observing && r.scheduled == s.scheduled
  {
    match e
    case Entry(intersecting) =>
      if !s.observing then s
      else if intersecting then
        s.(pending := s.pending + 1, scheduled := s.scheduled + 1, observing := !opts.once)
      else if !opts.once then s.(visible := false)
      else s
    case RevealTimer =>
      if s.pending == 0 then s else s.(visible := true, pending := s.pending - 1)
    case Disconnect =>
      s.(observing := false)
  }

  /** A run of signals. */
  function Run(opts: Options, s: Visibility, es: seq<Signal>): Visibility
    decreases |es|
  {
    if |es| == 0 then s else Run(opts, Observe(opts, s, es[0]), es[1..])
  }

  /** With `once`, a revealed element stays revealed whatever follows. */
  lemma {:induction false} OnceNeverReverts(opts: Options, s: Visibility, es: seq<Signal>)
    requires opts.once && s.visible
    ensures Run(opts, s, es).visible
    decreases |es|
  {
    if |es| > 0 {
      OnceNeverReverts(opts, Observe(opts, s, es[0]), es[1..]);
    }
  }

  /** With `once`, at most one reveal is ever scheduled, and none after observation stops. */
  lemma {:induction false} OnceSchedulesAtMostOne(opts: Options, s: Visibility, es: seq<Signal>)
    requires opts.once && s.scheduled <= 1 && (s.observing ==> s.scheduled == 0)
    ensures Run(opts, s, es).scheduled <= 1
    decreases |es|
  {
    if |es| > 0 {
      OnceSchedulesAtMostOne(opts, Observe(opts, s, es[0]), es[1..]);
    }
  }

  /**
   * Without `once`, a reveal timer set by an earlier entry still fires after
   * the element has left the viewport, leaving it visible though out of view.
   */
  lemma StaleRevealAfterExit(delay: real)
    ensures var opts := Options(false, delay);
      var s := Run(opts, Unobserved, [Entry(true), Entry(false), RevealTimer]);
      s.visible && s.observing && s.pending == 0
  {
    var opts := Options(false, delay);
    var s1 := Observe(opts, Unobserved, Entry(true));
    var s2 := Observe(opts, s1, Entry(false));
    var s3 := Observe(opts, s2, RevealTimer);
    assert [Entry(true), Entry(false), RevealTimer][1..] == [Entry(false), RevealTimer];
    assert [Entry(false), RevealTimer][1..] == [RevealTimer];
    assert Run(opts, s2, [RevealTimer]) == Run(opts, s3, []);
  }

  /** The mounted hook. */
  class ScrollAnimationHook {
    const options: Options
    var isVisible: bool
    var observing: bool
    var pending: nat
    ghost var scheduled: nat

    ghost function State(): Visibility
      reads this
    {
      Visibility(isVisible, observing, pending, scheduled)
    }

    /** Mounting: hidden, observed, nothing scheduled. */
    constructor (opts: Options)
      ensures options == opts && State() == Unobserved
    {
      options := opts;
      isVisible, observing, pending := false, true, 0;
      scheduled := 0;
    }

    /** The observer callback with the element's entry. */
    method OnEntry(intersecting: bool)
      modifies this
      ensures State() == Observe(options, old(State()), Entry(intersecting))
    {
      if !observing {
        return;
      }
      if intersecting {
        pending := pending + 1;
        scheduled := scheduled + 1;
        if options.once {
          observing := false;
        }
      } else if !options.once {
        isVisible := false;
      }
    }

    /** A scheduled `setIsVisible(true)` runs. */
    method OnRevealTimer()
      modifies this
      ensures State() == Observe(options, old(State()), RevealTimer)
    {
      if pending > 0 {
        isVisible := true;
        pending := pending - 1;
      }
    }

    /** The effect cleanup `observer.disconnect()`. */
    method OnDisconnect()
      modifies this
      ensures State() == Observe(options, old(State()), Disconnect)
    {
      observing := false;
    }
  }

  // ---------------------------------------------------------------------
  // useParallax and useScrollProgress
  // ---------------------------------------------------------------------

  /** `useParallax`: the offset `(innerHeight - rect.top) * speed`. */
  function ParallaxOffset(innerHeight: real, top: real, speed: real): (offset: real)
    ensures top == innerHeight ==> offset == 0.0
    ensures speed >= 0.0 && top <= innerHeight ==> offset >= 0.0
  {
    (innerHeight - top) * speed
  }

  /** Scrolling the element up by `d` pixels moves the offset by `d * speed`: it tracks the scroll linearly. */
  lemma ParallaxTracksScroll(innerHeight: real, top: real, speed: real, d: real)
    ensures ParallaxOffset(innerHeight, top - d, speed) == ParallaxOffset(innerHeight, top, speed) + d * speed
  {
  }

  /**
   * `useScrollProgress`: how far the element has travelled through the
   * viewport, `min(max((h - top) / (h + height), 0), 1)`.
   */
  function ScrollProgress(innerHeight: real, top: real, height: real): (p: Num)
    ensures p.Finite? || p.NaN?
    ensures p.Finite? ==> 0.0 <= p.v <= 1.0
    ensures p.NaN? <==> innerHeight - top == 0.0 && innerHeight + height == 0.0
    ensures innerHeight + height > 0.0 && top >= innerHeight ==> p == Finite(0.0)
    ensures innerHeight + height > 0.0 && top <= -height ==> p == Finite(1.0)
  {
    DivBounds(innerHeight - top, innerHeight + height);
    Clamp01(Div(innerHeight - top, innerHeight + height))
  }

  /** The progress never decreases as the element moves up the viewport. */
  lemma ScrollProgressMonotone(innerHeight: real, height: real, top1: real, top2: real)
    requires innerHeight + height > 0.0 && top2 <= top1
    ensures ScrollProgress(innerHeight, top2, height).v >= ScrollProgress(innerHeight, top1, height).v
  {
    var den := innerHeight + height;
    DivMonotone(innerHeight - top1, innerHeight - top2, den);
  }

  // ---------------------------------------------------------------------
  // AnimatedText and StaggerItem
  // ---------------------------------------------------------------------

  /** The style fields an animated item's appearance depends on; `delay` is in seconds. */
  datatype Style = Style(opacity: real, transform: Option<string>, delay: real)

  /** Whether `AnimatedText` works on words (`type === 'words'`) or characters. */
  datatype Unit = Words | Chars

  /** The pieces `AnimatedText` animates: `text.split(' ')` or `text.split('')`. */
  function TextItems(text: string, unit: Unit): (items: seq<string>)
    ensures unit == Words ==> |items| == multiset(text)[' '] + 1 && Join(items, ' ') == text
    ensures unit == Chars ==> |items| == |text| && Concat(items) == text
  {
    if unit == Words then
      JoinSplit(text, ' ');
      SplitCount(text, ' ');
      Split(text, ' ')
    else
      ConcatChars(text);
      Text.Chars(text)
  }

  /** What each item renders: a word followed by a space, or the character itself. */
  function RenderItem(item: string, unit: Unit): string
  {
    if unit == Words then item + " " else item
  }

  function RenderAll(items: seq<string>, unit: Unit): string
  {
    if |items| == 0 then "" else RenderItem(items[0], unit) + RenderAll(items[1..], unit)
  }

  /** The rendered words read as the text with one trailing space. */
  lemma {:induction false} RenderedWords(text: string)
    ensures RenderAll(TextItems(text, Words), Words) == text + " "
  {
    var items := TextItems(text, Words);
    RenderJoin(items);
  }

  lemma {:induction false} RenderJoin(items: seq<string>)
    requires |items| >= 1
    ensures RenderAll(items, Words) == Join(items, ' ') + " "
    decreases |items|
  {
    if |items| > 1 {
      RenderJoin(items[1..]);
    }
  }

  /** The rendered characters read as the text. */
  lemma RenderedChars(text: string)
    ensures RenderAll(TextItems(text, Chars), Chars) == text
  {
    ConcatIsRender(TextItems(text, Chars));
  }

  lemma {:induction false} ConcatIsRender(items: seq<string>)
    ensures RenderAll(items, Chars) == Concat(items)
    decreases |items|
  {
    if |items| > 0 {
      ConcatIsRender(items[1..]);
    }
  }

  /** `index * staggerDelay`: later items never start earlier. */
  function StaggerDelay(index: nat, step: real): (d: real)
    ensures step >= 0.0 ==> d >= 0.0
    ensures index == 0 ==> d == 0.0
  {
    index as real * step
  }

  lemma StaggerOrdered(i: nat, j: nat, step: real)
    requires i <= j && step >= 0.0
    ensures StaggerDelay(i, step) <= StaggerDelay(j, step)
  {
    assert (j - i) as real * step >= 0.0;
  }

  /** The hidden transform of an `AnimatedText` item; unknown names fall back to `fadeUp`. */
  function TextHiddenTransform(animation: string): Option<string>
  {
    if animation == "fadeIn" then None
    else if animation == "slideLeft" then Some("translateX(-30px)")
    else if animation == "slideRight" then Some("translateX(30px)")
    else if animation == "scale" then Some("scale(0.8)")
    else Some("translateY(30px)")
  }

  /** `getAnimationStyle(index)` of `AnimatedText`. */
  function TextItemStyle(index: nat, staggerDelay: real, animation: string, isVisible: bool): (st: Style)
    ensures st.opacity == if isVisible then 1.0 else 0.0
    ensures st.delay == StaggerDelay(index, staggerDelay)
    ensures !isVisible ==> st.transform == TextHiddenTransform(animation)
    ensures !isVisible && st.transform.Some? ==> st.transform.value != "translateY(0) translateX(0) scale(1)"
  {
    var delay := StaggerDelay(index, staggerDelay);
    if isVisible then Style(1.0, Some("translateY(0) translateX(0) scale(1)"), delay)
    else Style(0.0, TextHiddenTransform(animation), delay)
  }

  /** The hidden transform of a `StaggerItem`; unknown names fall back to `fadeUp`. */
  function StaggerHiddenTransform(animation: string): Option<string>
  {
    if animation == "fadeIn" then None
    else if animation == "slideLeft" then Some("translateX(-40px)")
    else if animation == "slideRight" then Some("translateX(40px)")
    else if animation == "scale" then Some("scale(0.9)")
    else if animation == "rotate" then Some("rotate(-5deg) translateY(20px)")
    else Some("translateY(40px)")
  }

  /** `getStyle()` of a `StaggerItem`. */
  function StaggerItemStyle(index: nat, delay: real, animation: string, isVisible: bool): (st: Style)
    ensures st.opacity == if isVisible then 1.0 else 0.0
    ensures st.delay == StaggerDelay(index, delay)
    ensures !isVisible ==> st.transform == StaggerHiddenTransform(animation)
    ensures !isVisible && st.transform.Some? ==> st.transform.value != "translateY(0) translateX(0) scale(1) rotate(0deg)"
  {
    var d := StaggerDelay(index, delay);
    if isVisible then Style(1.0, Some("translateY(0) translateX(0) scale(1) rotate(0deg)"), d)
    else Style(0.0, StaggerHiddenTransform(animation), d)
  }

  // ---------------------------------------------------------------------
  // ScrollReveal
  // ---------------------------------------------------------------------

  /** The class list without the visibility marker. */
  function RevealBaseClass(effect: string, className: string): string
  {
    "scroll-reveal scroll-reveal-" + effect + " " + className
  }

  /** `getClassName()`: the base classes, then `' is-visible'` exactly when visible. */
  function RevealClassName(effect: string, className: string, isVisible: bool): (c: string)
    ensures RevealBaseClass(effect, className) <= c
    ensures isVisible <==> |c| > |RevealBaseClass(effect, className)|
    ensures isVisible ==> c[|RevealBaseClass(effect, className)|..] == " is-visible"
  {
    var classes := RevealBaseClass(effect, className);
    if isVisible then classes + " is-visible" else classes
  }

  /**
   * `useScrollAnimation({ delay: delay * 1000 })`: `ScrollReveal` hands its
   * delay in seconds to the hook in milliseconds and leaves `once` at its
   * default.
   */
  function ScrollRevealOptions(delaySeconds: real): (o: Options)
    ensures o.once
    ensures o.delay / 1000.0 == delaySeconds
    ensures delaySeconds >= 0.0 ==> o.delay >= 0.0
  {
    DefaultOptions.(delay := delaySeconds * 1000.0)
  }

  /** A revealed `ScrollReveal` stays revealed whatever the observer and timers do next. */
  lemma ScrollRevealStaysVisible(delaySeconds: real, s: Visibility, es: seq<Signal>)
    requires s.visible
    ensures Run(ScrollRevealOptions(delaySeconds), s, es).visible
  {
    OnceNeverReverts(ScrollRevealOptions(delaySeconds), s, es);
  }

  /** A mounted `ScrollReveal` schedules at most one reveal timer over its whole life. */
  lemma ScrollRevealSchedulesAtMostOne(delaySeconds: real, es: seq<Signal>)
    ensures Run(ScrollRevealOptions(delaySeconds), Unobserved, es).scheduled <= 1
  {
    OnceSchedulesAtMostOne(ScrollRevealOptions(delaySeconds), Unobserved, es);
  }

  // ---------------------------------------------------------------------
  // AnimatedCounter
  // ---------------------------------------------------------------------

  function Cube(x: real): real { x * x * x }

  /** The ease-out curve `1 - (1 - p)^3`. */
  function EaseOut(p: real): (e: real)
    ensures 0.0 <= p <= 1.0 ==> 0.0 <= e <= 1.0
    ensures p == 1.0 ==> e == 1.0
    ensures p == 0.0 ==> e == 0.0
  {
    CubeBounds(1.0 - p);
    1.0 - Cube(1.0 - p)
  }

  lemma CubeBounds(x: real)
    ensures 0.0 <= x <= 1.0 ==> 0.0 <= Cube(x) <= 1.0
  {
    if 0.0 <= x <= 1.0 {
      SquareBounds(x);
      MulMono(x * x, x, 1.0);
      assert x * x * x <= x * x * 1.0;
      MulMono(x * x, 0.0, x);
      assert x * x * 0.0 <= x * x * x;
    }
  }

  lemma SquareBounds(x: real)
    requires 0.0 <= x <= 1.0
    ensures 0.0 <= x * x <= 1.0
  {
    MulMono(x, x, 1.0);
    assert x * x <= x * 1.0;
    MulMono(x, 0.0, x);
    assert x * 0.0 <= x * x;
  }

  lemma CubeMonotone(x: real, y: real)
    requires 0.0 <= x <= y
    ensures Cube(x) <= Cube(y)
  {
    MulMono(x, x, y);
    MulMono(y, x, y);
    assert x * x <= y * y;
    MulMono(x * x, x, y);
    MulMono(y, x * x, y * y);
    assert x * x * y == y * (x * x);
    assert y * (y * y) == y * y * y;
  }

  /** The ease-out curve never goes back. */
  lemma EaseOutMonotone(p: real, q: real)
    requires 0.0 <= p <= q <= 1.0
    ensures EaseOut(p) <= EaseOut(q)
  {
    CubeMonotone(1.0 - q, 1.0 - p);
  }

  /** `Math.min(elapsed / (duration * 1000), 1)`, for a positive duration in seconds. */
  function CounterProgress(elapsed: real, duration: real): (p: real)
    requires duration > 0.0
    ensures p <= 1.0
    ensures elapsed >= 0.0 ==> p >= 0.0
    ensures p == 1.0 <==> elapsed >= duration * 1000.0
  {
    var ratio := elapsed / (duration * 1000.0);
    if ratio < 1.0 then ratio else 1.0
  }

  /** The value shown `elapsed` milliseconds in: `Math.floor(easeOut * end)`. */
  function CounterValue(elapsed: real, duration: real, end: int): (n: int)
    requires duration > 0.0
    ensures elapsed >= 0.0 && end >= 0 ==> 0 <= n <= end
    ensures elapsed >= duration * 1000.0 ==> n == end
    ensures elapsed == 0.0 ==> n == 0
  {
    Scaled(EaseOut(CounterProgress(elapsed, duration)), end)
  }

  /** `Math.floor(e * end)`: a fraction in `[0, 1]` of a non-negative `end` lies in `[0, end]`. */
  function Scaled(e: real, end: int): (n: int)
    ensures 0.0 <= e <= 1.0 && end >= 0 ==> 0 <= n <= end
    ensures e == 1.0 ==> n == end
    ensures e == 0.0 ==> n == 0
  {
    ScaledBelow(e, end);
    (e * end as real).Floor
  }

  lemma ScaledBelow(e: real, end: int)
    ensures 0.0 <= e <= 1.0 && end >= 0 ==> 0.0 <= e * end as real <= end as real
  {
    if 0.0 <= e <= 1.0 && end >= 0 {
      MulMono(end as real, e, 1.0);
    }
  }

  /** For a non-negative target the shown value never decreases over time. */
  lemma CounterMonotone(t1: real, t2: real, duration: real, end: int)
    requires duration > 0.0 && 0.0 <= t1 <= t2 && end >= 0
    ensures CounterValue(t1, duration, end) <= CounterValue(t2, duration, end)
  {
    var p1, p2 := CounterProgress(t1, duration), CounterProgress(t2, duration);
    ProgressMonotone(t1, t2, duration);
    EaseOutMonotone(p1, p2);
    ScaledMonotone(EaseOut(p1), EaseOut(p2), end);
  }

  lemma ScaledMonotone(e1: real, e2: real, end: int)
    requires e1 <= e2 && end >= 0
    ensures Scaled(e1, end) <= Scaled(e2, end)
  {
    MulMono(end as real, e1, e2);
    FloorMonotone(e1 * end as real, e2 * end as real);
  }

  lemma ProgressMonotone(t1: real, t2: real, duration: real)
    requires duration > 0.0 && t1 <= t2
    ensures CounterProgress(t1, duration) <= CounterProgress(t2, duration)
  {
    DivMonotone(t1, t2, duration * 1000.0);
  }

  lemma FloorMonotone(a: real, b: real)
    requires a <= b
    ensures a.Floor <= b.Floor
  {
  }

  /**
   * The counter's state: the shown `count`, the `hasAnimated` guard, whether
   * a frame is requested, the start time, and how many animations started.
   */
  datatype Counter = Counter(count: int, hasAnimated: bool, running: bool, startTime: real, starts: nat)

  const CounterInitial: Counter := Counter(0, false, false, 0.0, 0)

  /** The effect, run with the current visibility at time `now`: start only once. */
  function CounterEffect(c: Counter, isVisible: bool, now: real): (r: Counter)
    ensures isVisible && !c.hasAnimated ==> r.hasAnimated && r.running && r.startTime == now && r.starts == c.starts + 1
    ensures !isVisible || c.hasAnimated ==> r == c
    ensures r.hasAnimated
      || (r == c && !c.hasAnimated)
  {
    if isVisible && !c.hasAnimated then
      c.(hasAnimated := true, running := true, startTime := now, starts := c.starts + 1)
    else c
  }

  /** One requested frame at time `now`: show the value, ask for another frame until progress reaches 1. */
  function CounterFrame(c: Counter, now: real, duration: real, end: int): (r: Counter)
    requires duration > 0.0
    ensures c.running ==> r.count == CounterValue(now - c.startTime, duration, end)
    ensures c.running ==> (r.running <==> now - c.startTime < duration * 1000.0)
    ensures !c.running ==> r == c
    ensures r.hasAnimated == c.hasAnimated && r.starts == c.starts && r.startTime == c.startTime
  {
    if !c.running then c
    else
      var p := CounterProgress(now - c.startTime, duration);
      c.(count := CounterValue(now - c.startTime, duration, end), running := p < 1.0)
  }

  /** What happens to a mounted counter: an effect run or a frame. */
  datatype CounterSignal = Effect(isVisible: bool, now: real) | Tick(now: real)

  function CounterStep(c: Counter, e: CounterSignal, duration: real, end: int): Counter
    requires duration > 0.0
  {
    match e
    case Effect(v, now) => CounterEffect(c, v, now)
    case Tick(now) => CounterFrame(c, now, duration, end)
  }

  function CounterRun(c: Counter, es: seq<CounterSignal>, duration: real, end: int): Counter
    requires duration > 0.0
    decreases |es|
  {
    if |es| == 0 then c else CounterRun(CounterStep(c, es[0], duration, end), es[1..], duration, end)
  }

  /** However often the effect re-runs, the animation starts at most once per mount. */
  lemma {:induction false} CounterStartsOnce(c: Counter, es: seq<CounterSignal>, duration: real, end: int)
    requires duration > 0.0
    requires c.starts <= 1 && (c.hasAnimated <==> c.starts == 1)
    ensures var r := CounterRun(c, es, duration, end); r.starts <= 1 && (r.hasAnimated <==> r.starts == 1)
    decreases |es|
  {
    if |es| > 0 {
      CounterStartsOnce(CounterStep(c, es[0], duration, end), es[1..], duration, end);
    }
  }

  /** A frame at or after the full duration shows `end` and requests no further frame. */
  lemma CounterFinishes(c: Counter, now: real, duration: real, end: int)
    requires duration > 0.0 && c.running && now - c.startTime >= duration * 1000.0
    ensures CounterFrame(c, now, duration, end).count == end
    ensures !CounterFrame(c, now, duration, end).running
  {
  }

  /** The mounted `AnimatedCounter`. */
  class AnimatedCounter {
    const end: int
    const duration: real
    var count: int
    var hasAnimated: bool
    var running: bool
    var startTime: real
    ghost var starts: nat

    ghost function State(): Counter
      reads this
    {
      Counter(count, hasAnimated, running, startTime, starts)
    }

    constructor (end: int, duration: real)
      requires duration > 0.0
      ensures this.end == end && this.duration == duration && State() == CounterInitial
    {
      this.end := end;
      this.duration := duration;
      count, hasAnimated, running, startTime := 0, false, false, 0.0;
      starts := 0;
    }

    /** The effect on `[isVisible, end, duration]`. */
    method RunEffect(isVisible: bool, now: real)
      modifies this
      ensures State() == CounterEffect(old(State()), isVisible, now)
    {
      if isVisible && !hasAnimated {
        hasAnimated := true;
        startTime := now;
        running := true;
        starts := starts + 1;
      }
    }

    /** The requested `animate` frame. */
    method Animate(now: real)
      requires duration > 0.0
      modifies this
      ensures State() == CounterFrame(old(State()), now, duration, end)
    {
      if !running {
        return;
      }
      var elapsed := now - startTime;
      var progress := CounterProgress(elapsed, duration);
      var easeOut := 1.0 - Cube(1.0 - progress);
      count := (easeOut * end as real).Floor;
      running := progress < 1.0;
    }
  }
}
