/**
 * The page-wide cinematic scroll effects: the one-shot reveal observer, the
 * parallax, scale, horizontal-scroll and progress formulas, the
 * frame-coalescing `ticking` flag every scroll handler uses, the word
 * wrapping of text reveals, and the initialise-once guard of the hook.
 */
module CinematicScroll {
  import opened Wrappers
  import opened Text
  import opened JsNumber
  import opened Sequences

  // ---------------------------------------------------------------------
  // Reveal animations
  // ---------------------------------------------------------------------

  /**
   * The data attributes of a `[data-reveal]` element: `data-delay` as a
   * number of seconds (`None` when missing or empty) and `data-reveal`, the
   * direction.
   */
  datatype RevealAttrs = RevealAttrs(delay: Option<real>, direction: string)

  /** A scheduled reveal: the element, its timeout in milliseconds, its direction. */
  datatype Reveal = Reveal(el: nat, delayMs: real, direction: string)

  /** One observer entry. */
  datatype ObserverEntry = ObserverEntry(target: nat, isIntersecting: bool)

  /** `(el.dataset.delay || 0) * 1000`. */
  function RevealDelayMs(delay: Option<real>): (ms: real)
    ensures delay.None? ==> ms == 0.0
    ensures delay.Some? ==> ms / 1000.0 == delay.value
    ensures delay.Some? && delay.value >= 0.0 ==> ms >= 0.0
  {
    match delay
    case None => 0.0
    case Some(seconds) => seconds * 1000.0
  }

  /** `el.dataset.reveal || 'up'`. */
  function RevealDirection(attr: string): (d: string)
    ensures d != ""
    ensures attr != "" ==> d == attr
    ensures attr == "" ==> d == "up"
  {
    if attr == "" then "up" else attr
  }

  /** The reveal an intersecting element schedules. */
  function ScheduleFor(attrs: map<nat, RevealAttrs>, el: nat): Reveal
    requires el in attrs
  {
    Reveal(el, RevealDelayMs(attrs[el].delay), RevealDirection(attrs[el].direction))
  }

  /**
   * The reveals a batch of entries schedules: one per intersecting entry, in
   * entry order, each with its element's own delay and direction.
   */
  function Scheduled(attrs: map<nat, RevealAttrs>, entries: seq<ObserverEntry>): (rs: seq<Reveal>)
    requires forall i :: 0 <= i < |entries| ==> entries[i].target in attrs
    ensures |rs| <= |entries|
    ensures forall r :: r in rs ==> r.el in attrs && r == ScheduleFor(attrs, r.el)
    ensures forall r :: r in rs ==> exists i :: 0 <= i < |entries| && entries[i] == ObserverEntry(r.el, true)
    ensures forall i :: 0 <= i < |entries| && entries[i].isIntersecting ==> ScheduleFor(attrs, entries[i].target) in rs
    decreases |entries|
  {
    if |entries| == 0 then []
    else
      var last := entries[|entries| - 1];
      var init := entries[..|entries| - 1];
      assert forall i :: 0 <= i < |init| ==> init[i] == entries[i];
      Scheduled(attrs, init) + (if last.isIntersecting then [ScheduleFor(attrs, last.target)] else [])
  }

  /** The observer callback's test `entry.isIntersecting`. */
  function IsIntersecting(e: ObserverEntry): bool
  {
    e.isIntersecting
  }

  /** The reveal of each entry of a sequence, in order. */
  function SchedulesOf(attrs: map<nat, RevealAttrs>, es: seq<ObserverEntry>): (rs: seq<Reveal>)
    requires forall i :: 0 <= i < |es| ==> es[i].target in attrs
    ensures |rs| == |es|
    ensures forall i :: 0 <= i < |es| ==> rs[i] == ScheduleFor(attrs, es[i].target)
  {
    seq(|es|, i requires 0 <= i < |es| => ScheduleFor(attrs, es[i].target))
  }

  /**
   * The schedule of a batch is exactly `entries.filter(isIntersecting)` mapped
   * to reveals: one reveal per intersecting entry, in entry order, and no other.
   */
  lemma {:induction false} ScheduledInEntryOrder(attrs: map<nat, RevealAttrs>, entries: seq<ObserverEntry>)
    requires forall i :: 0 <= i < |entries| ==> entries[i].target in attrs
    ensures var hits := Filter(entries, IsIntersecting);
      && (forall i :: 0 <= i < |hits| ==> hits[i].target in attrs)
      && Scheduled(attrs, entries) == SchedulesOf(attrs, hits)
    decreases |entries|
  {
    if |entries| > 0 {
      var last := entries[|entries| - 1];
      var init := entries[..|entries| - 1];
      assert entries == init + [last];
      ScheduledInEntryOrder(attrs, init);
      FilterSnoc(init, last, IsIntersecting);
      var hits0 := Filter(init, IsIntersecting);
      var hits := Filter(entries, IsIntersecting);
      assert hits == hits0 + (if last.isIntersecting then [last] else []);
      assert forall i :: 0 <= i < |hits| ==> hits[i].target in attrs by {
        forall i | 0 <= i < |hits|
          ensures hits[i].target in attrs
        {
          if i < |hits0| {
            assert hits[i] == hits0[i];
          } else {
            assert hits[i] == last;
          }
        }
      }
      assert SchedulesOf(attrs, hits) == SchedulesOf(attrs, hits0)
        + (if last.isIntersecting then [ScheduleFor(attrs, last.target)] else []);
    }
  }

  /** The elements a batch stops observing. */
  function IntersectingTargets(entries: seq<ObserverEntry>): set<nat>
  {
    set i | 0 <= i < |entries| && entries[i].isIntersecting :: entries[i].target
  }

  /** The reveal observer of `initRevealAnimations` over the `[data-reveal]` elements. */
  class RevealObserver {
    const attrs: map<nat, RevealAttrs>
    var observed: set<nat>
    var pending: seq<Reveal>
    var revealed: map<nat, string>

    /**
     * Observed elements are elements of the page; a scheduled or completed
     * reveal belongs to an element no longer observed and carries that
     * element's own delay and direction.
     */
    predicate Valid()
      reads this
    {
      && observed <= attrs.Keys
      && (forall r :: r in pending ==> r.el in attrs && r.el !in observed && r == ScheduleFor(attrs, r.el))
      && (forall el :: el in revealed ==> el in attrs && el !in observed && revealed[el] == RevealDirection(attrs[el].direction))
    }

    /** `reveals.forEach((el) => observer.observe(el))`. */
    constructor (attrs: map<nat, RevealAttrs>)
      ensures Valid()
      ensures this.attrs == attrs && observed == attrs.Keys && pending == [] && revealed == map[]
    {
      this.attrs := attrs;
      observed := attrs.Keys;
      pending := [];
      revealed := map[];
    }

    /** The observer callback with a batch of entries for observed elements. */
    method OnEntries(entries: seq<ObserverEntry>)
      requires Valid()
      requires forall i :: 0 <= i < |entries| ==> entries[i].target in observed
      modifies this
      ensures Valid()
      ensures observed == old(observed) - IntersectingTargets(entries)
      ensures pending == old(pending) + Scheduled(attrs, entries)
      ensures revealed == old(revealed)
    {
      var i := 0;
      while i < |entries|
        invariant 0 <= i <= |entries|
        invariant Valid()
        invariant forall j :: 0 <= j < |entries| ==> entries[j].target in attrs
        invariant observed == old(observed) - IntersectingTargets(entries[..i])
        invariant pending == old(pending) + Scheduled(attrs, entries[..i])
        invariant revealed == old(revealed)
      {
        var entry := entries[i];
        assert entries[..i + 1][..i] == entries[..i];
        if entry.isIntersecting {
          var el := entry.target;
          var delay := RevealDelayMs(attrs[el].delay);
          var direction := RevealDirection(attrs[el].direction);
          pending := pending + [Reveal(el, delay, direction)];
          observed := observed - {el};
        }
        assert IntersectingTargets(entries[..i + 1]) == IntersectingTargets(entries[..i])
          + (if entry.isIntersecting then {entry.target} else {});
        i := i + 1;
      }
      assert entries[..i] == entries;
    }

    /** The `k`-th pending timeout fires: the element gets its class and direction. */
    method FireTimer(k: nat)
      requires Valid() && k < |pending|
      modifies this
      ensures Valid()
      ensures revealed == old(revealed)[old(pending)[k].el := old(pending)[k].direction]
      ensures pending == old(pending)[..k] + old(pending)[k + 1..]
      ensures observed == old(observed)
    {
      var r := pending[k];
      revealed := revealed[r.el := r.direction];
      pending := pending[..k] + pending[k + 1..];
      assert forall x :: x in pending ==> x in old(pending);
    }
  }

  /** An element is revealed with its own direction, so a second reveal of it changes nothing. */
  lemma RevealIdempotent(revealed: map<nat, string>, attrs: map<nat, RevealAttrs>, el: nat)
    requires el in attrs && el in revealed && revealed[el] == RevealDirection(attrs[el].direction)
    ensures revealed[el := ScheduleFor(attrs, el).direction] == revealed
  {
  }

  // ---------------------------------------------------------------------
  // The ticking flag
  // ---------------------------------------------------------------------

  /**
   * A scroll handler's throttle: the `ticking` flag, the number of frames
   * requested and not yet run, how many updates ran, how many scroll events
   * arrived, and how many updates ran directly at set-up.
   */
  datatype Throttle = Throttle(ticking: bool, requested: nat, updates: nat, scrolls: nat, direct: nat)

  /**
   * `ticking` is set exactly while one frame is requested, and updates plus
   * requested frames never exceed the scroll events plus the direct set-up
   * update.
   */
  predicate Coalescing(t: Throttle)
  {
    && (t.ticking <==> t.requested == 1)
    && t.requested <= 1
    && t.updates + t.requested <= t.scrolls + t.direct
  }

  datatype ThrottleSignal = Scroll | Frame

  /** A scroll event, or the requested frame running the update; with no frame requested none runs. */
  function ThrottleStep(t: Throttle, e: ThrottleSignal): (r: Throttle)
    ensures e == Scroll ==> r.scrolls == t.scrolls + 1 && r.ticking && r.updates == t.updates
    ensures e == Scroll && t.ticking ==> r.requested == t.requested
    ensures e == Frame && t.requested > 0 ==> !r.ticking && r.updates == t.updates + 1 && r.requested == t.requested - 1
    ensures r.direct == t.direct
  {
    match e
    case Scroll =>
      if t.ticking then t.(scrolls := t.scrolls + 1)
      else t.(ticking := true, requested := t.requested + 1, scrolls := t.scrolls + 1)
    case Frame =>
      if t.requested == 0 then t
      else t.(ticking := false, requested := t.requested - 1, updates := t.updates + 1)
  }

  function ThrottleRun(t: Throttle, es: seq<ThrottleSignal>): Throttle
    decreases |es|
  {
    if |es| == 0 then t else ThrottleRun(ThrottleStep(t, es[0]), es[1..])
  }

  /** However scroll events and frames interleave, at most one frame is ever outstanding. */
  lemma {:induction false} ThrottleKeepsCoalescing(t: Throttle, es: seq<ThrottleSignal>)
    requires Coalescing(t)
    ensures Coalescing(ThrottleRun(t, es))
    decreases |es|
  {
    if |es| > 0 {
      ThrottleKeepsCoalescing(ThrottleStep(t, es[0]), es[1..]);
    }
  }

  /** After any scroll event a frame is outstanding, so no scroll goes without a later update. */
  lemma ScrollLeavesFrame(t: Throttle)
    requires Coalescing(t)
    ensures ThrottleStep(t, Scroll).requested == 1
  {
  }

  /** The `ticking` closure of one scroll handler. */
  class FrameThrottle {
    var ticking: bool
    ghost var requested: nat
    ghost var updates: nat
    ghost var scrolls: nat
    ghost const direct: nat

    ghost function State(): Throttle
      reads this
    {
      Throttle(ticking, requested, updates, scrolls, direct)
    }

    /** Set-up; the parallax, scale and hook handlers also run the update once directly. */
    constructor (updateNow: bool)
      ensures State() == Throttle(false, 0, if updateNow then 1 else 0, 0, if updateNow then 1 else 0)
      ensures Coalescing(State())
    {
      ticking := false;
      requested, scrolls := 0, 0;
      updates := if updateNow then 1 else 0;
      direct := if updateNow then 1 else 0;
    }

    /** The scroll listener. */
    method OnScroll()
      modifies this
      ensures State() == ThrottleStep(old(State()), Scroll)
    {
      if !ticking {
        requested := requested + 1;
        ticking := true;
      }
      scrolls := scrolls + 1;
    }

    /** The requested frame runs the update, which clears the flag. */
    method OnFrame()
      requires requested > 0
      modifies this
      ensures State() == ThrottleStep(old(State()), Frame)
    {
      requested := requested - 1;
      updates := updates + 1;
      ticking := false;
    }
  }

  // ---------------------------------------------------------------------
  // Parallax
  // ---------------------------------------------------------------------

  /** `parseFloat(el.dataset.parallax) || 0.5`: NaN and zero fall back to 0.5. */
  function ParallaxSpeed(parsed: Num): (speed: Num)
    ensures !speed.NaN? && speed != Finite(0.0)
    ensures !parsed.NaN? && parsed != Finite(0.0) ==> speed == parsed
    ensures parsed.NaN? || parsed == Finite(0.0) ==> speed == Finite(0.5)
  {
    if parsed.NaN? || parsed == Finite(0.0) then Finite(0.5) else parsed
  }

  /** `(rect.top - innerHeight / 2) * speed`, as the `useParallax` hook computes it. */
  function CentreOffset(top: real, innerHeight: real, speed: real): (y: real)
    ensures top == innerHeight / 2.0 ==> y == 0.0
    ensures speed > 0.0 ==> (y < 0.0 <==> top < innerHeight / 2.0)
  {
    SignOfProduct(top - innerHeight / 2.0, speed);
    (top - innerHeight / 2.0) * speed
  }

  lemma SignOfProduct(a: real, b: real)
    ensures b > 0.0 ==> (a * b < 0.0 <==> a < 0.0)
  {
    if b > 0.0 {
      if a < 0.0 {
        MulMono(b, a, 0.0);
        assert b * a == a * b;
        assert a * b != 0.0;
      } else {
        MulMono(b, 0.0, a);
      }
    }
  }

  /** Scrolling by `d` pixels shifts the hook's offset by `d * speed`. */
  lemma CentreOffsetTracksScroll(top: real, innerHeight: real, speed: real, d: real)
    ensures CentreOffset(top - d, innerHeight, speed) == CentreOffset(top, innerHeight, speed) - d * speed
  {
  }

  /**
   * One `[data-parallax]` element in `updateParallax`: a transform only while
   * it overlaps the viewport, offset from the viewport centre by its speed.
   */
  function ParallaxShift(top: real, bottom: real, innerHeight: real, parsed: Num): (y: Option<Num>)
    ensures y.Some? <==> top < innerHeight && bottom > 0.0
    ensures y.Some? && ParallaxSpeed(parsed).Finite? ==>
      y.value == Finite(CentreOffset(top, innerHeight, ParallaxSpeed(parsed).v))
    ensures y.Some? && y.value.NaN? ==> !ParallaxSpeed(parsed).Finite? && top == innerHeight / 2.0
  {
    if top < innerHeight && bottom > 0.0 then
      Some(Affine(0.0, ParallaxSpeed(parsed), top - innerHeight / 2.0))
    else None
  }

  // ---------------------------------------------------------------------
  // Scale on scroll
  // ---------------------------------------------------------------------

  datatype ScaleStyle = ScaleStyle(scale: Num, opacity: Num)

  /** `1 - Math.min(distance / maxDistance, 1)`: how close the element's centre is to the viewport's. */
  function Nearness(innerHeight: real, top: real, height: real): (n: Num)
    ensures innerHeight > 0.0 ==> n.Finite? && 0.0 <= n.v <= 1.0
    ensures innerHeight > 0.0 ==> (n == Finite(1.0) <==> top + height / 2.0 == innerHeight / 2.0)
    ensures innerHeight > 0.0 && Abs(innerHeight / 2.0 - (top + height / 2.0)) >= innerHeight / 2.0 ==> n == Finite(0.0)
    ensures innerHeight == 0.0 && top + height / 2.0 == 0.0 ==> n.NaN?
    ensures innerHeight == 0.0 && top + height / 2.0 != 0.0 ==> n == Finite(0.0)
  {
    var distance := Abs(innerHeight / 2.0 - (top + height / 2.0));
    DivBounds(distance, innerHeight / 2.0);
    Affine(1.0, Min(Div(distance, innerHeight / 2.0), Finite(1.0)), -1.0)
  }

  /** `c + n * k` for a positive `k` over a nearness: from `c` (far) to `c + k` (centred). */
  lemma Ramp(n: Num, c: real, k: real)
    requires k > 0.0
    ensures n.Finite? && 0.0 <= n.v <= 1.0 ==>
      Affine(c, n, k).Finite? && c <= Affine(c, n, k).v <= c + k
      && (Affine(c, n, k) == Finite(c + k) <==> n == Finite(1.0))
    ensures n == Finite(0.0) ==> Affine(c, n, k) == Finite(c)
    ensures n.NaN? ==> Affine(c, n, k).NaN?
  {
    if n.Finite? && 0.0 <= n.v <= 1.0 {
      var x := n.v;
      assert Affine(c, n, k) == Finite(c + x * k);
      MulMono(k, x, 1.0);
      MulMono(k, 0.0, x);
      assert x * k == k * x;
      if x < 1.0 {
        MulStrict(k, x, 1.0);
        assert c + x * k < c + k;
      }
    }
  }

  /** `updateScale` for one `[data-scale-scroll]` element. */
  function ScaleOnScroll(innerHeight: real, top: real, height: real): (st: ScaleStyle)
    ensures innerHeight > 0.0 ==> st.scale.Finite? && 0.9 <= st.scale.v <= 1.0
    ensures innerHeight > 0.0 ==> st.opacity.Finite? && 0.5 <= st.opacity.v <= 1.0
    ensures innerHeight > 0.0 ==> (st.scale == Finite(1.0) <==> top + height / 2.0 == innerHeight / 2.0)
    ensures innerHeight > 0.0 ==> (st.opacity == Finite(1.0) <==> top + height / 2.0 == innerHeight / 2.0)
    ensures innerHeight > 0.0 && Abs(innerHeight / 2.0 - (top + height / 2.0)) >= innerHeight / 2.0 ==>
      st == ScaleStyle(Finite(0.9), Finite(0.5))
    ensures innerHeight == 0.0 && top + height / 2.0 == 0.0 ==> st.scale.NaN? && st.opacity.NaN?
    ensures innerHeight == 0.0 && top + height / 2.0 != 0.0 ==> st == ScaleStyle(Finite(0.9), Finite(0.5))
  {
    var near := Nearness(innerHeight, top, height);
    Ramp(near, 0.9, 0.1);
    Ramp(near, 0.5, 0.5);
    ScaleStyle(Affine(0.9, near, 0.1), Affine(0.5, near, 0.5))
  }

  // ---------------------------------------------------------------------
  // Horizontal scroll
  // ---------------------------------------------------------------------

  /** `Math.max(0, Math.min(1, -rect.top / (sectionHeight - innerHeight)))`. */
  function HorizontalProgress(top: real, sectionHeight: real, innerHeight: real): (p: Num)
    ensures p == Clamp01(Div(-top, sectionHeight - innerHeight))
    ensures p.Finite? || p.NaN?
    ensures p.NaN? <==> top == 0.0 && sectionHeight == innerHeight
    ensures sectionHeight > innerHeight && top >= 0.0 ==> p == Finite(0.0)
    ensures sectionHeight > innerHeight && top <= innerHeight - sectionHeight ==> p == Finite(1.0)
  {
    ClampOrder(Div(-top, sectionHeight - innerHeight));
    DivBounds(-top, sectionHeight - innerHeight);
    Max(Finite(0.0), Min(Finite(1.0), Div(-top, sectionHeight - innerHeight)))
  }

  /** `container.scrollWidth - section.offsetWidth`, how far the content can slide. */
  function MaxScroll(scrollWidth: int, offsetWidth: int): real
  {
    (scrollWidth - offsetWidth) as real
  }

  /** The content's `translateX` for the section's position. */
  function HorizontalShift(top: real, sectionHeight: real, innerHeight: real, scrollWidth: int, offsetWidth: int): (x: Num)
    ensures HorizontalProgress(top, sectionHeight, innerHeight).Finite? && scrollWidth >= offsetWidth ==>
      x.Finite? && -MaxScroll(scrollWidth, offsetWidth) <= x.v <= 0.0
    ensures HorizontalProgress(top, sectionHeight, innerHeight).NaN? ==> x.NaN?
    ensures HorizontalProgress(top, sectionHeight, innerHeight) == Finite(0.0) ==> x == Finite(0.0)
    ensures HorizontalProgress(top, sectionHeight, innerHeight) == Finite(1.0) ==> x == Finite(-MaxScroll(scrollWidth, offsetWidth))
  {
    Shift(HorizontalProgress(top, sectionHeight, innerHeight), MaxScroll(scrollWidth, offsetWidth))
  }

  /** `-progress * maxScroll`. */
  function Shift(progress: Num, maxScroll: real): (x: Num)
    ensures progress.Finite? && 0.0 <= progress.v <= 1.0 && maxScroll >= 0.0 ==>
      x.Finite? && -maxScroll <= x.v <= 0.0
    ensures progress.NaN? ==> x.NaN?
    ensures progress == Finite(0.0) ==> x == Finite(0.0)
    ensures progress == Finite(1.0) ==> x == Finite(-maxScroll)
  {
    if progress.Finite? then
      ShiftBounds(progress.v, maxScroll);
      Affine(0.0, progress, -maxScroll)
    else
      Affine(0.0, progress, -maxScroll)
  }

  /** A fraction in `[0, 1]` of a non-negative distance, negated, lies in `[-distance, 0]`. */
  lemma ShiftBounds(p: real, m: real)
    ensures 0.0 <= p <= 1.0 && m >= 0.0 ==> -m <= p * -m <= 0.0
  {
    if 0.0 <= p <= 1.0 && m >= 0.0 {
      MulMono(m, p, 1.0);
      MulMono(m, 0.0, p);
      assert p * -m == -(m * p);
    }
  }

  /** Scrolling further down never moves the progress back. */
  lemma HorizontalProgressMonotone(top1: real, top2: real, sectionHeight: real, innerHeight: real)
    requires sectionHeight > innerHeight && top2 <= top1
    ensures HorizontalProgress(top1, sectionHeight, innerHeight).v <= HorizontalProgress(top2, sectionHeight, innerHeight).v
  {
    DivMonotone(-top1, -top2, sectionHeight - innerHeight);
  }

  /** Scrolling further down never moves the content back. */
  lemma HorizontalShiftMonotone(top1: real, top2: real, sectionHeight: real, innerHeight: real, scrollWidth: int, offsetWidth: int)
    requires sectionHeight > innerHeight && top2 <= top1 && scrollWidth >= offsetWidth
    ensures HorizontalShift(top2, sectionHeight, innerHeight, scrollWidth, offsetWidth).v
      <= HorizontalShift(top1, sectionHeight, innerHeight, scrollWidth, offsetWidth).v
  {
    HorizontalProgressMonotone(top1, top2, sectionHeight, innerHeight);
    var p1 := HorizontalProgress(top1, sectionHeight, innerHeight);
    var p2 := HorizontalProgress(top2, sectionHeight, innerHeight);
    assert p1 == Finite(p1.v) && p2 == Finite(p2.v);
    ShiftMonotone(p1.v, p2.v, MaxScroll(scrollWidth, offsetWidth));
  }

  /** A larger progress never shifts the content less far. */
  lemma ShiftMonotone(p1: real, p2: real, m: real)
    requires p1 <= p2 && m >= 0.0
    ensures Shift(Finite(p2), m).v <= Shift(Finite(p1), m).v
  {
    assert Shift(Finite(p1), m) == Finite(0.0 + p1 * -m);
    assert Shift(Finite(p2), m) == Finite(0.0 + p2 * -m);
    MulMono(m, p1, p2);
    assert p1 * -m == -(m * p1) && p2 * -m == -(m * p2);
  }

  // ---------------------------------------------------------------------
  // Progress indicator
  // ---------------------------------------------------------------------

  /** `(scrollY / (scrollHeight - innerHeight)) * 100`, the `--scroll-progress` percentage. */
  function ProgressPercent(scrollY: real, scrollHeight: real, innerHeight: real): (pct: Num)
    ensures scrollHeight > innerHeight && 0.0 <= scrollY <= scrollHeight - innerHeight ==>
      pct.Finite? && 0.0 <= pct.v <= 100.0
    ensures scrollHeight > innerHeight && scrollY == scrollHeight - innerHeight ==> pct == Finite(100.0)
    ensures scrollHeight > innerHeight && scrollY == 0.0 ==> pct == Finite(0.0)
    ensures scrollHeight == innerHeight && scrollY == 0.0 ==> pct.NaN?
    ensures scrollHeight == innerHeight && scrollY > 0.0 ==> pct == PosInf
  {
    DivBounds(scrollY, scrollHeight - innerHeight);
    Affine(0.0, Div(scrollY, scrollHeight - innerHeight), 100.0)
  }

  // ---------------------------------------------------------------------
  // Text reveal
  // ---------------------------------------------------------------------

  const CloseTag: string := "</span>"

  /** The opening tag of the `i`-th word. */
  function OpenTag(i: nat): string
  {
    "<span class=\"reveal-word\" style=\"--word-index: " + Decimal(i) + "\">"
  }

  /** The markup of the `i`-th word. */
  function WrapWord(i: nat, word: string): (html: string)
    ensures OpenTag(i) <= html
    ensures |html| == |OpenTag(i)| + |word| + |CloseTag|
  {
    OpenTag(i) + word + CloseTag
  }

  /** Strips the markup of the `i`-th word; anything else is left alone. */
  function UnwrapWord(i: nat, html: string): string
  {
    var open := OpenTag(i);
    if open <= html && |html| >= |open| + |CloseTag| && html[|html| - |CloseTag|..] == CloseTag
    then html[|open|..|html| - |CloseTag|]
    else html
  }

  lemma UnwrapWrap(i: nat, word: string)
    ensures UnwrapWord(i, WrapWord(i, word)) == word
  {
    var html := WrapWord(i, word);
    assert html[|html| - |CloseTag|..] == CloseTag;
    assert html[|OpenTag(i)|..|html| - |CloseTag|] == word;
  }

  /** The wrapped words of a text split on single spaces. */
  function WrapAll(words: seq<string>): (pieces: seq<string>)
    ensures |pieces| == |words|
    ensures forall i :: 0 <= i < |words| ==> pieces[i] == WrapWord(i, words[i])
  {
    seq(|words|, i requires 0 <= i < |words| => WrapWord(i, words[i]))
  }

  function UnwrapAll(pieces: seq<string>): (words: seq<string>)
    ensures |words| == |pieces|
    ensures forall i :: 0 <= i < |pieces| ==> words[i] == UnwrapWord(i, pieces[i])
  {
    seq(|pieces|, i requires 0 <= i < |pieces| => UnwrapWord(i, pieces[i]))
  }

  /** The `innerHTML` `initTextReveal` writes. */
  function RevealMarkup(text: string): (html: string)
  {
    Join(WrapAll(Split(text, ' ')), ' ')
  }

  /**
   * One span per space-separated word, each numbered by its position, and
   * stripping the spans and re-joining with spaces gives back the text.
   */
  lemma TextRevealRoundTrip(text: string)
    ensures var pieces := WrapAll(Split(text, ' '));
      RevealMarkup(text) == Join(pieces, ' ')
      && |pieces| == multiset(text)[' '] + 1
      && Join(UnwrapAll(pieces), ' ') == text
  {
    var words := Split(text, ' ');
    var pieces := WrapAll(words);
    forall i | 0 <= i < |words|
      ensures UnwrapAll(pieces)[i] == words[i]
    {
      UnwrapWrap(i, words[i]);
    }
    assert UnwrapAll(pieces) == words;
    JoinSplit(text, ' ');
    SplitCount(text, ' ');
  }

  /** The number in a word's opening tag reads back as its position. */
  lemma WordIndexReadsBack(i: nat)
    ensures OpenTag(i)[47..|OpenTag(i)| - 2] == Decimal(i)
    ensures DecimalValue(OpenTag(i)[47..|OpenTag(i)| - 2]) == i
  {
    assert |"<span class=\"reveal-word\" style=\"--word-index: "| == 47;
    DecimalRoundTrip(i);
  }

  // ---------------------------------------------------------------------
  // useCinematicScroll
  // ---------------------------------------------------------------------

  /** The hook's `initialized` ref, whether its 100 ms timer is pending, and how many times the effects were set up. */
  datatype InitGuard = InitGuard(initialized: bool, timerPending: bool, inits: nat)

  predicate InitOnce(g: InitGuard)
  {
    && g.inits <= 1
    && (g.initialized <==> g.inits == 1)
    && (g.timerPending ==> !g.initialized)
  }

  datatype HookSignal = EffectRuns | Cleanup | TimerFires

  /**
   * One step of the hook. React runs the effect's cleanup before running the
   * effect again, so at most one set-up timer is pending and a flag records it.
   */
  function HookStep(g: InitGuard, e: HookSignal): (r: InitGuard)
    ensures e == EffectRuns && !g.initialized ==> r.timerPending && r.inits == g.inits
    ensures e == Cleanup ==> !r.timerPending && r.inits == g.inits
    ensures e == TimerFires && g.timerPending ==> r.initialized && r.inits == g.inits + 1
    ensures e == TimerFires && !g.timerPending ==> r == g
    ensures InitOnce(g) && g.initialized ==> r == g
  {
    match e
    case EffectRuns => if g.initialized then g else g.(timerPending := true)
    case Cleanup => g.(timerPending := false)
    case TimerFires =>
      if g.timerPending then g.(initialized := true, timerPending := false, inits := g.inits + 1)
      else g
  }

  function HookRun(g: InitGuard, es: seq<HookSignal>): InitGuard
    decreases |es|
  {
    if |es| == 0 then g else HookRun(HookStep(g, es[0]), es[1..])
  }

  /** However the effect and its cleanup repeat, a mounted hook sets the effects up at most once. */
  lemma {:induction false} InitializesAtMostOnce(g: InitGuard, es: seq<HookSignal>)
    requires InitOnce(g)
    ensures InitOnce(HookRun(g, es))
    decreases |es|
  {
    if |es| > 0 {
      InitializesAtMostOnce(HookStep(g, es[0]), es[1..]);
    }
  }

  /** The mounted hook. */
  class CinematicScrollHook {
    var initialized: bool
    var timerPending: bool
    ghost var inits: nat

    ghost function State(): InitGuard
      reads this
    {
      InitGuard(initialized, timerPending, inits)
    }

    constructor ()
      ensures State() == InitGuard(false, false, 0)
    {
      initialized, timerPending := false, false;
      inits := 0;
    }

    /** The mount effect: schedule the set-up unless it already ran. */
    method RunEffect()
      modifies this
      ensures State() == HookStep(old(State()), EffectRuns)
    {
      if !initialized {
        timerPending := true;
      }
    }

    /** `clearTimeout(timer)`. */
    method RunCleanup()
      modifies this
      ensures State() == HookStep(old(State()), Cleanup)
    {
      timerPending := false;
    }

    /** The 100 ms timer: `initCinematicScroll()`, then mark initialised. */
    method OnTimer()
      modifies this
      ensures State() == HookStep(old(State()), TimerFires)
    {
      if timerPending {
        inits := inits + 1;
        initialized := true;
        timerPending := false;
      }
    }
  }
}
