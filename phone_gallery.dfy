/**
 * The screenshot carousel of a project page: a cyclic index over the
 * screenshots, moved by the previous and next buttons and set by the dots,
 * plus up to three floating background devices showing the next screenshots.
 */
module PhoneGallery {
  import opened Wrappers
  import opened Projects

  /** The `handleNext` updater: one step forward, wrapping from the last index to 0. */
  function NextIndex(prev: nat, n: nat): (r: nat)
    requires prev < n
    ensures r < n
    ensures r == (prev + 1) % n
  {
    if prev == n - 1 then
      DivModUnique(prev + 1, n, 1, 0);
      0
    else
      DivModUnique(prev + 1, n, 0, prev + 1);
      prev + 1
  }

  /** The `handlePrev` updater: one step back, wrapping from 0 to the last index. */
  function PrevIndex(prev: nat, n: nat): (r: nat)
    requires prev < n
    ensures r < n
    ensures r == (prev + n - 1) % n
  {
    if prev == 0 then
      DivModUnique(prev + n - 1, n, 0, n - 1);
      n - 1
    else
      DivModUnique(prev + n - 1, n, 1, prev - 1);
      prev - 1
  }

  /** Previous then next, and next then previous, both return to the start. */
  lemma PrevNextInverse(i: nat, n: nat)
    requires i < n
    ensures NextIndex(PrevIndex(i, n), n) == i
    ensures PrevIndex(NextIndex(i, n), n) == i
  {
  }

  /** `k` presses of the next button from index `i`. */
  function NextTimes(i: nat, k: nat, n: nat): (r: nat)
    requires i < n
    ensures r < n
  {
    if k == 0 then i else NextIndex(NextTimes(i, k - 1, n), n)
  }

  /** `k` presses of next move the index `k` places forward, modulo the length. */
  lemma {:induction false} NextTimesIsModular(i: nat, k: nat, n: nat)
    requires i < n
    ensures NextTimes(i, k, n) == (i + k) % n
  {
    if k > 0 {
      NextTimesIsModular(i, k - 1, n);
      ModStep(i + k - 1, n);
    }
  }

  lemma ModStep(a: nat, n: nat)
    requires n > 0
    ensures (a % n + 1) % n == (a + 1) % n
  {
    var q, r := a / n, a % n;
    if r + 1 < n {
      DivModUnique(r + 1, n, 0, r + 1);
      DivModUnique(a + 1, n, q, r + 1);
    } else {
      DivModUnique(r + 1, n, 1, 0);
      DivModUnique(a + 1, n, q + 1, 0);
    }
  }

  lemma MulAtLeast(d: int, n: int)
    requires d >= 1 && n > 0
    ensures d * n >= n
  {
  }

  /** Euclidean division has one quotient and remainder. */
  lemma DivModUnique(a: int, n: int, q: int, r: int)
    requires n > 0 && 0 <= r < n && a == q * n + r
    ensures a % n == r
  {
    var q', r' := a / n, a % n;
    assert a == q' * n + r';
    assert (q' - q) * n == r - r' by {
      assert q' * n - q * n == (q' - q) * n;
    }
    if q' > q {
      MulAtLeast(q' - q, n);
    } else if q > q' {
      MulAtLeast(q - q', n);
    }
  }

  /** Pressing next as many times as there are screenshots is a full turn. */
  lemma FullTurn(i: nat, n: nat)
    requires i < n
    ensures NextTimes(i, n, n) == i
  {
    NextTimesIsModular(i, n, n);
    DivModUnique(i + n, n, 1, i);
  }

  /**
   * The indices shown by the floating background devices: one per screenshot,
   * at most three, device `i` showing `(active + i + 1) % n`.
   */
  function BackgroundIndices(active: nat, n: nat): (r: seq<nat>)
    requires active < n
    ensures |r| == if n < 3 then n else 3
    ensures forall i :: 0 <= i < |r| ==> r[i] < n && r[i] == NextTimes(active, i + 1, n)
  {
    var count := if n < 3 then n else 3;
    var r := seq(count, i requires 0 <= i < count => (active + i + 1) % n);
    forall i | 0 <= i < count
      ensures r[i] == NextTimes(active, i + 1, n)
    {
      NextTimesIsModular(active, i + 1, n);
    }
    r
  }

  /** The mounted gallery: the screenshots it was given and its `activeIndex` state. */
  class Gallery {
    const screenshots: seq<Screenshot>
    var activeIndex: nat

    /** The index names a screenshot. */
    predicate Valid()
      reads this
    {
      activeIndex < |screenshots|
    }

    /** A gallery is only mounted for a non-empty list; the index starts at 0. */
    constructor (shots: seq<Screenshot>)
      requires |shots| > 0
      ensures Valid()
      ensures screenshots == shots && activeIndex == 0
    {
      screenshots := shots;
      activeIndex := 0;
    }

    /** The previous button. */
    method HandlePrev()
      requires Valid()
      modifies this
      ensures Valid()
      ensures activeIndex == PrevIndex(old(activeIndex), |screenshots|)
    {
      activeIndex := if activeIndex == 0 then |screenshots| - 1 else activeIndex - 1;
    }

    /** The next button. */
    method HandleNext()
      requires Valid()
      modifies this
      ensures Valid()
      ensures activeIndex == NextIndex(old(activeIndex), |screenshots|)
    {
      activeIndex := if activeIndex == |screenshots| - 1 then 0 else activeIndex + 1;
    }

    /** The dot for screenshot `index`; the dots exist only for listed screenshots. */
    method SelectDot(index: nat)
      requires Valid()
      requires index < |screenshots|
      modifies this
      ensures Valid()
      ensures activeIndex == index
    {
      activeIndex := index;
    }

    /** The screenshot shown on the main device and its caption. */
    function Shown(): (s: Screenshot)
      reads this
      requires Valid()
      ensures s in screenshots
    {
      screenshots[activeIndex]
    }

    /** The screenshots shown on the floating background devices. */
    function Background(): (bg: seq<Screenshot>)
      reads this
      requires Valid()
      ensures |bg| == if |screenshots| < 3 then |screenshots| else 3
      ensures forall i :: 0 <= i < |bg| ==> bg[i] == screenshots[NextTimes(activeIndex, i + 1, |screenshots|)]
    {
      var idx := BackgroundIndices(activeIndex, |screenshots|);
      seq(|idx|, i requires 0 <= i < |idx| => screenshots[idx[i]])
    }
  }

  /**
   * Rendering `PhoneGallery`: an absent (`None`) or empty list renders
   * nothing, otherwise a gallery starting at the first screenshot.
   */
  method Mount(shots: Option<seq<Screenshot>>) returns (g: Gallery?)
    ensures g == null <==> shots.None? || |shots.value| == 0
    ensures g != null ==> fresh(g) && g.Valid() && g.screenshots == shots.value && g.activeIndex == 0
  {
    if shots.None? || |shots.value| == 0 {
      g := null;
    } else {
      g := new Gallery(shots.value);
    }
  }
}
