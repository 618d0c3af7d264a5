/**
 * The slide-selection rule of `updateSlide` and the main loop's tick gate, as
 * functions of the shown slot and of the set of slots whose image exists.
 */
module Slideshow {
  import opened Basics
  import opened Store

  /** `currentSlideIndex` of the default screen (the QR image or the upload prompt). */
  const NO_SLIDE: int := -1

  /** Milliseconds after boot during which the loop does not advance unless forced. */
  const STARTUP_DELAY: int := 60000

  /** The values `currentSlideIndex` takes: a slot, or `NO_SLIDE`. */
  predicate IsShown(cur: int) { NO_SLIDE <= cur < MAX_IMAGES }

  /** The slot examined at the `k`-th probe (k from 1) when `cur` is shown. */
  function Probe(cur: int, k: int): (s: int)
    requires IsShown(cur) && 1 <= k <= MAX_IMAGES
    ensures 0 <= s < MAX_IMAGES
  {
    (cur + k) % MAX_IMAGES
  }

  /**
   * How many probes from `cur` it takes to reach slot `t`: its cyclic distance,
   * `MAX_IMAGES` when `t` is `cur` itself.
   */
  function Dist(cur: int, t: int): (d: int)
    requires IsShown(cur) && 0 <= t < MAX_IMAGES
    ensures 1 <= d <= MAX_IMAGES && Probe(cur, d) == t
    ensures 0 <= cur ==> (d == MAX_IMAGES <==> t == cur)
  {
    if t > cur then t - cur else t - cur + MAX_IMAGES
  }

  /** The probes `k .. MAX_IMAGES` from `cur`: the first one whose slot is present. */
  function Scan(cur: int, present: set<int>, k: int): (r: Option<int>)
    requires IsShown(cur) && 1 <= k <= MAX_IMAGES + 1
    ensures r.Some? ==> r.value in present && 0 <= r.value < MAX_IMAGES
    decreases MAX_IMAGES + 1 - k
  {
    if k > MAX_IMAGES then None
    else if Probe(cur, k) in present then Some(Probe(cur, k))
    else Scan(cur, present, k + 1)
  }

  /** The slot `updateSlide` settles on: the first present one after `cur`, if any. */
  function NextSlot(cur: int, present: set<int>): (r: Option<int>)
    requires IsShown(cur)
    ensures r.Some? ==> r.value in present && 0 <= r.value < MAX_IMAGES
  {
    Scan(cur, present, 1)
  }

  /** `currentSlideIndex` after one `updateSlide`: the next slot, or the default screen when none exists. */
  function Step(cur: int, present: set<int>): (n: int)
    requires IsShown(cur)
    ensures IsShown(n)
  {
    match NextSlot(cur, present)
    case Some(s) => s
    case None => NO_SLIDE
  }

  /** The shown slot after `n` advances over an unchanging set of present slots. */
  function Orbit(cur: int, present: set<int>, n: nat): (c: int)
    requires IsShown(cur)
    ensures IsShown(c)
    decreases n
  {
    if n == 0 then cur else Orbit(Step(cur, present), present, n - 1)
  }

  /** `s` is present and no present slot comes sooner than `s` in the cyclic order after `cur`. */
  ghost predicate IsFirstAfter(cur: int, present: set<int>, s: int)
    requires IsShown(cur)
  {
    s in present && 0 <= s < MAX_IMAGES &&
    forall t :: t in present && 0 <= t < MAX_IMAGES ==> Dist(cur, s) <= Dist(cur, t)
  }

  /** `millis() - since` in `unsigned long` arithmetic: wraps modulo 2^32. */
  function Elapsed(now: u32, since: u32): (d: u32)
    ensures since <= now ==> d == now - since
    ensures now < since ==> d == now - since + U32_MODULUS
  {
    (now - since) % U32_MODULUS
  }

  /** The main loop calls `updateSlide` when this holds. */
  function TickDue(now: u32, lastSlideTime: u32, interval: int, forced: bool): (due: bool)
    ensures due ==> Elapsed(now, lastSlideTime) > interval
    ensures !forced && now <= STARTUP_DELAY ==> !due
    ensures interval >= U32_MODULUS - 1 ==> !due
  {
    (now > STARTUP_DELAY || forced) && Elapsed(now, lastSlideTime) > interval
  }

  // ---------------------------------------------------------------------------
  // Properties
  // ---------------------------------------------------------------------------

  /** Probing one slot further is one more step around the cycle. */
  lemma ProbeSucc(cur: int, k: int)
    requires IsShown(cur) && 0 <= k < MAX_IMAGES
    ensures Probe(cur, k + 1) == ((if k == 0 then cur else Probe(cur, k)) + 1) % MAX_IMAGES
  {
  }

  lemma DistOfProbe(cur: int, k: int)
    requires IsShown(cur) && 1 <= k <= MAX_IMAGES
    ensures Dist(cur, Probe(cur, k)) == k
  {
  }

  /** Distances from `c` add up along the cycle as long as they stay within one lap. */
  lemma DistAdd(c: int, s: int, w: int)
    requires IsShown(c) && 0 <= s < MAX_IMAGES && 0 <= w < MAX_IMAGES
    requires Dist(c, s) + Dist(s, w) <= MAX_IMAGES
    ensures Dist(c, w) == Dist(c, s) + Dist(s, w)
  {
  }

  lemma DistSub(c: int, s: int, u: int)
    requires IsShown(c) && 0 <= s < MAX_IMAGES && 0 <= u < MAX_IMAGES
    requires Dist(c, s) < Dist(c, u)
    ensures Dist(s, u) == Dist(c, u) - Dist(c, s)
  {
  }

  /** `Scan` from probe `k` returns the first present slot among probes `k ..`, and nothing only when none is present. */
  lemma {:induction false} ScanIsFirst(cur: int, present: set<int>, k: int)
    requires IsShown(cur) && 1 <= k <= MAX_IMAGES + 1
    ensures Scan(cur, present, k).None? ==>
      forall j :: k <= j <= MAX_IMAGES ==> Probe(cur, j) !in present
    ensures Scan(cur, present, k).Some? ==>
      var s := Scan(cur, present, k).value;
      k <= Dist(cur, s) && forall j :: k <= j < Dist(cur, s) ==> Probe(cur, j) !in present
    decreases MAX_IMAGES + 1 - k
  {
    if k <= MAX_IMAGES {
      if Probe(cur, k) in present {
        DistOfProbe(cur, k);
      } else {
        ScanIsFirst(cur, present, k + 1);
      }
    }
  }

  /**
   * `updateSlide` selects exactly the first present slot in the cyclic order
   * `cur + 1, cur + 2, ...` (mod `MAX_IMAGES`), and finds none only when no slot
   * is present.
   */
  lemma NextSlotIsFirstAfter(cur: int, present: set<int>)
    requires IsShown(cur)
    ensures NextSlot(cur, present).None? <==>
      (forall t :: 0 <= t < MAX_IMAGES ==> t !in present)
    ensures forall s :: NextSlot(cur, present) == Some(s) <==> IsFirstAfter(cur, present, s)
  {
    ScanIsFirst(cur, present, 1);
    match NextSlot(cur, present)
    case None =>
      forall t | 0 <= t < MAX_IMAGES ensures t !in present {
        assert Probe(cur, Dist(cur, t)) == t;
      }
    case Some(s) =>
      assert IsFirstAfter(cur, present, s) by {
        forall t | t in present && 0 <= t < MAX_IMAGES ensures Dist(cur, s) <= Dist(cur, t) {
          assert Probe(cur, Dist(cur, t)) == t;
        }
      }
      forall s' | IsFirstAfter(cur, present, s') ensures s' == s {
        assert Dist(cur, s') == Dist(cur, s);
        assert s' == Probe(cur, Dist(cur, s'));
      }
  }

  /** From the default screen the probe starts at slot 0: the lowest present slot is shown first. */
  lemma FromDefaultShowsLowestSlot(present: set<int>, s: int)
    requires NextSlot(NO_SLIDE, present) == Some(s)
    ensures s in present && forall t :: t in present && 0 <= t < MAX_IMAGES ==> s <= t
  {
    NextSlotIsFirstAfter(NO_SLIDE, present);
    assert IsFirstAfter(NO_SLIDE, present, s);
  }

  /**
   * The shown slot is selected again (so nothing is redrawn) exactly when it is
   * the only present slot.
   */
  lemma SelectsItselfIffOnlyImage(cur: int, present: set<int>)
    requires 0 <= cur < MAX_IMAGES
    ensures NextSlot(cur, present) == Some(cur) <==>
      cur in present && forall t :: t in present && 0 <= t < MAX_IMAGES ==> t == cur
  {
    NextSlotIsFirstAfter(cur, present);
    if cur in present && forall t :: t in present && 0 <= t < MAX_IMAGES ==> t == cur {
      assert IsFirstAfter(cur, present, cur);
    }
    if NextSlot(cur, present) == Some(cur) {
      assert IsFirstAfter(cur, present, cur);
    }
  }

  /**
   * After `k` advances from `cur` the slot `u` is shown, and every slot shown
   * on the way lies strictly before `u` in the cyclic order after `cur`.
   */
  ghost predicate ReachedAfter(cur: int, present: set<int>, u: int, k: nat)
    requires IsShown(cur) && 0 <= u < MAX_IMAGES
  {
    1 <= k <= Dist(cur, u) && Orbit(cur, present, k) == u &&
    forall j :: 1 <= j < k ==> 0 <= Orbit(cur, present, j) && Dist(cur, Orbit(cur, present, j)) < Dist(cur, u)
  }

  lemma ReachedAfterStep(cur: int, present: set<int>, u: int, k: nat)
    requires IsShown(cur) && 0 <= u < MAX_IMAGES
    requires 0 <= Step(cur, present) && Step(cur, present) != u
    requires Dist(cur, Step(cur, present)) < Dist(cur, u)
    requires ReachedAfter(Step(cur, present), present, u, k)
    ensures ReachedAfter(cur, present, u, k + 1)
  {
    var s := Step(cur, present);
    DistSub(cur, s, u);
    assert Orbit(cur, present, k + 1) == Orbit(s, present, k);
    forall j | 1 <= j < k + 1
      ensures 0 <= Orbit(cur, present, j) && Dist(cur, Orbit(cur, present, j)) < Dist(cur, u)
    {
      assert Orbit(cur, present, j) == Orbit(s, present, j - 1);
      if j > 1 {
        DistAdd(cur, s, Orbit(s, present, j - 1));
      }
    }
  }

  /**
   * Repeated advancing over an unchanging store reaches every present slot `u`
   * within `Dist(cur, u)` advances, visiting on the way only slots that come
   * before `u` in the cyclic order after `cur`.
   */
  lemma {:induction false} ReachedInCyclicOrder(cur: int, present: set<int>, u: int)
    requires IsShown(cur) && u in present && 0 <= u < MAX_IMAGES
    ensures exists k: nat :: ReachedAfter(cur, present, u, k)
    decreases Dist(cur, u)
  {
    NextSlotIsFirstAfter(cur, present);
    var s := Step(cur, present);
    assert NextSlot(cur, present) == Some(s);
    assert IsFirstAfter(cur, present, s);
    assert Orbit(cur, present, 1) == s;
    if s == u {
      assert ReachedAfter(cur, present, u, 1);
    } else {
      assert Dist(cur, s) < Dist(cur, u) by {
        assert Probe(cur, Dist(cur, s)) == s;
      }
      DistSub(cur, s, u);
      ReachedInCyclicOrder(s, present, u);
      var k: nat :| ReachedAfter(s, present, u, k);
      ReachedAfterStep(cur, present, u, k);
    }
  }

  /**
   * Round robin: from a shown slot, every other present slot is shown before
   * the shown slot comes round again.
   */
  lemma OthersShownBeforeReturn(cur: int, present: set<int>, u: int)
    requires 0 <= cur < MAX_IMAGES && u in present && 0 <= u < MAX_IMAGES && u != cur
    ensures exists k :: (1 <= k < MAX_IMAGES && Orbit(cur, present, k) == u &&
      forall j :: 1 <= j < k ==> Orbit(cur, present, j) != cur)
  {
    ReachedInCyclicOrder(cur, present, u);
    var k: nat :| ReachedAfter(cur, present, u, k);
    forall j | 1 <= j < k ensures Orbit(cur, present, j) != cur {
      assert Dist(cur, Orbit(cur, present, j)) < MAX_IMAGES;
    }
  }
}
