/**
 * The window-inset listener that both screens install on their root view.
 *
 * Every delivery resizes the status-bar and navigation-bar overlay bands to the
 * delivered inset heights; the scroll view's top and bottom padding grow by
 * those heights only on the first delivery, guarded by the one-shot flag
 * `areViewsUpdatedForInsets`; the delivery is reported as consumed.
 */
module Insets {

  /** The part of a `WindowInsetsCompat` the listener reads, plus its consumed flag. */
  datatype WindowInsets = WindowInsets(statusBarsTop: int, navigationBarsBottom: int, isConsumed: bool)

  /** `WindowInsetsCompat.CONSUMED`: no insets left, and marked consumed. */
  const CONSUMED := WindowInsets(0, 0, true)

  datatype Padding = Padding(left: int, top: int, right: int, bottom: int)
  {
    /** Each side grown by the matching amount. */
    function Plus(l: int, t: int, r: int, b: int): Padding
    {
      Padding(left + l, top + t, right + r, bottom + b)
    }
  }

  /** The layout height and the padding of one view. */
  datatype ViewGeometry = ViewGeometry(height: int, padding: Padding)

  /** The three views the listener touches, and its one-shot flag. */
  datatype InsetState = InsetState(statusBand: ViewGeometry, navBand: ViewGeometry, scroll: ViewGeometry, applied: bool)

  /** The state of a freshly created screen: views as laid out, flag down. */
  function Initial(statusBand: ViewGeometry, navBand: ViewGeometry, scroll: ViewGeometry): InsetState
  {
    InsetState(statusBand, navBand, scroll, false)
  }

  /** What one inset delivery does to the three views and the flag. */
  function Deliver(s: InsetState, w: WindowInsets): (t: InsetState)
    // both bands track the delivered heights, whatever happened before
    ensures t.statusBand.height == w.statusBarsTop && t.navBand.height == w.navigationBarsBottom
    // nothing else about the bands, and not the scroll view's height, changes
    ensures t.statusBand.padding == s.statusBand.padding && t.navBand.padding == s.navBand.padding
    ensures t.scroll.height == s.scroll.height
    // left and right padding are never touched
    ensures t.scroll.padding.left == s.scroll.padding.left && t.scroll.padding.right == s.scroll.padding.right
    // the flag is up after any delivery
    ensures t.applied
    // padding grows by the delivered insets exactly when the flag was down
    ensures !s.applied ==> t.scroll.padding.top == s.scroll.padding.top + w.statusBarsTop
    ensures !s.applied ==> t.scroll.padding.bottom == s.scroll.padding.bottom + w.navigationBarsBottom
    ensures s.applied ==> t.scroll == s.scroll
  {
    var banded := s.(statusBand := s.statusBand.(height := w.statusBarsTop),
                     navBand := s.navBand.(height := w.navigationBarsBottom));
    if s.applied then banded
    else
      var topDone := banded.scroll.padding.Plus(0, w.statusBarsTop, 0, 0);
      banded.(scroll := banded.scroll.(padding := topDone.Plus(0, 0, 0, w.navigationBarsBottom)), applied := true)
  }

  /** A whole screen lifetime's deliveries, in order. */
  function DeliverAll(s: InsetState, ws: seq<WindowInsets>): InsetState
    decreases |ws|
  {
    if ws == [] then s else DeliverAll(Deliver(s, ws[0]), ws[1..])
  }

  /** After any non-empty run of deliveries the bands equal the latest delivery: no accumulation. */
  lemma {:induction false} BandsTrackLatest(s: InsetState, ws: seq<WindowInsets>)
    requires ws != []
    ensures DeliverAll(s, ws).statusBand.height == ws[|ws| - 1].statusBarsTop
    ensures DeliverAll(s, ws).navBand.height == ws[|ws| - 1].navigationBarsBottom
    ensures DeliverAll(s, ws).statusBand.padding == s.statusBand.padding
    ensures DeliverAll(s, ws).navBand.padding == s.navBand.padding
    decreases |ws|
  {
    if |ws| > 1 {
      BandsTrackLatest(Deliver(s, ws[0]), ws[1..]);
    }
  }

  /** Once the flag is up, no number of deliveries changes the scroll view again. */
  lemma {:induction false} AppliedIsStable(s: InsetState, ws: seq<WindowInsets>)
    requires s.applied
    ensures DeliverAll(s, ws).scroll == s.scroll
    ensures DeliverAll(s, ws).applied
    decreases |ws|
  {
    if ws != [] {
      AppliedIsStable(Deliver(s, ws[0]), ws[1..]);
    }
  }

  /**
   * Padding is applied exactly once: from a fresh state, after any non-empty run of
   * deliveries the padding is the initial padding plus the FIRST delivery's insets.
   */
  lemma {:induction false} PaddingAppliedOnce(s: InsetState, ws: seq<WindowInsets>)
    requires !s.applied && ws != []
    ensures DeliverAll(s, ws).applied
    ensures DeliverAll(s, ws).scroll.padding == s.scroll.padding.Plus(0, ws[0].statusBarsTop, 0, ws[0].navigationBarsBottom)
    ensures DeliverAll(s, ws).scroll.height == s.scroll.height
  {
    AppliedIsStable(Deliver(s, ws[0]), ws[1..]);
  }

  /** Redelivering the insets just delivered is a no-op. */
  lemma RedeliveryIsIdempotent(s: InsetState, w: WindowInsets)
    ensures Deliver(Deliver(s, w), w) == Deliver(s, w)
  {
  }

  /** A view of the layout: its height and its four paddings, updated in place. */
  class View {
    var height: int
    var paddingLeft: int
    var paddingTop: int
    var paddingRight: int
    var paddingBottom: int

    function Geometry(): ViewGeometry
      reads this
    {
      ViewGeometry(height, Padding(paddingLeft, paddingTop, paddingRight, paddingBottom))
    }

    constructor (g: ViewGeometry)
      ensures Geometry() == g
    {
      height := g.height;
      paddingLeft, paddingTop, paddingRight, paddingBottom := g.padding.left, g.padding.top, g.padding.right, g.padding.bottom;
    }

    /** Sets the layout height; the padding is kept. */
    method UpdateLayoutParamsHeight(heightSize: int)
      modifies this
      ensures height == heightSize
      ensures Geometry().padding == old(Geometry().padding)
    {
      height := heightSize;
    }

    /** Adds to the existing padding; a side that is not named grows by 0. */
    method UpdatePaddingForInsets(left: int := 0, top: int := 0, right: int := 0, bottom: int := 0)
      modifies this
      ensures Geometry().padding == old(Geometry().padding).Plus(left, top, right, bottom)
      ensures height == old(height)
    {
      paddingLeft, paddingTop, paddingRight, paddingBottom :=
        paddingLeft + left, paddingTop + top, paddingRight + right, paddingBottom + bottom;
    }
  }

  /** The listener's state on one screen: the three views it adjusts and its one-shot flag. */
  class InsetAdapter {
    const statusBarBlurView: View
    const navigationBarBlurView: View
    const nestedScrollView: View
    var areViewsUpdatedForInsets: bool

    /** Everything the listener may change. */
    ghost function Repr(): set<object>
    {
      {this, statusBarBlurView, navigationBarBlurView, nestedScrollView}
    }

    /** The three views are distinct objects. */
    ghost predicate Valid()
    {
      statusBarBlurView != navigationBarBlurView &&
      statusBarBlurView != nestedScrollView &&
      navigationBarBlurView != nestedScrollView
    }

    ghost function State(): InsetState
      reads this, statusBarBlurView, navigationBarBlurView, nestedScrollView
    {
      InsetState(statusBarBlurView.Geometry(), navigationBarBlurView.Geometry(), nestedScrollView.Geometry(), areViewsUpdatedForInsets)
    }

    /** A screen's views as laid out, before any inset delivery; the flag starts down. */
    constructor (statusBand: ViewGeometry, navBand: ViewGeometry, scroll: ViewGeometry)
      ensures Valid() && fresh(Repr())
      ensures !areViewsUpdatedForInsets
      ensures State() == Initial(statusBand, navBand, scroll)
    {
      statusBarBlurView := new View(statusBand);
      navigationBarBlurView := new View(navBand);
      nestedScrollView := new View(scroll);
      areViewsUpdatedForInsets := false;
    }

    /** One inset delivery; the answer is always `CONSUMED`. */
    method OnInsets(windowInsets: WindowInsets) returns (r: WindowInsets)
      requires Valid()
      modifies Repr()
      ensures Valid()
      ensures State() == Deliver(old(State()), windowInsets)
      ensures r == CONSUMED && r.isConsumed
    {
      var statusBarHeight := windowInsets.statusBarsTop;
      var navigationBarHeight := windowInsets.navigationBarsBottom;

      statusBarBlurView.UpdateLayoutParamsHeight(statusBarHeight);
      navigationBarBlurView.UpdateLayoutParamsHeight(navigationBarHeight);

      if !areViewsUpdatedForInsets {
        nestedScrollView.UpdatePaddingForInsets(top := statusBarHeight);
        nestedScrollView.UpdatePaddingForInsets(bottom := navigationBarHeight);
        areViewsUpdatedForInsets := true;
      }

      r := CONSUMED;
    }
  }
}
