/**
 * The home page: a single view variable switches between the black-hole
 * landing screen, the warp animation and the portfolio. Each screen hands
 * back one callback, which moves the view on to the next screen.
 */
module Home {

  /** `ViewState`. */
  datatype View = HomeView | Warping | PortfolioView

  /** The three components the page can draw. */
  datatype Screen = BlackHoleHero | WarpTransition | Portfolio

  /** The page's three handlers. */
  datatype Handler = EnterClick | WarpComplete | BackToHome

  /** A drawn component and the handler passed to it as its callback. */
  datatype Element = Element(screen: Screen, callback: Handler)

  /** The view a handler sets. */
  function Target(h: Handler): View
  {
    match h
    case EnterClick => Warping
    case WarpComplete => PortfolioView
    case BackToHome => HomeView
  }

  /**
   * What the page draws for a view: the three guarded elements in source
   * order, each present only when the view matches its guard.
   */
  function Render(v: View): (r: seq<Element>)
    ensures |r| == 1
    ensures r[0].screen == BlackHoleHero <==> v == HomeView
    ensures r[0].screen == WarpTransition <==> v == Warping
    ensures r[0].screen == Portfolio <==> v == PortfolioView
    ensures r[0].callback == EnterClick <==> v == HomeView
  {
    (if v == HomeView then [Element(BlackHoleHero, EnterClick)] else [])
    + (if v == Warping then [Element(WarpTransition, WarpComplete)] else [])
    + (if v == PortfolioView then [Element(Portfolio, BackToHome)] else [])
  }

  /** The view after the drawn component calls its callback. */
  function Advance(v: View): (r: View)
    ensures r != v
  {
    Target(Render(v)[0].callback)
  }

  /** The view after `k` callbacks. */
  function AdvanceTimes(v: View, k: nat): View
  {
    if k == 0 then v else Advance(AdvanceTimes(v, k - 1))
  }

  /** The views visited in order, starting from the home screen. */
  function Cycle(k: nat): View
  {
    if k % 3 == 0 then HomeView else if k % 3 == 1 then Warping else PortfolioView
  }

  /** `k` callbacks from the home screen lead through the cycle home → warping → portfolio → home. */
  lemma {:induction false} AdvanceCycles(k: nat)
    ensures AdvanceTimes(HomeView, k) == Cycle(k)
  {
    if k > 0 {
      AdvanceCycles(k - 1);
      assert AdvanceTimes(HomeView, k) == Advance(AdvanceTimes(HomeView, k - 1));
      assert (k - 1) % 3 == 0 ==> k % 3 == 1;
      assert (k - 1) % 3 == 1 ==> k % 3 == 2;
      assert (k - 1) % 3 == 2 ==> k % 3 == 0;
    }
  }

  /** The page's state. */
  class Page {
    var viewState: View

    /** The page opens on the landing screen. */
    constructor ()
      ensures viewState == HomeView
    {
      viewState := HomeView;
    }

    method HandleEnterClick()
      modifies this
      ensures viewState == Warping
    {
      viewState := Warping;
    }

    method HandleWarpComplete()
      modifies this
      ensures viewState == PortfolioView
    {
      viewState := PortfolioView;
    }

    method HandleBackToHome()
      modifies this
      ensures viewState == HomeView
    {
      viewState := HomeView;
    }

    /**
     * The drawn component calls its callback: the page runs that handler.
     * Only the callback of what is on screen can be called, so the view
     * moves one step along the cycle.
     */
    method Callback() returns (h: Handler)
      modifies this
      ensures h == Render(old(viewState))[0].callback
      ensures viewState == Advance(old(viewState))
    {
      h := Render(viewState)[0].callback;
      match h
      case EnterClick => HandleEnterClick();
      case WarpComplete => HandleWarpComplete();
      case BackToHome => HandleBackToHome();
    }
  }
}
