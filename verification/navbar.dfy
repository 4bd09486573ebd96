/**
 * `getNavBarMetrics`: the height of the custom navigation bar, from the
 * status-bar height the window reports and the capsule (menu button)
 * rectangle, with fixed fallbacks whenever the platform gives nothing usable.
 */
module NavBar {
  import opened Wrappers
  import opened JsNumber

  const DefaultStatusBar: real := 20.0
  const DefaultNavBar: real := 44.0

  /**
   * The status-bar height: a reported finite number, with 0 replaced by the
   * default (`sbh || 20`); anything else (absent, not a number, not finite,
   * or the platform call failing) keeps the default.
   */
  function StatusBarHeight(sbh: Option<Num>): (r: real)
    ensures r != 0.0
    ensures sbh.Some? && sbh.value.Finite? && sbh.value.v != 0.0 ==> r == sbh.value.v
    ensures !(sbh.Some? && sbh.value.Finite? && sbh.value.v != 0.0) ==> r == DefaultStatusBar
  {
    if sbh.Some? && sbh.value.Finite? && sbh.value.Truthy() then sbh.value.v else DefaultStatusBar
  }

  /** The menu button's `top` and `height`, when both are numbers. */
  datatype Capsule = Capsule(top: Num, height: Num)

  /** `(top - statusBarHeight) * 2 + height` in JavaScript arithmetic. */
  function Computed(statusBar: real, c: Capsule): Num {
    NumAdd(NumMul(NumAdd(c.top, Finite(-statusBar)), Finite(2.0)), c.height)
  }

  /**
   * The navigation-bar height: the capsule's gap above and below it plus its
   * height, when that is a finite positive number; otherwise the default.
   */
  function NavBarHeight(statusBar: real, capsule: Option<Capsule>): (r: real)
    ensures r > 0.0
    ensures capsule.Some? && capsule.value.top.Finite? && capsule.value.height.Finite?
      && 2.0 * (capsule.value.top.v - statusBar) + capsule.value.height.v > 0.0
      ==> r == 2.0 * (capsule.value.top.v - statusBar) + capsule.value.height.v
    ensures capsule.Some? && capsule.value.top.Finite? && capsule.value.height.Finite?
      && 2.0 * (capsule.value.top.v - statusBar) + capsule.value.height.v <= 0.0
      ==> r == DefaultNavBar
    ensures capsule.None? || !capsule.value.top.Finite? || !capsule.value.height.Finite? ==> r == DefaultNavBar
  {
    if capsule.None? then DefaultNavBar
    else
      var n := Computed(statusBar, capsule.value);
      if n.Finite? && n.v > 0.0 then n.v else DefaultNavBar
  }

  datatype Metrics = Metrics(statusBarHeight: real, navBarHeight: real, totalHeight: real)

  /** `getNavBarMetrics()`: the two heights and their sum. */
  function GetMetrics(sbh: Option<Num>, capsule: Option<Capsule>): (r: Metrics)
    ensures r.totalHeight == r.statusBarHeight + r.navBarHeight
    ensures r.navBarHeight > 0.0 && r.statusBarHeight != 0.0
    ensures r.statusBarHeight == StatusBarHeight(sbh)
    ensures r.navBarHeight == NavBarHeight(r.statusBarHeight, capsule)
  {
    var s := StatusBarHeight(sbh);
    var n := NavBarHeight(s, capsule);
    Metrics(s, n, s + n)
  }

  /** The hook's value when computing the metrics throws. */
  const FallbackMetrics: Metrics := Metrics(20.0, 44.0, 64.0)

  /** On a platform that reports nothing the computed metrics are exactly the hook's fallback. */
  lemma NothingReportedIsFallback()
    ensures GetMetrics(None, None) == FallbackMetrics
  {
  }

  /**
   * A capsule sitting `gap` below the status bar yields a bar of the capsule's
   * height plus that gap above and below it, so the whole header reaches
   * exactly `gap` below the capsule.
   */
  lemma CapsuleCentred(sbh: real, gap: real, height: real)
    requires sbh != 0.0 && gap >= 0.0 && height > 0.0
    ensures var m := GetMetrics(Some(Finite(sbh)), Some(Capsule(Finite(sbh + gap), Finite(height))));
      m.navBarHeight == 2.0 * gap + height && m.totalHeight == (sbh + gap) + height + gap
  {
  }

  /** A reported status-bar height of 0 counts as unreported. */
  lemma ZeroStatusBarIsDefault(capsule: Option<Capsule>)
    ensures GetMetrics(Some(Finite(0.0)), capsule) == GetMetrics(None, capsule)
  {
  }
}
