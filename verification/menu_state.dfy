/**
  The mobile menu's show/hide state. Each element's `hidden` class is one
  flag; the menu button (Toggle A) flips the panel and both icon glyphs, the
  industry button (Toggle B) flips the industry submenu. Nothing else changes
  the flags: there is no automatic close.
 */
module MobileMenu {

  /** Whether each of the four toggled elements carries the `hidden` class. */
  datatype MenuState = MenuState(
    panelHidden: bool,      // the mobile menu panel
    hamburgerHidden: bool,  // the three-bar icon
    closeHidden: bool,      // the cross icon
    submenuHidden: bool     // the industry submenu inside the panel
  )

  /** The classes as rendered: panel, cross and submenu hidden, hamburger shown. */
  const Initial: MenuState := MenuState(true, false, true, true)

  /** The icons tell the truth: the cross shows exactly when the panel is open, the hamburger exactly when it is closed. */
  predicate IconsAgree(s: MenuState)
  {
    s.closeHidden == s.panelHidden && s.hamburgerHidden == !s.panelHidden
  }

  /** Toggle A: the menu button flips the panel and both icons. */
  function ToggleMenu(s: MenuState): (t: MenuState)
    ensures t.panelHidden != s.panelHidden
    ensures t.hamburgerHidden != s.hamburgerHidden
    ensures t.closeHidden != s.closeHidden
    ensures t.submenuHidden == s.submenuHidden
  {
    s.(panelHidden := !s.panelHidden,
       hamburgerHidden := !s.hamburgerHidden,
       closeHidden := !s.closeHidden)
  }

  /** Toggle B: the industry button flips only the submenu. */
  function ToggleSubmenu(s: MenuState): (t: MenuState)
    ensures t.submenuHidden != s.submenuHidden
    ensures t.panelHidden == s.panelHidden
    ensures t.hamburgerHidden == s.hamburgerHidden
    ensures t.closeHidden == s.closeHidden
  {
    s.(submenuHidden := !s.submenuHidden)
  }

  /** The first press of the menu button opens the panel and swaps hamburger for cross. */
  lemma FirstMenuClickOpens()
    ensures ToggleMenu(Initial) == MenuState(false, true, false, true)
    ensures ToggleMenu(ToggleMenu(Initial)) == Initial
  {
  }

  /** Toggle A undoes itself. */
  lemma ToggleMenuInvolution(s: MenuState)
    ensures ToggleMenu(ToggleMenu(s)) == s
  {
  }

  /** Toggle B undoes itself. */
  lemma ToggleSubmenuInvolution(s: MenuState)
    ensures ToggleSubmenu(ToggleSubmenu(s)) == s
  {
  }

  /** The two buttons act independently: the order of presses does not matter. */
  lemma TogglesCommute(s: MenuState)
    ensures ToggleMenu(ToggleSubmenu(s)) == ToggleSubmenu(ToggleMenu(s))
  {
  }

  /** Both toggles keep the icons in agreement with the panel, and neither can break it. */
  lemma TogglesPreserveIconAgreement(s: MenuState)
    ensures IconsAgree(ToggleMenu(s)) <==> IconsAgree(s)
    ensures IconsAgree(ToggleSubmenu(s)) <==> IconsAgree(s)
  {
  }

  /** A button press. */
  datatype Click = MenuButton | IndustryButton

  /** The handler a press runs. */
  function Step(s: MenuState, c: Click): (t: MenuState)
  {
    match c
    case MenuButton => ToggleMenu(s)
    case IndustryButton => ToggleSubmenu(s)
  }

  /** The state after a sequence of presses, first press first. */
  function Run(s: MenuState, clicks: seq<Click>): (t: MenuState)
    decreases |clicks|
  {
    if |clicks| == 0 then s else Run(Step(s, clicks[0]), clicks[1..])
  }

  /** How many presses in `clicks` are of button `c`. */
  function Presses(clicks: seq<Click>, c: Click): (n: nat)
  {
    if |clicks| == 0 then 0
    else (if clicks[0] == c then 1 else 0) + Presses(clicks[1..], c)
  }

  /** `b` flipped `n` times. */
  function Flipped(b: bool, n: nat): (r: bool)
  {
    if n % 2 == 0 then b else !b
  }

  /**
    Each flag ends up flipped once per press of its button, whatever the
    interleaving: the final state depends only on the two press counts.
   */
  lemma {:induction false} RunFlipsByPressCount(s: MenuState, clicks: seq<Click>)
    ensures Run(s, clicks) == MenuState(
      Flipped(s.panelHidden, Presses(clicks, MenuButton)),
      Flipped(s.hamburgerHidden, Presses(clicks, MenuButton)),
      Flipped(s.closeHidden, Presses(clicks, MenuButton)),
      Flipped(s.submenuHidden, Presses(clicks, IndustryButton)))
    decreases |clicks|
  {
    if |clicks| > 0 {
      RunFlipsByPressCount(Step(s, clicks[0]), clicks[1..]);
    }
  }

  /** The states some sequence of presses leads to from the initial rendering. */
  ghost predicate Reachable(s: MenuState)
  {
    exists clicks :: Run(Initial, clicks) == s
  }

  /**
    Exactly the four states with agreeing icons are reachable: the icons
    never disagree with the panel, and every panel/submenu combination occurs.
   */
  lemma ReachableIffIconsAgree(s: MenuState)
    ensures Reachable(s) <==> IconsAgree(s)
  {
    if Reachable(s) {
      var clicks :| Run(Initial, clicks) == s;
      RunFlipsByPressCount(Initial, clicks);
    }
    if IconsAgree(s) {
      var menu: seq<Click> := if s.panelHidden then [] else [MenuButton];
      var sub: seq<Click> := if s.submenuHidden then [] else [IndustryButton];
      assert Presses(sub, MenuButton) == 0 && Presses(sub, IndustryButton) == |sub| by {
        if |sub| == 1 { assert sub[1..] == []; }
      }
      if |menu| == 1 {
        assert (menu + sub)[0] == MenuButton && (menu + sub)[1..] == sub;
      } else {
        assert menu + sub == sub;
      }
      RunFlipsByPressCount(Initial, menu + sub);
      assert Run(Initial, menu + sub) == s;
    }
  }
}
