/**
 * The theme controller: a dark/light mode shown by two classes on the page
 * body, a toggle button that mirrors it, and the `theme` preference key in
 * local storage.
 */
module Theme {
  import opened Wrappers

  /** The mode the page starts in for a stored preference: dark unless it is exactly "light". */
  function StartsDark(saved: Option<string>): (dark: bool)
    ensures saved == None ==> dark
    ensures saved == Some("light") ==> !dark
  {
    saved != Some("light")
  }

  /** The preference string written for a mode. */
  function ThemeValue(dark: bool): (s: string)
    ensures s == "dark" || s == "light"
  {
    if dark then "dark" else "light"
  }

  /** The button's `aria-pressed` attribute: `String(isDark)`. */
  function PressedAttr(dark: bool): (r: string)
    ensures r == "true" || r == "false"
    ensures r == "true" <==> dark
  {
    if dark then "true" else "false"
  }

  /** The button's text for a mode. */
  function ButtonLabel(dark: bool): (r: string)
    ensures |r| > 11 && r[..11] == "Dark Mode: "
    ensures r[11..] == "ON" <==> dark
  {
    if dark then "Dark Mode: ON" else "Dark Mode: OFF"
  }

  /** What a toggle stores is what the next page load starts from. */
  lemma PreferenceRoundTrip(dark: bool)
    ensures StartsDark(Some(ThemeValue(dark))) == dark
  {
  }

  class ThemeController {
    var darkClass: bool        // body has class `dark-mode`
    var lightClass: bool       // body has class `light-mode`
    var stored: Option<string> // local storage under the key `theme`
    var ariaPressed: string    // the button's `aria-pressed`
    var buttonText: string     // the button's text

    /**
     * Exactly one of the two body classes is present, the button matches it,
     * and a reload would show the mode now on screen.
     */
    ghost predicate Valid()
      reads this
    {
      && lightClass == !darkClass
      && ariaPressed == PressedAttr(darkClass)
      && buttonText == ButtonLabel(darkClass)
      && StartsDark(stored) == darkClass
    }

    /** Start-up: read the stored preference and apply it; storage is not written. */
    constructor (saved: Option<string>)
      ensures Valid()
      ensures stored == saved
      ensures darkClass <==> saved != Some("light")
    {
      stored := saved;
      if saved == Some("light") {
        darkClass, lightClass := false, true;
        ariaPressed, buttonText := PressedAttr(false), ButtonLabel(false);
      } else {
        darkClass, lightClass := true, false;
        ariaPressed, buttonText := PressedAttr(true), ButtonLabel(true);
      }
    }

    /** The button's click: flip the mode shown, store it, and relabel the button. */
    method Toggle()
      requires Valid()
      modifies this
      ensures Valid()
      ensures darkClass == !old(darkClass)
      ensures stored == Some(ThemeValue(darkClass))
    {
      var isDark := darkClass;
      if isDark {
        darkClass, lightClass := false, true;
        stored := Some("light");
        ariaPressed, buttonText := PressedAttr(false), ButtonLabel(false);
      } else {
        darkClass, lightClass := true, false;
        stored := Some("dark");
        ariaPressed, buttonText := PressedAttr(true), ButtonLabel(true);
      }
    }
  }

  /**
   * Two clicks restore the mode and the button. The stored value comes back
   * only in its canonical spelling: a start from a missing or unrecognised
   * preference ends with "dark" stored.
   */
  method ToggleTwice(t: ThemeController)
    requires t.Valid()
    modifies t
    ensures t.Valid()
    ensures t.darkClass == old(t.darkClass) && t.lightClass == old(t.lightClass)
    ensures t.ariaPressed == old(t.ariaPressed) && t.buttonText == old(t.buttonText)
    ensures t.stored == Some(ThemeValue(old(t.darkClass)))
    ensures old(t.stored) == Some(ThemeValue(old(t.darkClass))) ==> t.stored == old(t.stored)
  {
    t.Toggle();
    t.Toggle();
  }
}
