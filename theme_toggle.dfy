/** The light/dark switch in the header: what it hands to `setTheme`, which
    keys press it, and how it draws the current theme. */
module ThemeToggle {
  import opened Wrappers

  /** `theme === "light" ? "dark" : "light"`. */
  function Toggled(theme: string): (r: string)
    ensures r == "light" || r == "dark"
    ensures r == "dark" <==> theme == "light"
  {
    if theme == "light" then "dark" else "light"
  }

  /** Toggling twice returns to the start exactly from light or dark; any
      other theme ends on dark. */
  lemma ToggleTwice(theme: string)
    ensures Toggled(Toggled(theme)) == theme <==> theme == "light" || theme == "dark"
    ensures theme != "light" && theme != "dark" ==> Toggled(Toggled(theme)) == "dark"
  {
    assert Toggled("light") == "dark" && Toggled("dark") == "light";
  }

  /** The keys that press the switch: Enter and Space. */
  predicate PressesToggle(key: string) {
    key == "Enter" || key == " "
  }

  /** The theme passed to `setTheme` for a key press, if the key presses
      the switch. */
  function OnKeyPress(key: string, theme: string): (r: Option<string>)
    ensures r.Some? <==> PressesToggle(key)
    ensures r.Some? ==> r.value == Toggled(theme)
  {
    if PressesToggle(key) then Some(Toggled(theme)) else None
  }

  /** What the switch draws: its icon, and whether the track is coloured
      and the knob moved to the right. */
  datatype Look = Look(icon: string, trackOn: bool, knobRight: bool)

  const SunIcon: string := "\U{1F31E}"
  const MoonIcon: string := "\U{1F319}"

  function Appearance(theme: string): (r: Look)
    ensures r.icon == SunIcon <==> theme == "light"
    ensures r.icon == SunIcon || r.icon == MoonIcon
    ensures r.trackOn <==> theme == "dark"
    ensures r.knobRight <==> theme == "dark"
  {
    Look(if theme == "light" then SunIcon else MoonIcon, theme == "dark", theme == "dark")
  }

  /** After a toggle the switch always shows one of its two ends: the sun
      with the knob left, or the moon with the knob right. */
  lemma AppearanceAfterToggle(theme: string)
    ensures var look := Appearance(Toggled(theme));
      (look.icon == SunIcon && !look.knobRight) || (look.icon == MoonIcon && look.knobRight)
  {
    assert SunIcon != MoonIcon by {
      assert SunIcon[0] != MoonIcon[0];
    }
  }
}
