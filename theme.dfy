/** The dark/light theme switch: the toggle button's click handler and the
    choice, at page load, of which of the two toggle icons to show. Browser
    storage is the `color-theme` entry, the root element's `dark` class a
    boolean, each icon's `hidden` class a boolean, and the `theme-switch`
    event the payload a click returns. */
module Theme {
  import opened Wrappers

  /** `localStorage.getItem("color-theme")` used as a JavaScript condition:
      an absent entry and an empty string are both false. */
  predicate Truthy(stored: Option<string>) {
    stored.Some? && stored.value != ""
  }

  /** The theme a click switches to and announces. When storage holds a
      non-empty value, a stored "light" turns to "dark" and any other value
      to "light"; otherwise the root element's `dark` class is flipped. */
  function ToggledTheme(storageAvailable: bool, stored: Option<string>, darkClass: bool): (t: string)
    ensures t == "dark" || t == "light"
    ensures storageAvailable && stored == Some("light") ==> t == "dark"
    ensures storageAvailable && Truthy(stored) && stored != Some("light") ==> t == "light"
    ensures !(storageAvailable && Truthy(stored)) ==> (t == "dark" <==> !darkClass)
  {
    if storageAvailable && Truthy(stored) then
      if stored.value == "light" then "dark" else "light"
    else if darkClass then "light" else "dark"
  }

  /** Everything a click reads or writes. */
  datatype ThemeState = ThemeState(
    stored: Option<string>,
    darkClass: bool,
    darkIconHidden: bool,
    lightIconHidden: bool)

  datatype ClickOutcome = ClickOutcome(state: ThemeState, payload: string)

  /** One click: both icons change visibility, the announced theme becomes
      the root class and, when storage can be written, the stored value. */
  function Toggle(storageAvailable: bool, s: ThemeState): (o: ClickOutcome)
    ensures o.payload == ToggledTheme(storageAvailable, s.stored, s.darkClass)
    ensures o.state.darkClass <==> o.payload == "dark"
    ensures o.state.stored == if storageAvailable then Some(o.payload) else s.stored
    ensures o.state.darkIconHidden == !s.darkIconHidden
    ensures o.state.lightIconHidden == !s.lightIconHidden
  {
    var theme := ToggledTheme(storageAvailable, s.stored, s.darkClass);
    ClickOutcome(
      ThemeState(
        if storageAvailable then Some(theme) else s.stored,
        theme == "dark",
        !s.darkIconHidden,
        !s.lightIconHidden),
      theme)
  }

  /** The stored value, when storage is consulted, names the theme the root
      class shows: any non-empty value other than "light" counts as dark. */
  predicate Agrees(storageAvailable: bool, s: ThemeState) {
    storageAvailable && Truthy(s.stored) ==> s.darkClass == (s.stored.value != "light")
  }

  /** Every click leaves storage and the root class in agreement. */
  lemma ToggleAgrees(storageAvailable: bool, s: ThemeState)
    ensures Agrees(storageAvailable, Toggle(storageAvailable, s).state)
  {
  }

  /** Two clicks restore both icons and announce opposite themes; they
      restore the root class exactly when storage agreed with it before. */
  lemma TwoClicks(storageAvailable: bool, s: ThemeState)
    ensures var first := Toggle(storageAvailable, s);
            var second := Toggle(storageAvailable, first.state);
            && second.state.darkIconHidden == s.darkIconHidden
            && second.state.lightIconHidden == s.lightIconHidden
            && first.payload != second.payload
            && (second.state.darkClass == s.darkClass <==> Agrees(storageAvailable, s))
  {
  }

  /** A stored "light" under a dark root class: two clicks end with the root
      class light, so not every starting state comes back after two clicks. */
  lemma TwoClicksFromDisagreement()
    ensures var s := ThemeState(Some("light"), true, false, true);
            Toggle(true, Toggle(true, s).state).state.darkClass == false
  {
  }

  /** Which toggle icon is shown. The light icon invites a switch to light:
      at page load it is shown exactly when the starting theme is dark
      (`RevealedIcon`), and clicks keep it in step with the root class only
      while storage agrees with that class (`IconTracksClass`,
      `StrayStoredValue`). */
  datatype Icon = DarkIcon | LightIcon

  /** The theme the page starts in, as the icon choice reads it: a stored
      entry decides when storage is available and holds one ("dark" is dark,
      anything else light); otherwise the system's dark-mode preference. */
  function InitialTheme(storageAvailable: bool, stored: Option<string>, prefersDark: bool): (t: string)
    ensures t == "dark" || t == "light"
  {
    if storageAvailable && stored.Some? then
      if stored.value == "dark" then "dark" else "light"
    else if prefersDark then "dark" else "light"
  }

  /** The icon un-hidden at page load. `stored == None` stands for the
      `color-theme` key being absent from storage. */
  function RevealedIcon(storageAvailable: bool, stored: Option<string>, prefersDark: bool): (i: Icon)
    ensures i == LightIcon <==>
      || (storageAvailable && stored == Some("dark"))
      || (storageAvailable && stored.None? && prefersDark)
      || (!storageAvailable && prefersDark)
    ensures i == LightIcon <==> InitialTheme(storageAvailable, stored, prefersDark) == "dark"
  {
    if storageAvailable then
      if stored == Some("dark") || (stored.None? && prefersDark) then LightIcon else DarkIcon
    else
      if prefersDark then LightIcon else DarkIcon
  }

  /** The light icon is shown exactly when the root class is dark. */
  predicate IconMatchesClass(s: ThemeState) {
    !s.lightIconHidden <==> s.darkClass
  }

  /** While storage agrees with the root class, a click keeps the shown icon
      in step with the class. */
  lemma IconTracksClass(storageAvailable: bool, s: ThemeState)
    requires Agrees(storageAvailable, s) && IconMatchesClass(s)
    ensures IconMatchesClass(Toggle(storageAvailable, s).state)
  {
  }

  /** The state at page load, with the root class set to the starting theme
      and the icon `RevealedIcon` names shown: for the values the page itself
      stores (and an absent or empty entry) storage agrees with the class and
      the icon matches it. */
  lemma LoadStateAgrees(storageAvailable: bool, stored: Option<string>, prefersDark: bool)
    requires stored == None || stored == Some("") || stored == Some("dark") || stored == Some("light")
    ensures var icon := RevealedIcon(storageAvailable, stored, prefersDark);
            var s := ThemeState(
              stored,
              InitialTheme(storageAvailable, stored, prefersDark) == "dark",
              icon != DarkIcon,
              icon != LightIcon);
            Agrees(storageAvailable, s) && IconMatchesClass(s)
  {
  }

  /** Any other stored value is read as light at page load but as dark by the
      click handler: with "foo" stored, a light root class and the dark icon
      shown, a click announces "light", keeps the class light and shows the
      light icon. */
  lemma StrayStoredValue()
    ensures var o := Toggle(true, ThemeState(Some("foo"), false, false, true));
            o.payload == "light" && !o.state.darkClass && !o.state.lightIconHidden
            && !IconMatchesClass(o.state)
  {
  }

  /** The theme toggle of one page. */
  class Toggler {
    /** Whether `localStorage` can be used; the click handler does not check. */
    const storageAvailable: bool
    var stored: Option<string>
    var darkClass: bool
    var darkIconHidden: bool
    var lightIconHidden: bool

    function State(): ThemeState
      reads this
    {
      ThemeState(stored, darkClass, darkIconHidden, lightIconHidden)
    }

    /** Exactly one of the two icons is shown. */
    predicate Valid()
      reads this
    {
      darkIconHidden != lightIconHidden
    }

    /** Page load: both icons start hidden and the one `RevealedIcon` names
        is un-hidden. The root class is set before this script runs. */
    constructor (storageAvailable: bool, stored: Option<string>, darkClass: bool, prefersDark: bool)
      ensures Valid()
      ensures this.storageAvailable == storageAvailable
      ensures this.stored == stored && this.darkClass == darkClass
      ensures !lightIconHidden <==> RevealedIcon(storageAvailable, stored, prefersDark) == LightIcon
    {
      this.storageAvailable := storageAvailable;
      this.stored := stored;
      this.darkClass := darkClass;
      darkIconHidden := true;
      lightIconHidden := true;
      new;
      if RevealedIcon(storageAvailable, stored, prefersDark) == LightIcon {
        lightIconHidden := false;
      } else {
        darkIconHidden := false;
      }
    }

    /** One click, returning the `theme-switch` payload. The event is sent
        before storage is written, so when storage is unavailable the payload
        still goes out and the handler then fails at the write, which
        `storageError` reports. */
    method Click() returns (payload: string, storageError: bool)
      requires Valid()
      modifies this
      ensures Valid()
      ensures Toggle(storageAvailable, old(State())) == ClickOutcome(State(), payload)
      ensures storageError == !storageAvailable
      ensures storageAvailable ==> stored == Some(payload)
      ensures darkClass <==> payload == "dark"
      ensures darkIconHidden == !old(darkIconHidden) && lightIconHidden == !old(lightIconHidden)
    {
      darkIconHidden := !darkIconHidden;
      lightIconHidden := !lightIconHidden;
      if storageAvailable && Truthy(stored) {
        if stored.value == "light" {
          darkClass := true;
          payload := "dark";
        } else {
          darkClass := false;
          payload := "light";
        }
      } else {
        if darkClass {
          darkClass := false;
          payload := "light";
        } else {
          darkClass := true;
          payload := "dark";
        }
      }
      storageError := !storageAvailable;
      if !storageError {
        stored := Some(payload);
      }
    }
  }
}
