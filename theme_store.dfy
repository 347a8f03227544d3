/** The theme store (src/stores/themeStore.ts): the current theme, its
    stored copy under `learnx_theme`, and the `dark` class on the document's
    root element. */
module ThemeStore {

  const ThemeKey := "learnx_theme"

  predicate IsTheme(t: string) {
    t == "light" || t == "dark"
  }

  /** The theme read at page load: the stored text, or "light" when nothing
      or an empty string is stored. The stored text is not checked. */
  function InitialTheme(storage: map<string, string>): (r: string)
    ensures ThemeKey in storage && storage[ThemeKey] != "" ==> r == storage[ThemeKey]
    ensures ThemeKey !in storage || storage[ThemeKey] == "" ==> r == "light"
  {
    if ThemeKey in storage && storage[ThemeKey] != "" then storage[ThemeKey] else "light"
  }

  /** The theme `toggleTheme` switches to: "dark" from "light", "light" from anything else. */
  function Toggled(t: string): (r: string)
    ensures IsTheme(r)
    ensures r == "dark" <==> t == "light"
  {
    if t == "light" then "dark" else "light"
  }

  /** A snapshot of the theme, the storage it is mirrored in, and whether the
      document carries the `dark` class. */
  datatype Appearance = Appearance(theme: string, storage: map<string, string>, darkClass: bool)

  /** The stored copy and the document class agree with the theme. */
  ghost predicate Synced(a: Appearance) {
    ThemeKey in a.storage && a.storage[ThemeKey] == a.theme && a.darkClass == (a.theme == "dark")
  }

  /** `setTheme(t)`; `toggleTheme()` is `Applied(a, Toggled(a.theme))`. */
  function Applied(a: Appearance, t: string): (r: Appearance)
    ensures r.theme == t && Synced(r)
    ensures forall k :: k in a.storage && k != ThemeKey ==> k in r.storage && r.storage[k] == a.storage[k]
    ensures r.storage.Keys == a.storage.Keys + {ThemeKey}
  {
    Appearance(t, a.storage[ThemeKey := t], t == "dark")
  }

  /** Setting the same theme twice is setting it once. */
  lemma SetThemeIdempotent(a: Appearance, t: string)
    ensures Applied(Applied(a, t), t) == Applied(a, t)
  {
  }

  /** Two toggles from "light" or "dark" restore the theme. */
  lemma ToggleTwiceRestores(t: string)
    requires IsTheme(t)
    ensures Toggled(Toggled(t)) == t
  {
  }

  /** A toggle after a text other than "light" or "dark" was stored lands on "light". */
  lemma ToggleFromUnknownIsLight(t: string)
    requires !IsTheme(t)
    ensures Toggled(t) == "light" && Toggled(Toggled(t)) == "dark"
  {
  }

  class ThemeState {
    var theme: string
    var storage: map<string, string>
    var darkClass: bool

    function State(): Appearance
      reads this
    {
      Appearance(theme, storage, darkClass)
    }

    /** The store created at page load; the document class is whatever the
        page had, since the store does not touch it until the first change. */
    constructor (storage: map<string, string>, darkClass: bool)
      ensures State() == Appearance(InitialTheme(storage), storage, darkClass)
    {
      this.theme := InitialTheme(storage);
      this.storage := storage;
      this.darkClass := darkClass;
    }

    method ToggleTheme()
      modifies this
      ensures State() == Applied(old(State()), Toggled(old(theme)))
      ensures Synced(State())
    {
      var newTheme := Toggled(theme);
      theme := newTheme;
      storage := storage[ThemeKey := newTheme];
      darkClass := newTheme == "dark";
    }

    method SetTheme(t: string)
      requires IsTheme(t)
      modifies this
      ensures State() == Applied(old(State()), t)
      ensures Synced(State())
    {
      theme := t;
      storage := storage[ThemeKey := t];
      darkClass := t == "dark";
    }
  }
}
