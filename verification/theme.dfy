/**
 * The colour theme (src/context/ThemeContext.jsx): `isDark` starts from the
 * stored `theme`, and every change is written back to storage and mirrored by
 * the `dark` class on the document's root element; `useTheme` fails outside the
 * provider.
 */
module Theme {
  import opened Wrappers
  import opened LocalStorage

  const ThemeKey: string := "theme"
  const DarkClass: string := "dark"
  const OutsideProvider: string := "useTheme must be used within a ThemeProvider"

  /** The stored value as a truthy string: present, a string, and not empty. */
  predicate SavedTruthy(items: map<string, Value>) {
    ThemeKey in items && !(items[ThemeKey].Text? && items[ThemeKey].s == "")
  }

  /** The initial `isDark`: the saved value when it is truthy, compared with `'dark'`; false otherwise. */
  function SavedIsDark(items: map<string, Value>): (dark: bool)
    ensures dark <==> ThemeKey in items && items[ThemeKey] == Text("dark")
  {
    if SavedTruthy(items) then items[ThemeKey] == Text("dark") else false
  }

  function ThemeName(isDark: bool): string {
    if isDark then "dark" else "light"
  }

  /** The storage after the effect: `theme` names the current theme, every other key as it was. */
  function Persist(items: map<string, Value>, isDark: bool): (after: map<string, Value>)
    ensures SavedTruthy(after) && SavedIsDark(after) == isDark
    ensures forall k :: k != ThemeKey ==> (k in after <==> k in items)
    ensures forall k :: k != ThemeKey && k in items ==> after[k] == items[k]
  {
    items[ThemeKey := Text(ThemeName(isDark))]
  }

  /** The root's classes after the effect: `dark` exactly when dark, every other class as it was. */
  function WithDarkClass(classes: set<string>, isDark: bool): (after: set<string>)
    ensures DarkClass in after <==> isDark
    ensures after - {DarkClass} == classes - {DarkClass}
  {
    if isDark then classes + {DarkClass} else classes - {DarkClass}
  }

  /** Storage and root class agree with `isDark`. */
  predicate Mirrors(items: map<string, Value>, classes: set<string>, isDark: bool) {
    && ThemeKey in items && items[ThemeKey] == Text(ThemeName(isDark))
    && (DarkClass in classes <==> isDark)
  }

  /** Once the effect has run, running it again for the same theme changes nothing. */
  lemma MirroredIsFixed(items: map<string, Value>, classes: set<string>, isDark: bool)
    requires Mirrors(items, classes, isDark)
    ensures Persist(items, isDark) == items && WithDarkClass(classes, isDark) == classes
  {
  }

  /** Toggling twice, with the effect after each toggle, puts storage and root classes back. */
  lemma ToggleTwiceRestores(items: map<string, Value>, classes: set<string>, isDark: bool)
    requires Mirrors(items, classes, isDark)
    ensures Persist(Persist(items, !isDark), isDark) == items
    ensures WithDarkClass(WithDarkClass(classes, !isDark), isDark) == classes
  {
    assert Persist(Persist(items, !isDark), isDark) == Persist(items, isDark);
    MirroredIsFixed(items, classes, isDark);
  }

  /** What the provider hands to its children. */
  datatype ThemeContextValue = ThemeContextValue(isDark: bool)

  /** `useTheme()`: the context value inside a provider, the error outside one. */
  function UseTheme(context: Option<ThemeContextValue>): (r: Result<ThemeContextValue, string>)
    ensures r.Failure? <==> context.None?
    ensures r.Success? ==> r.value == context.value
    ensures r.Failure? ==> r.error == OutsideProvider
  {
    match context
    case None => Failure(OutsideProvider)
    case Some(value) => Success(value)
  }

  class ThemeProvider {
    var isDark: bool
    /** `document.documentElement.classList` */
    var rootClasses: set<string>
    const store: Store

    predicate Valid()
      reads this, store
    {
      Mirrors(store.items, rootClasses, isDark)
    }

    /** First render (the lazy initial state) followed by the effect. */
    constructor (store: Store, classes: set<string>)
      modifies store
      ensures this.store == store && Valid()
      ensures isDark == SavedIsDark(old(store.items))
      ensures store.items == Persist(old(store.items), isDark)
      ensures rootClasses == WithDarkClass(classes, isDark)
    {
      this.store := store;
      isDark := SavedIsDark(store.items);
      rootClasses := classes;
      new;
      ApplyTheme();
    }

    /**
     * The effect: write the theme, put or take the `dark` class, and take it
     * again if storage holds no truthy `theme` (which, right after the write,
     * it always does).
     */
    method ApplyTheme()
      modifies this, store
      ensures Valid() && isDark == old(isDark)
      ensures store.items == Persist(old(store.items), isDark)
      ensures rootClasses == WithDarkClass(old(rootClasses), isDark)
    {
      store.SetItem(ThemeKey, Text(ThemeName(isDark)));
      if isDark {
        rootClasses := rootClasses + {DarkClass};
      } else {
        rootClasses := rootClasses - {DarkClass};
      }
      var forceLight := !SavedTruthy(store.items);
      rootClasses := if forceLight then rootClasses - {DarkClass} else rootClasses;
    }

    /** `toggleTheme`, with the effect that the change of `isDark` triggers. */
    method ToggleTheme()
      modifies this, store
      ensures Valid() && isDark == !old(isDark)
      ensures store.items == Persist(old(store.items), isDark)
      ensures rootClasses == WithDarkClass(old(rootClasses), isDark)
    {
      isDark := !isDark;
      ApplyTheme();
    }
  }
}
