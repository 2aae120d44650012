/**
 * The persisted theme store (store/useThemeStore.ts): the dark-mode flag, the
 * colour scheme derived from it, and a flag that records that the persisted
 * state has been read back.
 */
module UseThemeStore {

  import opened Themes

  /** The store's state as one value. */
  datatype ThemeState = ThemeState(isDarkMode: bool, theme: Theme, isThemeLoaded: bool)

  /** The store invariant: the scheme is always the one for the current mode. */
  predicate Consistent(s: ThemeState)
  {
    s.theme == GetTheme(s.isDarkMode)
  }

  /** The state the store is created with. */
  const InitialState: ThemeState := ThemeState(false, GetTheme(false), false)

  /** `toggleTheme`: flip the mode and take the scheme of the new mode. */
  function Toggled(s: ThemeState): (t: ThemeState)
    ensures t.isDarkMode != s.isDarkMode
    ensures Consistent(t)
    ensures t.isThemeLoaded == s.isThemeLoaded
  {
    s.(isDarkMode := !s.isDarkMode, theme := GetTheme(!s.isDarkMode))
  }

  /** `setDarkMode(isDark)`: set the mode and take its scheme. */
  function WithDarkMode(s: ThemeState, isDark: bool): (t: ThemeState)
    ensures t.isDarkMode == isDark
    ensures Consistent(t)
    ensures t.isThemeLoaded == s.isThemeLoaded
  {
    s.(isDarkMode := isDark, theme := GetTheme(isDark))
  }

  /**
   * The rehydration callback: when a rehydrated state is handed to it, mark
   * it loaded; when none is (rehydration failed), change nothing.
   */
  function Rehydrated(s: ThemeState, statePresent: bool): (t: ThemeState)
    ensures t.isThemeLoaded == (s.isThemeLoaded || statePresent)
    ensures t.isDarkMode == s.isDarkMode && t.theme == s.theme
    ensures !statePresent ==> t == s
  {
    if statePresent then s.(isThemeLoaded := true) else s
  }

  /** The invariant holds initially and every transition keeps it. */
  lemma ConsistentAlways(s: ThemeState, isDark: bool, statePresent: bool)
    ensures Consistent(InitialState) && !InitialState.isDarkMode && !InitialState.isThemeLoaded
    ensures Consistent(s) ==> Consistent(Toggled(s))
    ensures Consistent(s) ==> Consistent(WithDarkMode(s, isDark))
    ensures Consistent(s) ==> Consistent(Rehydrated(s, statePresent))
  {
  }

  /** Toggling twice restores the mode and, from a consistent state, the scheme as well. */
  lemma ToggledTwice(s: ThemeState)
    requires Consistent(s)
    ensures Toggled(Toggled(s)) == s
  {
  }

  /** Setting the mode is idempotent, and toggling is setting the opposite mode. */
  lemma WithDarkModeIdempotent(s: ThemeState, isDark: bool)
    ensures WithDarkMode(WithDarkMode(s, isDark), isDark) == WithDarkMode(s, isDark)
    ensures Toggled(s) == WithDarkMode(s, !s.isDarkMode)
  {
  }

  /** The store object; its fields are replaced by the store's actions. */
  class ThemeStore {
    var isDarkMode: bool
    var theme: Theme
    var isThemeLoaded: bool

    function State(): ThemeState
      reads this
    {
      ThemeState(isDarkMode, theme, isThemeLoaded)
    }

    constructor ()
      ensures State() == InitialState
    {
      isDarkMode := false;
      theme := GetTheme(false);
      isThemeLoaded := false;
    }

    method ToggleTheme()
      modifies this
      ensures State() == Toggled(old(State()))
    {
      isDarkMode, theme := !isDarkMode, GetTheme(!isDarkMode);
    }

    method SetDarkMode(isDark: bool)
      modifies this
      ensures State() == WithDarkMode(old(State()), isDark)
    {
      isDarkMode, theme := isDark, GetTheme(isDark);
    }

    /** The rehydration hook; `statePresent` is whether it received a state object. */
    method OnRehydrateStorage(statePresent: bool)
      modifies this
      ensures State() == Rehydrated(old(State()), statePresent)
    {
      if statePresent {
        isThemeLoaded := true;
      }
    }
  }
}
