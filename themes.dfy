/** The two colour schemes of the app (utils/theme.ts) and the choice between them. */
module Themes {

  /**
   * A colour scheme. Both schemes are values of this one record type, so they
   * have the same nine fields.
   */
  datatype Theme = Theme(
    background: string,
    text: string,
    primary: string,
    secondary: string,
    border: string,
    card: string,
    headerBackground: string,
    headerText: string,
    inputBackground: string)

  const LightTheme: Theme := Theme(
    background := "#FFFFFF",
    text := "#000000",
    primary := "#e74c3c",
    secondary := "#f8f8f8",
    border := "#ddd",
    card := "#f8f8f8",
    headerBackground := "#e74c3c",
    headerText := "#FFFFFF",
    inputBackground := "#f8f8f8")

  const DarkTheme: Theme := Theme(
    background := "#121212",
    text := "#FFFFFF",
    primary := "#e74c3c",
    secondary := "#2A2A2A",
    border := "#444",
    card := "#1E1E1E",
    headerBackground := "#1E1E1E",
    headerText := "#FFFFFF",
    inputBackground := "#2A2A2A")

  /** The scheme for a mode: one of the two constant schemes, never anything else. */
  function GetTheme(isDarkMode: bool): (t: Theme)
    ensures t == LightTheme || t == DarkTheme
    ensures t.primary == "#e74c3c" && t.headerText == "#FFFFFF"
    ensures t.background == (if isDarkMode then "#121212" else "#FFFFFF")
    ensures t.text == (if isDarkMode then "#FFFFFF" else "#000000")
  {
    if isDarkMode then DarkTheme else LightTheme
  }

  /** The mode a scheme was chosen for, read off its background colour. */
  function IsDarkScheme(t: Theme): bool
  {
    t.background == DarkTheme.background
  }

  /** The scheme determines the mode: `GetTheme` is injective, and `IsDarkScheme` inverts it. */
  lemma GetThemeInjective(a: bool, b: bool)
    ensures IsDarkScheme(GetTheme(a)) == a
    ensures GetTheme(a) == GetTheme(b) <==> a == b
  {
  }
}
