/**
 * The application-wide theme: dark or light, and the accent colour, both saved as preferences.
 * The launched bodies have no suspension point, so each one runs to its end when it is called.
 */
module MainViewModel {
  import opened Wrappers
  import opened ThemeColors

  /**
   * The preference keys. Their texts are defined in `PreferenceKey`, which is not part of this
   * model; all that matters here is that they differ.
   */
  const ThemeKey: string := "THEME_KEY"
  const ThemeColorKey: string := "THEME_COLOR_KEY"

  /** The stored name of the dark theme, and the name reported for the light one. */
  const Dark: string := "Obscuro"
  const Light: string := "Claro"

  /** The preference store: a map from key to text. */
  class PreferenceSettings {
    var prefs: map<string, string>

    constructor (initial: map<string, string>)
      ensures prefs == initial
    {
      prefs := initial;
    }

    /** `getPreference`: the stored text, None (null) for a missing key. */
    function GetPreference(key: string): (r: Option<string>)
      reads this
      ensures r.Some? <==> key in prefs
      ensures r.Some? ==> r.value == prefs[key]
    {
      if key in prefs then Some(prefs[key]) else None
    }

    method SetPreference(key: string, value: string)
      modifies this
      ensures prefs == old(prefs)[key := value]
    {
      prefs := prefs[key := value];
    }

    method ClearPreference(key: string)
      modifies this
      ensures prefs == old(prefs) - {key}
    {
      prefs := prefs - {key};
    }

    method ClearAllPreferences()
      modifies this
      ensures prefs == map[]
    {
      prefs := map[];
    }
  }

  /** What `loadInitialTheme` makes of the stored preferences: (dark, colour). */
  function LoadedTheme(prefs: map<string, string>): (r: (bool, nat))
    ensures r.0 <==> ThemeKey in prefs && prefs[ThemeKey] == Dark
    ensures ThemeColorKey in prefs ==> r.1 == GetColor(prefs[ThemeColorKey]).Color()
    ensures ThemeColorKey !in prefs ==> r.1 == Green.Color()
  {
    var savedTheme := if ThemeKey in prefs then Some(prefs[ThemeKey]) else None;
    var themeColor := if ThemeColorKey in prefs then Some(prefs[ThemeColorKey]) else None;
    (savedTheme == Some(Dark), GetColor(themeColor.GetOr(Green.Label())).Color())
  }

  /** A missing or unknown colour preference loads as Green. */
  lemma UnknownColorLoadsGreen(prefs: map<string, string>)
    requires ThemeColorKey !in prefs || prefs[ThemeColorKey] !in Labels
    ensures LoadedTheme(prefs).1 == Green.Color()
  {
  }

  /** What was saved is what the next start loads. */
  lemma SavedThemeIsLoaded(prefs: map<string, string>, theme: string, color: string)
    ensures LoadedTheme(prefs[ThemeKey := theme][ThemeColorKey := color]) == (theme == Dark, GetColor(color).Color())
  {
  }

  /** `MainViewModel`: the two state cells over a preference store. */
  class MainViewModel {
    const preferences: PreferenceSettings
    var isDarkTheme: bool
    var themeColor: nat

    /** Starts light and Green, then `init` loads the saved theme. */
    constructor (preferences: PreferenceSettings)
      ensures this.preferences == preferences
      ensures (isDarkTheme, themeColor) == LoadedTheme(preferences.prefs)
    {
      this.preferences := preferences;
      isDarkTheme := false;
      themeColor := Green.Color();
      new;
      LoadInitialTheme();
    }

    /** `loadInitialTheme`: dark iff the saved theme is "Obscuro"; the colour of the saved label, Green by default. */
    method LoadInitialTheme()
      modifies this
      ensures (isDarkTheme, themeColor) == LoadedTheme(preferences.prefs)
    {
      var savedTheme := preferences.GetPreference(ThemeKey);
      var savedColor := preferences.GetPreference(ThemeColorKey);
      themeColor := GetColor(savedColor.GetOr(Green.Label())).Color();
      isDarkTheme := savedTheme == Some(Dark);
    }

    /** `changeTheme`: the theme is saved and the dark flag follows it; the colour is untouched. */
    method ChangeTheme(theme: string)
      modifies this, preferences
      ensures preferences.prefs == old(preferences.prefs)[ThemeKey := theme]
      ensures isDarkTheme == (theme == Dark) && themeColor == old(themeColor)
      ensures GetCurrentThemeName() == Dark <==> theme == Dark
    {
      preferences.SetPreference(ThemeKey, theme);
      isDarkTheme := theme == Dark;
    }

    /** `changeThemeColor`: the label is saved and the colour becomes the one it names (Green if none). */
    method ChangeThemeColor(color: string)
      modifies this, preferences
      ensures preferences.prefs == old(preferences.prefs)[ThemeColorKey := color]
      ensures themeColor == GetColor(color).Color() && isDarkTheme == old(isDarkTheme)
    {
      preferences.SetPreference(ThemeColorKey, color);
      themeColor := GetColor(color).Color();
    }

    /** `getCurrentThemeName`: "Obscuro" when dark, "Claro" otherwise. */
    function GetCurrentThemeName(): (r: string)
      reads this
      ensures r == Dark <==> isDarkTheme
      ensures r == Light <==> !isDarkTheme
    {
      if isDarkTheme then Dark else Light
    }
  }

  /** Changing theme and colour, then starting again over the same store, restores both. */
  method ChangesSurviveRestart(preferences: PreferenceSettings, theme: string, color: string)
    returns (before: (bool, nat), after: (bool, nat))
    modifies preferences
    ensures before == after == (theme == Dark, GetColor(color).Color())
  {
    var vm := new MainViewModel(preferences);
    vm.ChangeTheme(theme);
    vm.ChangeThemeColor(color);
    before := (vm.isDarkTheme, vm.themeColor);
    var restarted := new MainViewModel(preferences);
    after := (restarted.isDarkTheme, restarted.themeColor);
  }
}
