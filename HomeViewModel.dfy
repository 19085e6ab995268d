/** The home screen: navigation between its three sections, and the theme dialog. */
module HomeViewModel {
  import opened ThemeColors
  import opened MainViewModel

  /** `RoutesHome`, with each route's text. */
  datatype RoutesHome = Workspaces | Eva | Works {
    function Route(): string {
      match this
      case Workspaces => "workspaces"
      case Eva => "eva"
      case Works => "works"
    }
  }

  /** A navigation item: its label (`labelText`, as `label` is a Dafny keyword) and its route; its icon and content only draw. */
  datatype NavItem = NavItem(labelText: string := "", route: RoutesHome := Workspaces)

  /** `NavItem().getItems()`: the three sections, in order. */
  function NavItems(): (r: seq<NavItem>)
    ensures |r| == 3 && r[0].route == Workspaces && r[1].route == Eva && r[2].route == Works
    ensures forall i :: 0 <= i < |r| ==> r[i].labelText != ""
  {
    [NavItem("Workspaces", Workspaces), NavItem("Eva", Eva), NavItem("Works", Works)]
  }

  /**
   * The home state. `HomeState` as written declares only the first two fields; the others are the
   * ones the view model and the screen use, with defaults chosen here: dialog closed, nothing selected.
   */
  datatype HomeState = HomeState(
    selectedItem: NavItem := NavItems()[0],
    navItems: seq<NavItem> := NavItems(),
    isConfigDialogOpen: bool := false,
    themeSelectedInDialog: string := "",
    colorThemeSelectedInDialog: string := ""
  )

  datatype HomeAction =
    | SelectNavItem(navItem: NavItem)
    | CloseConfigDialog
    | OpenConfigDialog
    | ThemeSelectionChangedInDialog(newTheme: string)
    | ColorThemeSelectionChangedInDialog(newColorTheme: string)
    | Save

  /** The home state after an action; `currentThemeName` is what the main model reports at that moment. */
  function NextState(s: HomeState, action: HomeAction, currentThemeName: string): HomeState {
    match action
    case SelectNavItem(item) => s.(selectedItem := item)
    case CloseConfigDialog => s.(isConfigDialogOpen := false)
    case OpenConfigDialog => s.(isConfigDialogOpen := true, themeSelectedInDialog := currentThemeName)
    case ThemeSelectionChangedInDialog(t) => s.(themeSelectedInDialog := t)
    case ColorThemeSelectionChangedInDialog(c) => s.(colorThemeSelectedInDialog := c)
    case Save => s.(isConfigDialogOpen := false)
  }

  /** Each action changes only the fields it is about. */
  lemma ActionsTouchOnlyTheirFields(s: HomeState, a: HomeAction, name: string)
    ensures var t := NextState(s, a, name);
      t.navItems == s.navItems
      && (t.selectedItem != s.selectedItem ==> a.SelectNavItem?)
      && (t.isConfigDialogOpen != s.isConfigDialogOpen ==> a.CloseConfigDialog? || a.OpenConfigDialog? || a.Save?)
      && (t.themeSelectedInDialog != s.themeSelectedInDialog ==> a.OpenConfigDialog? || a.ThemeSelectionChangedInDialog?)
      && (t.colorThemeSelectedInDialog != s.colorThemeSelectedInDialog ==> a.ColorThemeSelectionChangedInDialog?)
  {
  }

  /** Opening the dialog shows it with the current theme selected; closing or saving hides it. */
  lemma DialogOpensAndCloses(s: HomeState, name: string)
    ensures NextState(s, OpenConfigDialog, name).isConfigDialogOpen
    ensures NextState(s, OpenConfigDialog, name).themeSelectedInDialog == name
    ensures !NextState(s, CloseConfigDialog, name).isConfigDialogOpen
    ensures !NextState(s, Save, name).isConfigDialogOpen
  {
  }

  /** `HomeViewModel` over the application's main view model. */
  class HomeViewModel {
    const main: MainViewModel
    var state: HomeState

    constructor (main: MainViewModel)
      ensures this.main == main && state == HomeState()
    {
      this.main := main;
      state := HomeState();
    }

    /** `onAction`: only Save reaches the main model, applying the theme, then the colour, selected in the dialog. */
    method OnAction(action: HomeAction)
      modifies this, main, main.preferences
      ensures state == NextState(old(state), action, old(main.GetCurrentThemeName()))
      ensures !action.Save? ==>
        main.isDarkTheme == old(main.isDarkTheme) && main.themeColor == old(main.themeColor)
        && main.preferences.prefs == old(main.preferences.prefs)
      ensures action.Save? ==>
        main.isDarkTheme == (old(state.themeSelectedInDialog) == Dark)
        && main.themeColor == GetColor(old(state.colorThemeSelectedInDialog)).Color()
        && main.preferences.prefs == old(main.preferences.prefs)[ThemeKey := old(state.themeSelectedInDialog)]
             [ThemeColorKey := old(state.colorThemeSelectedInDialog)]
    {
      match action
      case SelectNavItem(item) =>
        state := state.(selectedItem := item);
      case CloseConfigDialog =>
        state := state.(isConfigDialogOpen := false);
      case OpenConfigDialog =>
        state := state.(isConfigDialogOpen := true, themeSelectedInDialog := main.GetCurrentThemeName());
      case Save =>
        main.ChangeTheme(state.themeSelectedInDialog);
        main.ChangeThemeColor(state.colorThemeSelectedInDialog);
        state := state.(isConfigDialogOpen := false);
      case ThemeSelectionChangedInDialog(t) =>
        state := state.(themeSelectedInDialog := t);
      case ColorThemeSelectionChangedInDialog(c) =>
        state := state.(colorThemeSelectedInDialog := c);
    }
  }

  /** Opening the dialog and closing it again leaves the theme and the saved preferences as they were. */
  method OpenThenClose(home: HomeViewModel)
    modifies home, home.main, home.main.preferences
    ensures !home.state.isConfigDialogOpen
    ensures home.main.isDarkTheme == old(home.main.isDarkTheme) && home.main.themeColor == old(home.main.themeColor)
    ensures home.main.preferences.prefs == old(home.main.preferences.prefs)
  {
    home.OnAction(OpenConfigDialog);
    home.OnAction(CloseConfigDialog);
  }

  /** Opening the dialog and saving at once keeps the dark flag: the dialog starts at the current theme. */
  method OpenThenSave(home: HomeViewModel)
    modifies home, home.main, home.main.preferences
    ensures !home.state.isConfigDialogOpen
    ensures home.main.isDarkTheme == old(home.main.isDarkTheme)
    ensures home.main.themeColor == GetColor(old(home.state.colorThemeSelectedInDialog)).Color()
  {
    home.OnAction(OpenConfigDialog);
    home.OnAction(Save);
  }
}
