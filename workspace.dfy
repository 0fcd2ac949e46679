/** The Google Workspace panel (frontend/src/components/GoogleWorkspace.jsx):
    the theme stored in the browser's local storage and cycled by a button,
    the theme handed to the tabs, and the tab shown for the selected id.
    Local storage is a map field; the colour-scheme media query enters as a
    parameter. */
module Workspace {
  import opened Common

  const THEME_KEY := "googleWorkspaceTheme"

  /** The tab components the panel can show. */
  datatype TabView = GmailView | DriveView | DocsView | SheetsView | SlidesView | CalendarView

  /** The theme read at start-up: the stored value if truthy, else 'light'
      (GoogleWorkspace.jsx:15-17). */
  function InitialTheme(storage: map<string, string>): (t: string)
    ensures t != ""
  {
    if THEME_KEY in storage && storage[THEME_KEY] != "" then storage[THEME_KEY] else "light"
  }

  /** A persisted theme is read back unchanged. */
  lemma PersistedThemeRestored(storage: map<string, string>, theme: string)
    requires theme != ""
    ensures InitialTheme(storage[THEME_KEY := theme]) == theme
  {
  }

  /** cycleTheme's transition (GoogleWorkspace.jsx:23-29). */
  function NextTheme(current: string): string {
    if current == "light" then "dark"
    else if current == "dark" then "auto"
    else "light"
  }

  /** light, dark and auto form a cycle of three; any other stored value
      joins it at 'light' after one click. */
  lemma ThemeCycle(current: string)
    ensures NextTheme(current) in {"light", "dark", "auto"}
    ensures current in {"light", "dark", "auto"} ==>
      NextTheme(NextTheme(NextTheme(current))) == current && NextTheme(current) != current &&
      NextTheme(NextTheme(current)) != current
    ensures current !in {"light", "dark", "auto"} ==> NextTheme(current) == "light"
  {
  }

  /** getEffectiveTheme (GoogleWorkspace.jsx:31-36). */
  function EffectiveTheme(theme: string, prefersDark: bool): string {
    if theme == "auto" then (if prefersDark then "dark" else "light") else theme
  }

  /** The tabs never receive 'auto': it resolves to the system preference,
      and every other theme passes through. */
  lemma EffectiveNeverAuto(theme: string, prefersDark: bool)
    ensures EffectiveTheme(theme, prefersDark) != "auto"
    ensures theme == "auto" ==> EffectiveTheme(theme, prefersDark) == (if prefersDark then "dark" else "light")
    ensures theme != "auto" ==> EffectiveTheme(theme, prefersDark) == theme
  {
  }

  function TabId(v: TabView): string {
    match v
    case GmailView => "gmail"
    case DriveView => "drive"
    case DocsView => "docs"
    case SheetsView => "sheets"
    case SlidesView => "slides"
    case CalendarView => "calendar"
  }

  /** renderContent's switch (GoogleWorkspace.jsx:54-72): the tab for a
      known id with the effective theme, nothing otherwise. */
  function RenderContent(activeTab: string, theme: string, prefersDark: bool): Option<(TabView, string)> {
    var props := EffectiveTheme(theme, prefersDark);
    if activeTab == "gmail" then Some((GmailView, props))
    else if activeTab == "drive" then Some((DriveView, props))
    else if activeTab == "docs" then Some((DocsView, props))
    else if activeTab == "sheets" then Some((SheetsView, props))
    else if activeTab == "slides" then Some((SlidesView, props))
    else if activeTab == "calendar" then Some((CalendarView, props))
    else None
  }

  /** Each known id shows exactly its own tab, an unknown id shows nothing,
      and whatever is shown gets a theme that is not 'auto'. */
  lemma RenderDispatch(activeTab: string, theme: string, prefersDark: bool)
    ensures forall v :: RenderContent(TabId(v), theme, prefersDark) == Some((v, EffectiveTheme(theme, prefersDark)))
    ensures (forall v :: activeTab != TabId(v)) ==> RenderContent(activeTab, theme, prefersDark).None?
    ensures RenderContent(activeTab, theme, prefersDark).Some? ==>
      (TabId(RenderContent(activeTab, theme, prefersDark).value.0) == activeTab &&
       RenderContent(activeTab, theme, prefersDark).value.1 != "auto")
  {
    assert forall v: TabView :: TabId(v) in {"gmail", "drive", "docs", "sheets", "slides", "calendar"};
  }

  /** The panel's theme state and the local storage it persists to. */
  class Panel {
    var theme: string
    var activeTab: string
    var storage: map<string, string>

    /** The stored theme always equals the current one (the effect of
        GoogleWorkspace.jsx:19-21 has run). */
    ghost predicate Valid() reads this {
      theme != "" && THEME_KEY in storage && storage[THEME_KEY] == theme
    }

    /** Mounting: the theme comes from storage, and the effect writes it back. */
    constructor (storage: map<string, string>)
      ensures Valid()
      ensures theme == InitialTheme(storage) && activeTab == "gmail"
      ensures this.storage == storage[THEME_KEY := InitialTheme(storage)]
    {
      var t := InitialTheme(storage);
      theme := t;
      activeTab := "gmail";
      this.storage := storage[THEME_KEY := t];
    }

    /** The theme button: the next theme, persisted at once. */
    method CycleTheme()
      requires Valid()
      modifies this`theme, this`storage
      ensures Valid()
      ensures theme == NextTheme(old(theme))
      ensures storage == old(storage)[THEME_KEY := theme]
    {
      theme := NextTheme(theme);
      storage := storage[THEME_KEY := theme];
    }

    method SelectTab(id: string)
      modifies this`activeTab
      ensures activeTab == id
    {
      activeTab := id;
    }
  }

  /** Scenario: three clicks from a fresh panel come back to 'light', and a
      panel reopened on the same storage shows the theme last chosen. */
  method ThreeClicksAndReopen() returns (afterThree: string, reopened: string)
    ensures afterThree == "light" && reopened == "dark"
  {
    var p := new Panel(map[]);
    p.CycleTheme();
    p.CycleTheme();
    p.CycleTheme();
    afterThree := p.theme;
    p.CycleTheme();
    var q := new Panel(p.storage);
    reopened := q.theme;
  }
}
