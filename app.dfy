/**
 * The state the `App` component (src/App.jsx) owns and hands down: the
 * active section for the navbar, the theme, and whether the loader still
 * covers the page.
 */
module AppState {
  import ActiveSection
  import Theme

  class App {
    var activeSection: string
    var theme: string
    var isLoading: bool

    /** The initial `useState` values; the scroll handler is only registered, not run. */
    constructor ()
      ensures activeSection == "home" && theme == Theme.InitialTheme && isLoading
    {
      activeSection, theme, isLoading := "home", Theme.InitialTheme, true;
    }

    /** A scroll event: the handler's scan result replaces the active section. */
    method OnScroll(doc: ActiveSection.Document, scrollY: int)
      modifies this
      ensures activeSection == ActiveSection.Scan(ActiveSection.Sections, doc, scrollY)
      ensures activeSection == "" || activeSection in ActiveSection.Sections
      ensures theme == old(theme) && isLoading == old(isLoading)
    {
      var current := ActiveSection.HandleScroll(doc, scrollY);
      activeSection := current;
    }

    /** The theme button's `toggleTheme`. */
    method ToggleTheme()
      modifies this
      ensures theme == Theme.Toggle(old(theme))
      ensures activeSection == old(activeSection) && isLoading == old(isLoading)
    {
      theme := Theme.Toggle(theme);
    }

    /** The `onComplete` the loader is given: the page replaces the loader. */
    method OnLoaderComplete()
      modifies this
      ensures !isLoading
      ensures activeSection == old(activeSection) && theme == old(theme)
    {
      isLoading := false;
    }
  }
}
