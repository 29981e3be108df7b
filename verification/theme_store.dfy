/** The theme store: light or dark, persisted under the "theme" key, and
    mirrored by the `dark` class on the document root. */
module ThemeStore {
  import opened Wrappers
  import opened Storage

  /** The store's theme, whether the root element has the `dark` class,
      and the storage the theme is written to. */
  datatype ThemeWorld = ThemeWorld(theme: Theme, darkClass: bool, store: LocalStore)

  /** The store starts light; the document and storage are as found. */
  function Initial(darkClass: bool, store: LocalStore): ThemeWorld {
    ThemeWorld(Light, darkClass, store)
  }

  /** State, storage and document agree on the theme. */
  predicate Synced(w: ThemeWorld) {
    w.store.theme == Some(w.theme) && (w.darkClass <==> w.theme == Dark)
  }

  /** `setTheme`: persist, toggle the class, adopt. */
  function SetTheme(w: ThemeWorld, theme: Theme): (r: ThemeWorld)
    ensures r.theme == theme && Synced(r)
    ensures r.store.(theme := w.store.theme) == w.store
  {
    ThemeWorld(theme, theme == Dark, w.store.(theme := Some(theme)))
  }

  /** `toggleTheme`: light becomes dark and dark becomes light. */
  function ToggleTheme(w: ThemeWorld): (r: ThemeWorld)
    ensures r.theme != w.theme && Synced(r)
    ensures r.store.(theme := w.store.theme) == w.store
  {
    var next := if w.theme == Light then Dark else Light;
    ThemeWorld(next, next == Dark, w.store.(theme := Some(next)))
  }

  /** Toggling twice returns to the starting theme, persisted and shown. */
  lemma ToggleTwice(w: ThemeWorld)
    ensures ToggleTheme(ToggleTheme(w)) == SetTheme(w, w.theme)
    ensures ToggleTheme(ToggleTheme(w)).theme == w.theme
  {
  }

  /** `storage.getTheme()`: the stored theme, else the system preference. */
  function StoredTheme(store: LocalStore, prefersDark: bool): (r: Theme)
    ensures store.theme.Some? ==> r == store.theme.value
    ensures store.theme.None? ==> (r == Dark <==> prefersDark)
  {
    if store.theme.Some? then store.theme.value else if prefersDark then Dark else Light
  }

  /** `hydrate`: adopt the stored theme (or, with none stored, the system
      preference, which is not written back) and set the class to match. */
  function Hydrate(w: ThemeWorld, prefersDark: bool): (r: ThemeWorld)
    ensures r.store == w.store
    ensures r.darkClass <==> r.theme == Dark
    ensures w.store.theme.Some? ==> r.theme == w.store.theme.value && Synced(r)
    ensures w.store.theme.None? ==> (r.theme == Dark <==> prefersDark)
  {
    var theme := StoredTheme(w.store, prefersDark);
    ThemeWorld(theme, theme == Dark, w.store)
  }

  /** After any change, a reload shows the theme that was chosen. */
  lemma HydrateRestoresChoice(w: ThemeWorld, theme: Theme, prefersDark: bool, reloaded: ThemeWorld)
    requires reloaded.store == SetTheme(w, theme).store
    ensures Hydrate(reloaded, prefersDark).theme == theme
  {
  }
}
