/** The theme provider: the four theme definitions, applying a theme to the
    root element's style and the body's classes, restoring the saved theme,
    and persisting a newly chosen one. */
module ThemeContext {
  import opened Wrappers
  import Browser

  /** The six colours of a theme. */
  datatype Palette = Palette(
    primary: string, secondary: string, background: string,
    surface: string, text: string, border: string)

  datatype ThemeDefinition = ThemeDefinition(
    id: string, name: string, description: string, colors: Palette)

  const LightTheme: ThemeDefinition :=
    ThemeDefinition("light", "Light & Bright", "Clean and fresh for daily writing",
      Palette("#3B82F6", "#EC4899", "#fdfdfdff", "#F8FAFC", "#1E293B", "#E5E7EB"))

  const DarkTheme: ThemeDefinition :=
    ThemeDefinition("dark", "Dark & Cozy", "Easy on the eyes for evening journaling",
      Palette("#60A5FA", "#F472B6", "#0F172A", "#1E293B", "#F1F5F9", "#334155"))

  const VintageTheme: ThemeDefinition :=
    ThemeDefinition("vintage", "Vintage Paper", "Classic notebook feel",
      Palette("#b45309", "#a16207", "#fef3e8", "#fcd8b6", "#4e2803", "#d97706"))

  const MinimalTheme: ThemeDefinition :=
    ThemeDefinition("minimal", "Minimal Focus", "Distraction-free writing",
      Palette("#6b7280", "#a3a3a3", "#f8fafc", "#f3f4f6", "#374151", "#d1d5db"))

  /** The `themes` list, in its declared order. */
  const Themes: seq<ThemeDefinition> := [LightTheme, DarkTheme, VintageTheme, MinimalTheme]

  /** The four identifiers; no two themes share one. */
  const ThemeIds: set<string> := {"light", "dark", "vintage", "minimal"}

  /** `themes.find(t => t.id === id)` over any list of definitions. */
  function FindIn(defs: seq<ThemeDefinition>, id: string): (r: Option<ThemeDefinition>)
    ensures r.Some? ==> r.value in defs && r.value.id == id
    ensures r.None? <==> forall k :: 0 <= k < |defs| ==> defs[k].id != id
    ensures r.Some? ==>
      exists k :: 0 <= k < |defs| && defs[k] == r.value && forall j :: 0 <= j < k ==> defs[j].id != id
  {
    if |defs| == 0 then None
    else if defs[0].id == id then
      assert defs[0] == defs[0];
      Some(defs[0])
    else
      var rest := FindIn(defs[1..], id);
      if rest.Some? then
        var k :| 0 <= k < |defs[1..]| && defs[1..][k] == rest.value &&
          forall j :: 0 <= j < k ==> defs[1..][j].id != id;
        assert defs[k + 1] == rest.value;
        rest
      else rest
  }

  /** The theme an identifier names, if any. */
  function FindTheme(id: string): (r: Option<ThemeDefinition>)
    ensures r.Some? ==> r.value in Themes && r.value.id == id
  {
    FindIn(Themes, id)
  }

  /** Exactly the four identifiers name a theme. */
  lemma FindThemeKnown(id: string)
    ensures FindTheme(id).Some? <==> id in ThemeIds
  {
    assert Themes[0].id == "light" && Themes[1].id == "dark";
    assert Themes[2].id == "vintage" && Themes[3].id == "minimal";
  }

  // ---------------------------------------------------------------------
  // Applying a theme

  const PrimaryVar: string := "--color-primary"
  const SecondaryVar: string := "--color-secondary"
  const BackgroundVar: string := "--color-background"
  const SurfaceVar: string := "--color-surface"
  const TextVar: string := "--color-text"
  const BorderVar: string := "--color-border"
  const GradientVar: string := "--color-background-gradient"

  /** The seven properties a theme sets or removes. */
  const ThemeVars: set<string> :=
    {PrimaryVar, SecondaryVar, BackgroundVar, SurfaceVar, TextVar, BorderVar, GradientVar}

  /** The background gradient: only the light and the dark theme have one. */
  function GradientFor(id: string): (r: Option<string>)
    ensures r.Some? <==> id == "light" || id == "dark"
  {
    if id == "light" then Some("linear-gradient(135deg, #eef2ff, #fef3c7)")
    else if id == "dark" then Some("linear-gradient(135deg, #0f172a, #1e293b)")
    else None
  }

  /** The body classes `applyTheme` first removes. */
  const ThemeClasses: set<string> := {"theme-light", "theme-dark", "theme-vintage", "theme-minimal"}

  /** The style after the six colour properties and the gradient of `t`. */
  function ThemedStyle(style: map<string, string>, t: ThemeDefinition): map<string, string> {
    var s := style[PrimaryVar := t.colors.primary][SecondaryVar := t.colors.secondary]
      [BackgroundVar := t.colors.background][SurfaceVar := t.colors.surface]
      [TextVar := t.colors.text][BorderVar := t.colors.border];
    match GradientFor(t.id)
    case Some(g) => s[GradientVar := g]
    case None => s - {GradientVar}
  }

  /** The seven property names are distinct. */
  lemma ThemeVarsDistinct()
    ensures PrimaryVar != SecondaryVar && PrimaryVar != BackgroundVar && PrimaryVar != SurfaceVar
    ensures PrimaryVar != TextVar && PrimaryVar != BorderVar && PrimaryVar != GradientVar
    ensures SecondaryVar != BackgroundVar && SecondaryVar != SurfaceVar && SecondaryVar != TextVar
    ensures SecondaryVar != BorderVar && SecondaryVar != GradientVar
    ensures BackgroundVar != SurfaceVar && BackgroundVar != TextVar && BackgroundVar != BorderVar
    ensures BackgroundVar != GradientVar
    ensures SurfaceVar != TextVar && SurfaceVar != BorderVar && SurfaceVar != GradientVar
    ensures TextVar != BorderVar && TextVar != GradientVar && BorderVar != GradientVar
  {
    assert PrimaryVar[8] == 'p' && SecondaryVar[8] == 's' && BackgroundVar[8] == 'b';
    assert SurfaceVar[8] == 's' && TextVar[8] == 't' && BorderVar[8] == 'b' && GradientVar[8] == 'b';
    assert SecondaryVar[9] == 'e' && SurfaceVar[9] == 'u';
    assert BackgroundVar[9] == 'a' && BorderVar[9] == 'o' && GradientVar[9] == 'a';
    assert |BackgroundVar| != |GradientVar|;
  }

  /** A themed style holds the theme's six colours, a gradient exactly for
      light and dark, and every other property as it was. */
  lemma ThemedStyleFacts(style: map<string, string>, t: ThemeDefinition)
    ensures var r := ThemedStyle(style, t);
      && r[PrimaryVar] == t.colors.primary && r[SecondaryVar] == t.colors.secondary
      && r[BackgroundVar] == t.colors.background && r[SurfaceVar] == t.colors.surface
      && r[TextVar] == t.colors.text && r[BorderVar] == t.colors.border
      && (GradientVar in r <==> t.id == "light" || t.id == "dark")
      && (forall name :: name !in ThemeVars ==>
            (name in r <==> name in style) && (name in r ==> r[name] == style[name]))
  {
    ThemeVarsDistinct();
  }

  /** The body classes after applying theme `id`. */
  function ThemedClasses(classes: set<string>, id: string): set<string> {
    classes - ThemeClasses + {"theme-" + id}
  }

  /** After a known theme is applied the body has exactly one of the theme
      classes, the one of that theme, and every other class as before. */
  lemma ThemedClassesFacts(classes: set<string>, id: string)
    requires id in ThemeIds
    ensures ThemedClasses(classes, id) * ThemeClasses == {"theme-" + id}
    ensures ThemedClasses(classes, id) - ThemeClasses == classes - ThemeClasses
  {
    if id == "light" {
      assert "theme-" + id == "theme-light";
    } else if id == "dark" {
      assert "theme-" + id == "theme-dark";
    } else if id == "vintage" {
      assert "theme-" + id == "theme-vintage";
    } else {
      assert "theme-" + id == "theme-minimal";
    }
  }

  // ---------------------------------------------------------------------
  // The context value and its hook

  datatype ThemeContextValue = ThemeContextValue(theme: string, themes: seq<ThemeDefinition>)

  /** `useTheme`: fails outside a provider. */
  function UseTheme(context: Option<ThemeContextValue>): (r: Result<ThemeContextValue, string>)
    ensures r.Ok? <==> context.Some?
    ensures r.Ok? ==> r.value == context.value
    ensures r.Err? ==> r.error == "useTheme must be used within a ThemeProvider"
  {
    match context
    case Some(v) => Ok(v)
    case None => Err("useTheme must be used within a ThemeProvider")
  }

  /** The storage key of the chosen theme. */
  const StorageKey: string := "diary-theme"

  /** `saved && themes.some(t => t.id === saved)`: a stored, non-empty
      identifier of one of the themes. */
  predicate RestorableTheme(saved: Option<string>) {
    saved.Some? && saved.value != "" && saved.value in ThemeIds
  }

  /** The theme the provider starts with: a saved, known theme, otherwise
      the current one. */
  function InitialTheme(current: string, items: map<string, string>): (r: string)
    ensures StorageKey in items && items[StorageKey] in ThemeIds ==> r == items[StorageKey]
    ensures !(StorageKey in items && items[StorageKey] in ThemeIds) ==> r == current
    ensures r == current || FindTheme(r).Some?
  {
    var saved := if StorageKey in items then Some(items[StorageKey]) else None;
    if RestorableTheme(saved) then
      FindThemeKnown(saved.value);
      saved.value
    else current
  }

  /** A known theme that was set is the one restored on the next start,
      whatever the default. */
  lemma PersistedThemeRestored(items: map<string, string>, id: string, default: string)
    requires id in ThemeIds
    ensures InitialTheme(default, items[StorageKey := id]) == id
  {
  }

  class ThemeProvider {
    var theme: string
    const doc: Browser.Document
    const storage: Browser.LocalStorage

    constructor (doc: Browser.Document, storage: Browser.LocalStorage)
      ensures theme == "light" && this.doc == doc && this.storage == storage
    {
      theme := "light";
      this.doc := doc;
      this.storage := storage;
    }

    /** The document is `style0` and `classes0` with theme `id` applied:
        unchanged when `id` names no theme. */
    predicate AppliedFrom(style0: map<string, string>, classes0: set<string>, id: string)
      reads doc
    {
      match FindTheme(id)
      case None => doc.style == style0 && doc.bodyClasses == classes0
      case Some(t) => doc.style == ThemedStyle(style0, t) && doc.bodyClasses == ThemedClasses(classes0, id)
    }

    /** `applyTheme(id)`: an identifier that names no theme changes nothing;
        otherwise the colours, the gradient and the body class of that
        theme. */
    method ApplyTheme(id: string)
      modifies doc
      ensures AppliedFrom(old(doc.style), old(doc.bodyClasses), id)
    {
      var selected := FindTheme(id);
      if selected.None? {
        return;
      }
      var c := selected.value.colors;
      doc.SetProperty(PrimaryVar, c.primary);
      doc.SetProperty(SecondaryVar, c.secondary);
      doc.SetProperty(BackgroundVar, c.background);
      doc.SetProperty(SurfaceVar, c.surface);
      doc.SetProperty(TextVar, c.text);
      doc.SetProperty(BorderVar, c.border);
      if id == "light" {
        doc.SetProperty(GradientVar, "linear-gradient(135deg, #eef2ff, #fef3c7)");
      } else if id == "dark" {
        doc.SetProperty(GradientVar, "linear-gradient(135deg, #0f172a, #1e293b)");
      } else {
        doc.RemoveProperty(GradientVar);
      }
      doc.RemoveClasses(ThemeClasses);
      doc.AddClass("theme-" + id);
    }

    /** The mount effect: restore the saved theme when it is known, and
        apply whichever theme results. Storage is only read. */
    method Init()
      modifies this, doc
      ensures theme == InitialTheme(old(theme), storage.items)
      ensures storage.items == old(storage.items)
      ensures AppliedFrom(old(doc.style), old(doc.bodyClasses), theme)
    {
      var saved := storage.GetItem(StorageKey);
      var next := if RestorableTheme(saved) then saved.value else theme;
      theme := next;
      ApplyTheme(next);
    }

    /** `setTheme`: records the choice, persists it, and applies it. An
        unknown identifier is recorded and persisted but changes no style. */
    method SetTheme(newTheme: string)
      modifies this, doc, storage
      ensures theme == newTheme
      ensures storage.items == old(storage.items)[StorageKey := newTheme]
      ensures AppliedFrom(old(doc.style), old(doc.bodyClasses), newTheme)
    {
      theme := newTheme;
      storage.SetItem(StorageKey, newTheme);
      ApplyTheme(newTheme);
    }
  }
}
