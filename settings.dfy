/** The settings page: the data export to a paginated PDF, the theme
    cards (only light and dark can be chosen), and the account deletion
    that is not offered. */
module Settings {
  import opened Wrappers
  import opened Toasts
  import ThemeContext

  // ---------------------------------------------------------------------
  // The PDF document

  /** One `doc.text(lines, 10, y)` call: the page it lands on (counted from
      zero), its vertical position and its lines. */
  datatype Placed = Placed(page: nat, y: int, lines: seq<string>)

  /** The part of a `jsPDF` document the export uses: the pages so far, the
      text placed on them, and the file name it was saved under. */
  class PdfDocument {
    var pageCount: nat
    var items: seq<Placed>
    var savedAs: Option<string>

    constructor ()
      ensures pageCount == 1 && items == [] && savedAs == None
    {
      pageCount := 1;
      items := [];
      savedAs := None;
    }

    /** `text(lines, x, y)` on the current (last) page. */
    method Text(lines: seq<string>, y: int)
      requires pageCount >= 1
      modifies this
      ensures pageCount == old(pageCount) && savedAs == old(savedAs)
      ensures items == old(items) + [Placed(pageCount - 1, y, lines)]
    {
      items := items + [Placed(pageCount - 1, y, lines)];
    }

    /** `addPage()`: later text goes on the new page. */
    method AddPage()
      modifies this
      ensures pageCount == old(pageCount) + 1
      ensures items == old(items) && savedAs == old(savedAs)
    {
      pageCount := pageCount + 1;
    }

    /** `save(name)`. */
    method Save(name: string)
      modifies this
      ensures savedAs == Some(name)
      ensures pageCount == old(pageCount) && items == old(items)
    {
      savedAs := Some(name);
    }
  }

  // ---------------------------------------------------------------------
  // Layout

  /** The height of one line of entry text. */
  const LineHeight: int := 7
  /** The space left after each entry. */
  const EntryGap: int := 6
  /** The lowest position an entry may reach before a new page is begun. */
  const PageBottom: int := 280
  /** Where text starts on a new page. */
  const PageTop: int := 20

  /** `value || "N/A"`: a missing or empty value shows as "N/A". */
  function OrNA(value: Option<string>): (r: string)
    ensures r != ""
    ensures value.Some? && value.value != "" ==> r == value.value
  {
    if value.Some? && value.value != "" then value.value else "N/A"
  }

  /** The title, the profile, the theme and the reminder setting. */
  function ProfileItems(displayName: Option<string>, email: Option<string>, theme: string,
                        reminderEnabled: bool): seq<Placed> {
    [ Placed(0, 20, ["SoulScript User Data Export"]),
      Placed(0, 30, ["Display Name: " + OrNA(displayName)]),
      Placed(0, 38, ["Email: " + OrNA(email)]),
      Placed(0, 46, ["Selected Theme: " + theme]),
      Placed(0, 54, ["Daily Reminders: " + if reminderEnabled then "Enabled" else "Disabled"]) ]
  }

  /** The reminder time, only when reminders are on, and the entries
      heading. */
  function ReminderItems(reminderEnabled: bool, reminderTime: string): seq<Placed> {
    if reminderEnabled then [Placed(0, 62, ["Reminder Time: " + reminderTime]), Placed(0, 74, ["Diary Entries:"])]
    else [Placed(0, 66, ["Diary Entries:"])]
  }

  /** The text above the entries, all on the first page: the title, the
      profile, the theme, the reminder setting (and its time, only when
      reminders are on), and the entries heading. */
  function HeaderItems(displayName: Option<string>, email: Option<string>, theme: string,
                       reminderEnabled: bool, reminderTime: string): (r: seq<Placed>)
    ensures |r| == if reminderEnabled then 7 else 6
    ensures forall k :: 0 <= k < |r| ==> r[k].page == 0 && |r[k].lines| == 1
  {
    ProfileItems(displayName, email, theme, reminderEnabled) + ReminderItems(reminderEnabled, reminderTime)
  }

  /** Where the first entry (or the "no entries" line) is placed. */
  function EntriesStart(reminderEnabled: bool): (y: int)
    ensures y == if reminderEnabled then 84 else 76
  {
    if reminderEnabled then 84 else 76
  }

  /** The cursor and page after laying out some entries, and where each was
      placed. */
  datatype Layout = Layout(placed: seq<Placed>, y: int, page: nat)

  /** Whether a block of `lines` lines starting at `y` runs past the page
      bottom, so that a new page is begun first. */
  predicate Breaks(y: int, lines: nat) {
    y + lines * LineHeight > PageBottom
  }

  /** The pagination loop over the entries' split text, starting at `y` on
      page `page`: an entry that would run past the bottom goes to the top
      of a new page; after each entry the cursor moves past its lines and a
      gap. */
  function Paginate(y: int, page: nat, blocks: seq<seq<string>>): (r: Layout)
    ensures |r.placed| == |blocks|
    decreases |blocks|
  {
    if |blocks| == 0 then Layout([], y, page)
    else
      var prev := Paginate(y, page, blocks[..|blocks| - 1]);
      var b := blocks[|blocks| - 1];
      var brk := Breaks(prev.y, |b|);
      var top := if brk then PageTop else prev.y;
      var p := if brk then prev.page + 1 else prev.page;
      Layout(prev.placed + [Placed(p, top, b)], top + |b| * LineHeight + EntryGap, p)
  }

  /** Laying out one more entry extends the layout of the others. */
  lemma PaginatePrefix(y: int, page: nat, blocks: seq<seq<string>>, i: nat)
    requires i < |blocks|
    ensures Paginate(y, page, blocks[..i + 1]).placed ==
      Paginate(y, page, blocks[..i]).placed + [Paginate(y, page, blocks[..i + 1]).placed[i]]
  {
    assert blocks[..i + 1][..i] == blocks[..i];
  }

  /** Every entry is placed whole and in order, from the cursor onwards. */
  lemma {:induction false} PaginateKeepsEntries(y: int, page: nat, blocks: seq<seq<string>>)
    ensures forall i :: 0 <= i < |blocks| ==> Paginate(y, page, blocks).placed[i].lines == blocks[i]
    ensures page <= Paginate(y, page, blocks).page
    decreases |blocks|
  {
    if |blocks| > 0 {
      var init := blocks[..|blocks| - 1];
      PaginateKeepsEntries(y, page, init);
      var r := Paginate(y, page, blocks);
      forall i | 0 <= i < |blocks| ensures r.placed[i].lines == blocks[i] {
        if i < |init| {
          assert r.placed[i] == Paginate(y, page, init).placed[i];
        }
      }
    }
  }

  /** Below the top margin, every entry either fits above the page bottom
      or starts at the top of a page (an entry taller than a page cannot fit
      anywhere), and the cursor stays below the top margin. */
  lemma {:induction false} PaginateFits(y: int, page: nat, blocks: seq<seq<string>>)
    requires y >= PageTop
    ensures var r := Paginate(y, page, blocks);
      && r.y >= PageTop
      && forall i :: 0 <= i < |r.placed| ==>
           r.placed[i].y >= PageTop &&
           (r.placed[i].y + |r.placed[i].lines| * LineHeight <= PageBottom || r.placed[i].y == PageTop)
    decreases |blocks|
  {
    if |blocks| > 0 {
      var init := blocks[..|blocks| - 1];
      PaginateFits(y, page, init);
      var prev := Paginate(y, page, init);
      var r := Paginate(y, page, blocks);
      forall i | 0 <= i < |r.placed|
        ensures r.placed[i].y >= PageTop
        ensures r.placed[i].y + |r.placed[i].lines| * LineHeight <= PageBottom || r.placed[i].y == PageTop
      {
        if i < |init| {
          assert r.placed[i] == prev.placed[i];
        }
      }
    }
  }

  /** Entries go on the same page as the one before, right after its lines
      and the gap, or on the next page at its top: pages are never skipped. */
  lemma {:induction false} PaginatePages(y: int, page: nat, blocks: seq<seq<string>>)
    ensures var p := Paginate(y, page, blocks).placed;
      forall i :: 0 < i < |p| ==>
        || (p[i].page == p[i - 1].page && p[i].y == p[i - 1].y + |p[i - 1].lines| * LineHeight + EntryGap)
        || (p[i].page == p[i - 1].page + 1 && p[i].y == PageTop)
    ensures |blocks| > 0 ==>
      var r := Paginate(y, page, blocks);
      && r.page == r.placed[|blocks| - 1].page
      && r.y == r.placed[|blocks| - 1].y + |blocks[|blocks| - 1]| * LineHeight + EntryGap
    decreases |blocks|
  {
    if |blocks| > 0 {
      var init := blocks[..|blocks| - 1];
      PaginatePages(y, page, init);
      PaginateKeepsEntries(y, page, init);
      var prev := Paginate(y, page, init);
      var p := Paginate(y, page, blocks).placed;
      forall i | 0 < i < |p|
        ensures
          || (p[i].page == p[i - 1].page && p[i].y == p[i - 1].y + |p[i - 1].lines| * LineHeight + EntryGap)
          || (p[i].page == p[i - 1].page + 1 && p[i].y == PageTop)
      {
        assert p[i - 1] == prev.placed[i - 1];
        if i < |init| {
          assert p[i] == prev.placed[i];
        }
      }
    }
  }

  /** The first part of `handleExportData`: the header lines at their
      positions on the first page; the cursor then stands where the entries
      begin. */
  method WriteHeader(doc: PdfDocument, displayName: Option<string>, email: Option<string>,
                     theme: string, reminderEnabled: bool, reminderTime: string)
    returns (yPos: int)
    requires doc.pageCount == 1
    modifies doc
    ensures doc.items == old(doc.items) + HeaderItems(displayName, email, theme, reminderEnabled, reminderTime)
    ensures yPos == EntriesStart(reminderEnabled)
    ensures doc.pageCount == 1 && doc.savedAs == old(doc.savedAs)
  {
    WriteProfile(doc, displayName, email, theme, reminderEnabled);
    yPos := WriteReminder(doc, reminderEnabled, reminderTime);
  }

  /** The first five lines of the header, from y = 20 down. */
  method WriteProfile(doc: PdfDocument, displayName: Option<string>, email: Option<string>,
                      theme: string, reminderEnabled: bool)
    requires doc.pageCount == 1
    modifies doc
    ensures doc.items == old(doc.items) + ProfileItems(displayName, email, theme, reminderEnabled)
    ensures doc.pageCount == 1 && doc.savedAs == old(doc.savedAs)
  {
    var yPos := 20;
    doc.Text(["SoulScript User Data Export"], yPos);
    yPos := yPos + 10;
    doc.Text(["Display Name: " + OrNA(displayName)], yPos);
    yPos := yPos + 8;
    doc.Text(["Email: " + OrNA(email)], yPos);
    yPos := yPos + 8;
    doc.Text(["Selected Theme: " + theme], yPos);
    yPos := yPos + 8;
    doc.Text(["Daily Reminders: " + if reminderEnabled then "Enabled" else "Disabled"], yPos);
  }

  /** The rest of the header, from y = 62 down: the reminder time when
      reminders are on, four units of space otherwise, then the entries
      heading; the result is where the entries start. */
  method WriteReminder(doc: PdfDocument, reminderEnabled: bool, reminderTime: string)
    returns (yPos: int)
    requires doc.pageCount == 1
    modifies doc
    ensures doc.items == old(doc.items) + ReminderItems(reminderEnabled, reminderTime)
    ensures yPos == EntriesStart(reminderEnabled)
    ensures doc.pageCount == 1 && doc.savedAs == old(doc.savedAs)
  {
    yPos := 62;
    if reminderEnabled {
      doc.Text(["Reminder Time: " + reminderTime], yPos);
      yPos := yPos + 12;
    } else {
      yPos := yPos + 4;
    }
    doc.Text(["Diary Entries:"], yPos);
    yPos := yPos + 10;
  }

  /** What the export writes below the header: the "no entries" line at
      the cursor, or the paginated entries. */
  function BodyItems(reminderEnabled: bool, entries: seq<seq<string>>): seq<Placed> {
    if entries == [] then [Placed(0, EntriesStart(reminderEnabled), ["No diary entries found."])]
    else Paginate(EntriesStart(reminderEnabled), 0, entries).placed
  }

  /** Everything the export writes: the header, then the body. */
  function ExportItems(displayName: Option<string>, email: Option<string>, theme: string,
                       reminderEnabled: bool, reminderTime: string, entries: seq<seq<string>>): seq<Placed> {
    HeaderItems(displayName, email, theme, reminderEnabled, reminderTime) + BodyItems(reminderEnabled, entries)
  }

  /** How many pages the export has. */
  function ExportPages(reminderEnabled: bool, entries: seq<seq<string>>): nat {
    if entries == [] then 1 else Paginate(EntriesStart(reminderEnabled), 0, entries).page + 1
  }

  /** The body of the document: the header, then either the "no entries"
      line or the paginated entries. */
  method WriteExport(doc: PdfDocument, displayName: Option<string>, email: Option<string>,
                     theme: string, reminderEnabled: bool, reminderTime: string,
                     entries: seq<seq<string>>)
    requires doc.pageCount == 1
    modifies doc
    ensures doc.items == old(doc.items) + HeaderItems(displayName, email, theme, reminderEnabled, reminderTime)
                         + BodyItems(reminderEnabled, entries)
    ensures doc.pageCount == ExportPages(reminderEnabled, entries)
    ensures doc.savedAs == old(doc.savedAs)
  {
    var yPos := WriteHeader(doc, displayName, email, theme, reminderEnabled, reminderTime);
    if |entries| == 0 {
      doc.Text(["No diary entries found."], yPos);
    } else {
      yPos := WriteEntries(doc, yPos, entries);
    }
  }

  /** A new document holding the export, saved under its file name. */
  method ExportDocument(displayName: Option<string>, email: Option<string>, theme: string,
                        reminderEnabled: bool, reminderTime: string, entries: seq<seq<string>>)
    returns (doc: PdfDocument)
    ensures fresh(doc)
    ensures doc.items == ExportItems(displayName, email, theme, reminderEnabled, reminderTime, entries)
    ensures doc.pageCount == ExportPages(reminderEnabled, entries)
    ensures doc.savedAs == Some("SoulScript_User_Data.pdf")
  {
    doc := new PdfDocument();
    WriteExport(doc, displayName, email, theme, reminderEnabled, reminderTime, entries);
    doc.Save("SoulScript_User_Data.pdf");
  }

  /** The entry loop of `handleExportData`, from cursor `start` on the
      current page: the document receives exactly the layout `Paginate`
      describes. */
  method WriteEntries(doc: PdfDocument, start: int, entries: seq<seq<string>>) returns (yPos: int)
    requires doc.pageCount >= 1
    modifies doc
    ensures var layout := Paginate(start, old(doc.pageCount) - 1, entries);
      && doc.items == old(doc.items) + layout.placed
      && doc.pageCount == layout.page + 1
      && yPos == layout.y
    ensures doc.savedAs == old(doc.savedAs)
  {
    ghost var before := doc.items;
    ghost var page: nat := doc.pageCount - 1;
    yPos := start;
    for i := 0 to |entries|
      invariant doc.items == before + Paginate(start, page, entries[..i]).placed
      invariant doc.pageCount == Paginate(start, page, entries[..i]).page + 1
      invariant yPos == Paginate(start, page, entries[..i]).y
      invariant doc.savedAs == old(doc.savedAs)
    {
      var splitText := entries[i];
      assert entries[..i + 1][..i] == entries[..i];
      assert entries[..i + 1][i] == splitText;
      if yPos + |splitText| * 7 > 280 {
        doc.AddPage();
        yPos := 20;
      }
      doc.Text(splitText, yPos);
      yPos := yPos + |splitText| * 7 + 6;
    }
    assert entries[..|entries|] == entries;
  }

  // ---------------------------------------------------------------------
  // Themes on this page

  /** Only the light and the dark theme can be chosen here. */
  const EnabledThemes: seq<string> := ["light", "dark"]

  /** The tooltip of a theme card. */
  function CardTitle(t: ThemeContext.ThemeDefinition): (r: string)
    ensures t.id in EnabledThemes ==> r == t.description
    ensures t.id !in EnabledThemes ==> r == "Premium theme coming soon!"
  {
    if t.id in EnabledThemes then t.description else "Premium theme coming soon!"
  }

  /** The name a toast uses for a theme: `themes.find(...)?.name`, which is
      `undefined` for an unknown identifier. */
  function ThemeName(id: string): (r: string)
    ensures ThemeContext.FindTheme(id).Some? ==> r == ThemeContext.FindTheme(id).value.name
  {
    match ThemeContext.FindTheme(id)
    case Some(t) => t.name
    case None => "undefined"
  }

  /** The two themes that can be chosen are known ones, so their toasts name
      them. */
  lemma EnabledThemesNamed()
    ensures forall id :: id in EnabledThemes ==> id in ThemeContext.ThemeIds
    ensures ThemeName("light") == "Light & Bright" && ThemeName("dark") == "Dark & Cozy"
  {
    var themes := ThemeContext.Themes;
    assert ThemeContext.FindTheme("light") == Some(ThemeContext.LightTheme);
    assert themes[0].id != "dark" by {
      assert themes[0].id[0] == 'l';
    }
    assert themes[1..][0] == ThemeContext.DarkTheme;
    assert ThemeContext.FindTheme("dark") == Some(ThemeContext.DarkTheme);
  }

  // ---------------------------------------------------------------------
  // The page state

  class SettingsPage {
    var showDeleteModal: bool
    var showExportModal: bool
    var reminderTime: string
    var reminderEnabled: bool
    const provider: ThemeContext.ThemeProvider

    constructor (provider: ThemeContext.ThemeProvider)
      ensures this.provider == provider
      ensures !showDeleteModal && !showExportModal
      ensures reminderTime == "20:00" && reminderEnabled
    {
      this.provider := provider;
      showDeleteModal, showExportModal := false, false;
      reminderTime, reminderEnabled := "20:00", true;
    }

    /** `handleExportData`. `fetched` is the outcome of loading the user's
        entries, each given as the lines `splitTextToSize` breaks its text
        into. A failed load raises the failure toast and no document.
        Otherwise the header is written, then either the "no entries" line
        or the paginated entries, the file is saved, the success toast is
        raised and the export dialog closes. The "Selected Theme" line names
        the provider's current theme. */
    method HandleExportData(fetched: Result<seq<seq<string>>, string>,
                            displayName: Option<string>, email: Option<string>)
      returns (pdf: Option<PdfDocument>, toast: Toast)
      modifies this
      ensures fetched.Err? ==>
        pdf == None && toast == Failure("Failed to export data. Please try again.")
        && showExportModal == old(showExportModal)
      ensures fetched.Ok? ==>
        && pdf.Some? && fresh(pdf.value)
        && toast == Success("Data export started! Check your downloads.")
        && !showExportModal
        && pdf.value.savedAs == Some("SoulScript_User_Data.pdf")
        && pdf.value.items == ExportItems(displayName, email, provider.theme, reminderEnabled, reminderTime, fetched.value)
        && pdf.value.pageCount == ExportPages(reminderEnabled, fetched.value)
      ensures showDeleteModal == old(showDeleteModal)
      ensures reminderEnabled == old(reminderEnabled) && reminderTime == old(reminderTime)
    {
      if fetched.Err? {
        return None, Failure("Failed to export data. Please try again.");
      }
      var doc := ExportDocument(displayName, email, provider.theme, reminderEnabled, reminderTime, fetched.value);
      pdf := Some(doc);
      toast := Success("Data export started! Check your downloads.");
      showExportModal := false;
    }

    /** `handleThemeChange`: sets the theme through the provider and names it
        in a toast. */
    method HandleThemeChange(newTheme: string) returns (toast: Toast)
      modifies provider, provider.doc, provider.storage
      ensures provider.theme == newTheme
      ensures provider.storage.items == old(provider.storage.items)[ThemeContext.StorageKey := newTheme]
      ensures provider.AppliedFrom(old(provider.doc.style), old(provider.doc.bodyClasses), newTheme)
      ensures toast == Success("Switched to " + ThemeName(newTheme) + " theme")
    {
      provider.SetTheme(newTheme);
      toast := Success("Switched to " + ThemeName(newTheme) + " theme");
    }

    /** A click on a theme card: only an enabled theme is switched to; a
        click on any other card does nothing. */
    method ClickThemeCard(id: string) returns (toast: Option<Toast>)
      modifies provider, provider.doc, provider.storage
      ensures toast.Some? <==> id in EnabledThemes
      ensures id in EnabledThemes ==>
        && provider.theme == id
        && provider.storage.items == old(provider.storage.items)[ThemeContext.StorageKey := id]
        && provider.AppliedFrom(old(provider.doc.style), old(provider.doc.bodyClasses), id)
      ensures id !in EnabledThemes ==>
        && provider.theme == old(provider.theme)
        && provider.storage.items == old(provider.storage.items)
        && provider.doc.style == old(provider.doc.style)
        && provider.doc.bodyClasses == old(provider.doc.bodyClasses)
    {
      if id in EnabledThemes {
        var t := HandleThemeChange(id);
        toast := Some(t);
      } else {
        toast := None;
      }
    }

    /** `handleDeleteAccount`: deletion is not offered; the dialog closes. */
    method HandleDeleteAccount() returns (toast: Toast)
      modifies this
      ensures toast == Failure("This Feature is not applicable for the users")
      ensures !showDeleteModal
      ensures showExportModal == old(showExportModal)
      ensures reminderEnabled == old(reminderEnabled) && reminderTime == old(reminderTime)
    {
      toast := Failure("This Feature is not applicable for the users");
      showDeleteModal := false;
    }
  }
}
