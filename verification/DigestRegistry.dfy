/**
 * The digest registry table (internal/repo/digest_registry.go) and the reconciler that
 * brings it in line with the loaded app templates
 * (internal/profile/registry_reconciler.go).
 */
module DigestRegistry {
  import opened Common

  // ---- The table --------------------------------------------------------------

  /** UNIQUE(profile_id, name). */
  datatype Key = Key(profile: string, name: string)

  datatype Row = Row(id: string, source: string, entryType: string, caption: string, config: string,
                     profileSource: string, active: bool, createdAt: int, updatedAt: int)

  type Table = map<Key, Row>

  /** INSERT, or on conflict an update that leaves id, source, entry type and creation time alone. */
  function Upserted(row: Option<Row>, entry: Row): Row {
    if row.None? then entry
    else row.value.(caption := entry.caption, config := entry.config, profileSource := entry.profileSource,
                    active := entry.active, updatedAt := entry.updatedAt)
  }

  // ---- Templates --------------------------------------------------------------

  datatype Category = Category(source: string, caption: string, config: string)
  datatype Widget = Widget(source: string, caption: string, config: string)
  datatype Template = Template(sourcePath: string, categories: seq<Category>, widgets: seq<Widget>)

  /** Lower case as far as it reaches a-z: two letters outside ASCII fold into it as well. */
  function Lower(c: char): char {
    if 'A' <= c <= 'Z' then c - 'A' + 'a'
    else if c == '\U{212A}' then 'k'
    else if c == '\U{0130}' then 'i'
    else c
  }

  predicate SlugChar(c: char) { 'a' <= c <= 'z' || '0' <= c <= '9' || c == '_' }

  /** Lower case, blanks to underscores, everything else stripped. */
  function Slugify(caption: string): (slug: string)
    ensures forall c | c in slug :: SlugChar(c)
  {
    if caption == [] then []
    else
      var c := if caption[0] == ' ' then '_' else Lower(caption[0]);
      (if SlugChar(c) then [c] else []) + Slugify(caption[1..])
  }

  /** Each character contributes on its own. */
  lemma {:induction false} SlugOfConcat(a: string, b: string)
    ensures Slugify(a + b) == Slugify(a) + Slugify(b)
  {
    if a == [] {
      assert a + b == b;
    } else {
      assert (a + b)[1..] == a[1..] + b;
      SlugOfConcat(a[1..], b);
    }
  }

  /** Letters in lower case, digits and underscores as they are, a blank an underscore, anything else nothing. */
  lemma SlugOfChar(c: char)
    ensures 'a' <= c <= 'z' || '0' <= c <= '9' || c == '_' ==> Slugify([c]) == [c]
    ensures 'A' <= c <= 'Z' ==> Slugify([c]) == [(c as int + 32) as char]
    ensures c == ' ' ==> Slugify([c]) == "_"
    ensures c == '\U{212A}' ==> Slugify([c]) == "k"
    ensures c == '\U{0130}' ==> Slugify([c]) == "i"
    ensures !('a' <= c <= 'z' || 'A' <= c <= 'Z' || '0' <= c <= '9' || c in {'_', ' ', '\U{212A}', '\U{0130}'}) ==> Slugify([c]) == ""
  {
    assert [c][1..] == [];
  }

  /** A slug is left alone, so slugs name themselves. */
  lemma {:induction false} SlugOfSlug(s: string)
    requires forall c | c in s :: SlugChar(c)
    ensures Slugify(s) == s
  {
    if s != [] {
      assert s[0] in s;
      SlugOfSlug(s[1..]);
    }
  }

  /** An entry as it is written. */
  datatype Entry = Entry(name: string, source: string, entryType: string, caption: string, config: string)

  function CategoryEntry(c: Category): Entry {
    Entry(Slugify(c.caption), if c.source == "" then "webhook" else c.source, "category", c.caption, c.config)
  }

  function WidgetEntry(w: Widget): Entry {
    Entry("widget_" + Slugify(w.caption), w.source, "widget", w.caption, w.config)
  }

  /** Labels without a slug are skipped. */
  function CategoryEntries(cats: seq<Category>): seq<Entry> {
    if cats == [] then []
    else if Slugify(cats[0].caption) == "" then CategoryEntries(cats[1..])
    else [CategoryEntry(cats[0])] + CategoryEntries(cats[1..])
  }

  function WidgetEntries(widgets: seq<Widget>): seq<Entry> {
    if widgets == [] then []
    else if Slugify(widgets[0].caption) == "" then WidgetEntries(widgets[1..])
    else [WidgetEntry(widgets[0])] + WidgetEntries(widgets[1..])
  }

  function EntriesOf(t: Template): seq<Entry> { CategoryEntries(t.categories) + WidgetEntries(t.widgets) }

  /** Each category makes one entry, in order, or none if its label has no slug; without a source it is a webhook's. */
  lemma {:induction false} CategoryEntriesAre(a: seq<Category>, c: Category, b: seq<Category>)
    ensures var slug := Slugify(c.caption);
            CategoryEntries(a + [c] + b) ==
            CategoryEntries(a)
            + (if slug == "" then []
               else [Entry(slug, if c.source == "" then "webhook" else c.source, "category", c.caption, c.config)])
            + CategoryEntries(b)
    decreases |a|
  {
    hide Slugify;
    var all := a + [c] + b;
    if a == [] {
      assert all[0] == c && all[1..] == b;
    } else {
      assert all[0] == a[0] && all[1..] == a[1..] + [c] + b;
      CategoryEntriesAre(a[1..], c, b);
    }
  }

  /** Each widget makes one under a prefix, with the source it has. */
  lemma {:induction false} WidgetEntriesAre(a: seq<Widget>, w: Widget, b: seq<Widget>)
    ensures var slug := Slugify(w.caption);
            WidgetEntries(a + [w] + b) ==
            WidgetEntries(a)
            + (if slug == "" then [] else [Entry("widget_" + slug, w.source, "widget", w.caption, w.config)])
            + WidgetEntries(b)
    decreases |a|
  {
    hide Slugify;
    var all := a + [w] + b;
    if a == [] {
      assert all[0] == w && all[1..] == b;
    } else {
      assert all[0] == a[0] && all[1..] == a[1..] + [w] + b;
      WidgetEntriesAre(a[1..], w, b);
    }
  }

  predicate HasEntries(t: Template) { |t.categories| > 0 || |t.widgets| > 0 }

  /** An entry whose source the CHECK on the column refuses. */
  predicate Refused(entries: seq<Entry>) { exists i :: 0 <= i < |entries| && entries[i].source !in {"webhook", "api"} }

  predicate Declares(entries: seq<Entry>, name: string) { exists i :: 0 <= i < |entries| && entries[i].name == name }

  // ---- What a run makes of one row ----------------------------------------------

  /** One run: its clock, and the id generated for each key it might insert. */
  datatype RunData = RunData(now: int, newId: Key -> string)

  function RowOf(k: Key, e: Entry, path: string, run: RunData): Row {
    Row(run.newId(k), e.source, e.entryType, e.caption, e.config, path, true, run.now, run.now)
  }

  /** The row after the entries have been upserted in order. */
  function AfterEntries(row: Option<Row>, k: Key, entries: seq<Entry>, path: string, run: RunData): Option<Row>
    decreases |entries|
  {
    if entries == [] then row
    else AfterEntries(if entries[0].name == k.name then Some(Upserted(row, RowOf(k, entries[0], path, run))) else row,
                      k, entries[1..], path, run)
  }

  function Deactivated(row: Option<Row>, now: int): Option<Row> {
    if row.Some? && row.value.active then Some(row.value.(active := false, updatedAt := now)) else row
  }

  /** A row of a loaded profile: upserted if its name is declared, switched off otherwise. */
  function DeclaredOnly(row: Option<Row>, k: Key, t: Template, run: RunData): Option<Row> {
    if Declares(EntriesOf(t), k.name) then AfterEntries(row, k, EntriesOf(t), t.sourcePath, run)
    else Deactivated(row, run.now)
  }

  /** The row after a complete run: this is the declarative reading of the reconciler. */
  function Reconciled(row: Option<Row>, k: Key, templates: map<string, Template>, run: RunData): Option<Row> {
    if k.profile !in templates then Deactivated(row, run.now)
    else
      var t := templates[k.profile];
      if !HasEntries(t) then row else DeclaredOnly(row, k, t, run)
  }

  /** A row that a run cut off by a failed write may leave behind. */
  ghost predicate LeftBehind(row: Option<Row>, mid: Option<Row>, k: Key, templates: map<string, Template>,
                             run: RunData, written: seq<Entry>)
  {
    || mid == row
    || mid == Reconciled(row, k, templates, run)
    || (&& k.profile in templates && HasEntries(templates[k.profile])
        && written <= EntriesOf(templates[k.profile])
        && mid == AfterEntries(row, k, written, templates[k.profile].sourcePath, run))
  }

  // ---- Properties of the specification ------------------------------------------

  lemma {:induction false} AfterAppend(row: Option<Row>, k: Key, a: seq<Entry>, b: seq<Entry>, path: string, run: RunData)
    ensures AfterEntries(row, k, a + b, path, run)
         == AfterEntries(AfterEntries(row, k, a, path, run), k, b, path, run)
    decreases |a|
  {
    if a == [] {
      assert a + b == b;
    } else {
      assert (a + b)[1..] == a[1..] + b;
      var next := if a[0].name == k.name then Some(Upserted(row, RowOf(k, a[0], path, run))) else row;
      AfterAppend(next, k, a[1..], b, path, run);
    }
  }

  lemma OneEntry(row: Option<Row>, k: Key, e: Entry, path: string, run: RunData)
    requires e.name == k.name
    ensures AfterEntries(row, k, [e], path, run) == Some(Upserted(row, RowOf(k, e, path, run)))
  {
  }

  /** Names that are not declared are not written. */
  lemma {:induction false} UndeclaredIsUntouched(row: Option<Row>, k: Key, entries: seq<Entry>, path: string, run: RunData)
    requires !Declares(entries, k.name)
    ensures AfterEntries(row, k, entries, path, run) == row
    decreases |entries|
  {
    if entries != [] {
      assert entries[0].name != k.name;
      assert forall i :: 0 <= i < |entries| - 1 ==> entries[1..][i] == entries[i + 1];
      UndeclaredIsUntouched(row, k, entries[1..], path, run);
    }
  }

  predicate SameIdentity(a: Row, b: Row) {
    a.id == b.id && a.source == b.source && a.entryType == b.entryType && a.createdAt == b.createdAt
  }

  predicate SameContent(a: Row, b: Row) {
    a.caption == b.caption && a.config == b.config && a.profileSource == b.profileSource && a.active == b.active
  }

  /** An existing row keeps its identity; a row that has been written or was active is active. */
  lemma {:induction false} EntriesKeepIdentity(row: Row, k: Key, entries: seq<Entry>, path: string, run: RunData)
    ensures var r := AfterEntries(Some(row), k, entries, path, run);
            r.Some? && SameIdentity(r.value, row) && (Declares(entries, k.name) || row.active ==> r.value.active)
    decreases |entries|
  {
    if entries != [] {
      var next := if entries[0].name == k.name then Upserted(Some(row), RowOf(k, entries[0], path, run)) else row;
      EntriesKeepIdentity(next, k, entries[1..], path, run);
      if Declares(entries, k.name) {
        DeclaredNowOrLater(entries, k.name);
      }
    }
  }

  lemma DeclaredNowOrLater(entries: seq<Entry>, name: string)
    requires Declares(entries, name)
    ensures entries[0].name == name || Declares(entries[1..], name)
  {
    var i :| 0 <= i < |entries| && entries[i].name == name;
    if i > 0 {
      assert entries[1..][i - 1].name == name;
    }
  }

  function LastOf(entries: seq<Entry>, name: string): (e: Entry)
    requires Declares(entries, name)
    ensures e.name == name
    decreases |entries|
  {
    DeclaredNowOrLater(entries, name);
    if Declares(entries[1..], name) then LastOf(entries[1..], name) else entries[0]
  }

  predicate ShowsEntry(row: Row, e: Entry, path: string) {
    row.caption == e.caption && row.config == e.config && row.profileSource == path && row.active
  }

  /** A declared row is there and active with the content of the last entry of its name, whatever it was before. */
  lemma {:induction false} ContentIsTheTemplates(row: Option<Row>, k: Key, entries: seq<Entry>, path: string, run: RunData)
    requires Declares(entries, k.name)
    ensures var r := AfterEntries(row, k, entries, path, run);
            r.Some? && ShowsEntry(r.value, LastOf(entries, k.name), path) && r.value.updatedAt == run.now
    decreases |entries|
  {
    var next := if entries[0].name == k.name then Some(Upserted(row, RowOf(k, entries[0], path, run))) else row;
    if Declares(entries[1..], k.name) {
      ContentIsTheTemplates(next, k, entries[1..], path, run);
    } else {
      assert LastOf(entries, k.name) == entries[0];
      UndeclaredIsUntouched(next, k, entries[1..], path, run);
    }
  }

  function FirstOf(entries: seq<Entry>, name: string): (e: Entry)
    requires Declares(entries, name)
    ensures e.name == name
    decreases |entries|
  {
    if entries[0].name == name then entries[0]
    else
      DeclaredNowOrLater(entries, name);
      FirstOf(entries[1..], name)
  }

  /** The first entry of the name decides source and type of a row that is inserted. */
  lemma {:induction false} InsertedAsFirst(k: Key, entries: seq<Entry>, path: string, run: RunData)
    requires Declares(entries, k.name)
    ensures AfterEntries(None, k, entries, path, run)
         == AfterEntries(Some(RowOf(k, FirstOf(entries, k.name), path, run)), k, entries, path, run)
    ensures var r, first := AfterEntries(None, k, entries, path, run), FirstOf(entries, k.name);
            && r.Some? && r.value.id == run.newId(k) && r.value.createdAt == run.now
            && r.value.source == first.source && r.value.entryType == first.entryType
    decreases |entries|
  {
    EntriesKeepIdentity(RowOf(k, FirstOf(entries, k.name), path, run), k, entries, path, run);
    if entries[0].name != k.name {
      DeclaredNowOrLater(entries, k.name);
      InsertedAsFirst(k, entries[1..], path, run);
    }
  }

  lemma {:induction false} FirstOfLonger(entries: seq<Entry>, longer: seq<Entry>, name: string)
    requires Declares(entries, name) && entries <= longer
    ensures Declares(longer, name) && FirstOf(longer, name) == FirstOf(entries, name)
    decreases |entries|
  {
    var i :| 0 <= i < |entries| && entries[i].name == name;
    assert longer[i].name == name;
    if entries[0].name != name {
      DeclaredNowOrLater(entries, name);
      FirstOfLonger(entries[1..], longer[1..], name);
    }
  }

  // ---- The theorems ---------------------------------------------------------------

  /**
   * For a loaded profile with entries a row is there and active exactly when its name is
   * declared; rows of other profiles end up inactive; a profile without entries is not touched.
   */
  lemma {:induction false} ActiveIffDeclared(row: Option<Row>, k: Key, templates: map<string, Template>, run: RunData)
    ensures var after := Reconciled(row, k, templates, run);
            && (k.profile !in templates ==> after.None? || !after.value.active)
            && (k.profile in templates && !HasEntries(templates[k.profile]) ==> after == row)
            && (k.profile in templates && HasEntries(templates[k.profile]) ==>
                  ((after.Some? && after.value.active) <==> Declares(EntriesOf(templates[k.profile]), k.name)))
  {
    if k.profile in templates && Declares(EntriesOf(templates[k.profile]), k.name) {
      ContentIsTheTemplates(row, k, EntriesOf(templates[k.profile]), templates[k.profile].sourcePath, run);
    }
  }

  /** What happens to a row that nothing declares: an active one is switched off and stamped, nothing else changes. */
  lemma UndeclaredIsSwitchedOff(row: Option<Row>, k: Key, templates: map<string, Template>, run: RunData)
    requires k.profile in templates ==>
               HasEntries(templates[k.profile]) && !Declares(EntriesOf(templates[k.profile]), k.name)
    ensures Reconciled(row, k, templates, run) ==
              if row.Some? && row.value.active then Some(row.value.(active := false, updatedAt := run.now)) else row
  {
  }

  /** No row is deleted, and id, source, entry type and creation time never change. */
  lemma {:induction false} RowsKeepIdentity(row: Row, k: Key, templates: map<string, Template>, run: RunData)
    ensures var after := Reconciled(Some(row), k, templates, run);
            && after.Some? && SameIdentity(after.value, row)
            && after.value.id == row.id && after.value.source == row.source && after.value.entryType == row.entryType
            && after.value.createdAt == row.createdAt
  {
    if k.profile in templates {
      EntriesKeepIdentity(row, k, EntriesOf(templates[k.profile]), templates[k.profile].sourcePath, run);
    }
  }

  /** A row that was switched off by hand stays off unless the template declares it. */
  lemma {:induction false} SwitchedOffStaysOffIff(row: Row, k: Key, templates: map<string, Template>, run: RunData)
    requires !row.active
    ensures Reconciled(Some(row), k, templates, run) == Some(row)
       <==> !(k.profile in templates && Declares(EntriesOf(templates[k.profile]), k.name))
  {
    if k.profile in templates && Declares(EntriesOf(templates[k.profile]), k.name) {
      assert HasEntries(templates[k.profile]);
      ContentIsTheTemplates(Some(row), k, EntriesOf(templates[k.profile]), templates[k.profile].sourcePath, run);
    }
  }

  /** Equal up to the generated id and the time stamps. */
  predicate Equivalent(a: Option<Row>, b: Option<Row>) {
    a.Some? == b.Some? &&
    (a.Some? ==> a.value.source == b.value.source && a.value.entryType == b.value.entryType && SameContent(a.value, b.value))
  }

  /**
   * A run cut off at any write, followed by a complete run, reaches what the complete run
   * alone reaches, up to ids and time stamps; the id and creation time of a row that existed are kept.
   */
  lemma {:induction false} AbortedThenComplete(row: Option<Row>, mid: Option<Row>, k: Key,
      templates: map<string, Template>, first: RunData, written: seq<Entry>, second: RunData)
    requires LeftBehind(row, mid, k, templates, first, written)
    ensures Equivalent(Reconciled(mid, k, templates, second), Reconciled(row, k, templates, second))
    ensures var resumed, alone := Reconciled(mid, k, templates, second), Reconciled(row, k, templates, second);
            if alone.None? then resumed.None?
            else resumed.Some? && resumed.value == alone.value.(id := resumed.value.id, createdAt := resumed.value.createdAt,
                                                                updatedAt := resumed.value.updatedAt)
    ensures var after := Reconciled(mid, k, templates, second);
            row.Some? ==> after.Some? && SameIdentity(after.value, row.value)
  {
    if k.profile in templates && Declares(EntriesOf(templates[k.profile]), k.name) {
      var t := templates[k.profile];
      var es := EntriesOf(t);
      assert HasEntries(t);
      var prefix := if mid == row then [] else if mid == AfterEntries(row, k, es, t.sourcePath, first) then es else written;
      assert prefix <= es && mid == AfterEntries(row, k, prefix, t.sourcePath, first);
      ResumedEntries(row, k, prefix, es, t.sourcePath, first, second);
    } else if k.profile in templates {
      PrefixDeclares(written, EntriesOf(templates[k.profile]), k.name);
      if !Declares(written, k.name) {
        UndeclaredIsUntouched(row, k, written, templates[k.profile].sourcePath, first);
      }
    }
  }

  lemma PrefixDeclares(written: seq<Entry>, entries: seq<Entry>, name: string)
    ensures written <= entries && Declares(written, name) ==> Declares(entries, name)
  {
  }

  lemma {:induction false} ResumedEntries(row: Option<Row>, k: Key, written: seq<Entry>, entries: seq<Entry>,
                                          path: string, first: RunData, second: RunData)
    requires written <= entries && Declares(entries, k.name)
    ensures var mid := AfterEntries(row, k, written, path, first);
            var resumed := AfterEntries(mid, k, entries, path, second);
            && Equivalent(resumed, AfterEntries(row, k, entries, path, second))
            && (row.Some? ==> resumed.Some? && SameIdentity(resumed.value, row.value))
  {
    var mid := AfterEntries(row, k, written, path, first);
    ContentIsTheTemplates(mid, k, entries, path, second);
    ContentIsTheTemplates(row, k, entries, path, second);
    if row.Some? {
      EntriesKeepIdentity(row.value, k, written, path, first);
      EntriesKeepIdentity(mid.value, k, entries, path, second);
      EntriesKeepIdentity(row.value, k, entries, path, second);
    } else {
      var e := FirstOf(entries, k.name);
      InsertedAsFirst(k, entries, path, second);
      EntriesKeepIdentity(RowOf(k, e, path, second), k, entries, path, second);
      if Declares(written, k.name) {
        FirstOfLonger(written, entries, k.name);
        InsertedAsFirst(k, written, path, first);
        EntriesKeepIdentity(RowOf(k, e, path, first), k, written, path, first);
        EntriesKeepIdentity(mid.value, k, entries, path, second);
      } else {
        UndeclaredIsUntouched(row, k, written, path, first);
      }
    }
  }

  /** Reconciling twice changes nothing but time stamps. */
  lemma {:induction false} Idempotent(row: Option<Row>, k: Key, templates: map<string, Template>, first: RunData, second: RunData)
    ensures var once := Reconciled(row, k, templates, first);
            var twice := Reconciled(once, k, templates, second);
            && Equivalent(twice, once) && (once.Some? ==> SameIdentity(twice.value, once.value))
            && twice == if once.None? then None else Some(once.value.(updatedAt := twice.value.updatedAt))
  {
    var once := Reconciled(row, k, templates, first);
    if once.Some? {
      RowsKeepIdentity(once.value, k, templates, second);
    }
    if k.profile in templates && Declares(EntriesOf(templates[k.profile]), k.name) {
      var t := templates[k.profile];
      assert HasEntries(t);
      ContentIsTheTemplates(row, k, EntriesOf(t), t.sourcePath, first);
      ContentIsTheTemplates(once, k, EntriesOf(t), t.sourcePath, second);
    }
  }

  /** Some label of the list has this slug. */
  predicate CategorySlug(cats: seq<Category>, name: string) {
    exists i :: 0 <= i < |cats| && Slugify(cats[i].caption) == name
  }

  predicate WidgetName(widgets: seq<Widget>, name: string) {
    exists i :: 0 <= i < |widgets| && Slugify(widgets[i].caption) != "" && "widget_" + Slugify(widgets[i].caption) == name
  }

  lemma {:induction false} CategoriesDeclareIff(cats: seq<Category>, name: string)
    requires name != ""
    ensures Declares(CategoryEntries(cats), name) <==> CategorySlug(cats, name)
    ensures forall e :: e in CategoryEntries(cats) ==> e.entryType == "category"
  {
    if cats != [] {
      CategoriesDeclareIff(cats[1..], name);
      assert CategorySlug(cats, name) <==> Slugify(cats[0].caption) == name || CategorySlug(cats[1..], name) by {
        if i :| 0 <= i < |cats| && Slugify(cats[i].caption) == name {
          assert i == 0 || Slugify(cats[1..][i - 1].caption) == name;
        }
        if i :| 0 <= i < |cats| - 1 && Slugify(cats[1..][i].caption) == name {
          assert Slugify(cats[i + 1].caption) == name;
        }
      }
      DeclaresConcat([CategoryEntry(cats[0])], CategoryEntries(cats[1..]));
      assert [CategoryEntry(cats[0])][0].name == Slugify(cats[0].caption);
    }
  }

  lemma {:induction false} WidgetsDeclareIff(widgets: seq<Widget>, name: string)
    ensures Declares(WidgetEntries(widgets), name) <==> WidgetName(widgets, name)
    ensures forall e :: e in WidgetEntries(widgets) ==> e.entryType == "widget"
  {
    if widgets != [] {
      WidgetsDeclareIff(widgets[1..], name);
      assert WidgetName(widgets, name) <==>
             (Slugify(widgets[0].caption) != "" && "widget_" + Slugify(widgets[0].caption) == name) || WidgetName(widgets[1..], name) by {
        if i :| 0 <= i < |widgets| && Slugify(widgets[i].caption) != "" && "widget_" + Slugify(widgets[i].caption) == name {
          assert i == 0 || "widget_" + Slugify(widgets[1..][i - 1].caption) == name;
        }
        if i :| 0 <= i < |widgets| - 1 && Slugify(widgets[1..][i].caption) != "" && "widget_" + Slugify(widgets[1..][i].caption) == name {
          assert "widget_" + Slugify(widgets[i + 1].caption) == name;
        }
      }
      DeclaresConcat([WidgetEntry(widgets[0])], WidgetEntries(widgets[1..]));
      assert [WidgetEntry(widgets[0])][0].name == "widget_" + Slugify(widgets[0].caption);
    }
  }

  lemma {:induction false} FirstOfConcat(a: seq<Entry>, b: seq<Entry>, name: string)
    requires Declares(a, name) || Declares(b, name)
    ensures Declares(a + b, name)
    ensures FirstOf(a + b, name) == if Declares(a, name) then FirstOf(a, name) else FirstOf(b, name)
    decreases |a|
  {
    DeclaresConcat(a, b);
    if a == [] {
      assert a + b == b;
    } else if a[0].name != name {
      assert (a + b)[1..] == a[1..] + b;
      DeclaresConcat([a[0]], a[1..]);
      assert [a[0]] + a[1..] == a;
      assert !Declares([a[0]], name);
      FirstOfConcat(a[1..], b, name);
    } else {
      assert (a + b)[0] == a[0] && Declares(a, name);
    }
  }

  /** The first entry of a name is a category's if any category has it. */
  lemma {:induction false} FirstType(t: Template, name: string)
    requires name != "" && Declares(EntriesOf(t), name)
    ensures FirstOf(EntriesOf(t), name).entryType == if CategorySlug(t.categories, name) then "category" else "widget"
  {
    CategoriesDeclareIff(t.categories, name);
    WidgetsDeclareIff(t.widgets, name);
    DeclaresConcat(CategoryEntries(t.categories), WidgetEntries(t.widgets));
    FirstOfConcat(CategoryEntries(t.categories), WidgetEntries(t.widgets), name);
    FirstIsThere(CategoryEntries(t.categories), name);
    FirstIsThere(WidgetEntries(t.widgets), name);
  }

  /**
   * The prefix is to keep widgets and categories apart. In any template, the row of a
   * declared widget is a widget's row if and only if it was one before or, when it is
   * inserted, no category's label has the widget's name for a slug.
   */
  lemma {:induction false} WidgetRowIsAWidgetIff(row: Option<Row>, t: Template, k: Key, run: RunData)
    requires WidgetName(t.widgets, k.name)
    ensures var after := AfterEntries(row, k, EntriesOf(t), t.sourcePath, run);
            && after.Some?
            && (after.value.entryType == "widget" <==>
                  if row.Some? then row.value.entryType == "widget" else !CategorySlug(t.categories, k.name))
  {
    if row.Some? {
      EntriesKeepIdentity(row.value, k, EntriesOf(t), t.sourcePath, run);
    } else {
      WidgetsDeclareIff(t.widgets, k.name);
      DeclaresConcat(CategoryEntries(t.categories), WidgetEntries(t.widgets));
      FirstType(t, k.name);
      InsertedAsFirst(k, EntriesOf(t), t.sourcePath, run);
      EntriesKeepIdentity(RowOf(k, FirstOf(EntriesOf(t), k.name), t.sourcePath, run), k, EntriesOf(t), t.sourcePath, run);
    }
  }

  /**
   * So a row remembers the template that brought it: after the next template, in which the
   * name is a widget's, it is a widget's row exactly if no category of the first one had it.
   */
  lemma {:induction false} RowRemembersItsTemplate(t: Template, next: Template, k: Key, first: RunData, second: RunData)
    requires Declares(EntriesOf(t), k.name) && WidgetName(next.widgets, k.name)
    ensures var row := AfterEntries(None, k, EntriesOf(t), t.sourcePath, first);
            var after := AfterEntries(row, k, EntriesOf(next), next.sourcePath, second);
            after.Some? && (after.value.entryType == "widget" <==> !CategorySlug(t.categories, k.name))
  {
    FirstType(t, k.name);
    var e := FirstOf(EntriesOf(t), k.name);
    InsertedAsFirst(k, EntriesOf(t), t.sourcePath, first);
    EntriesKeepIdentity(RowOf(k, e, t.sourcePath, first), k, EntriesOf(t), t.sourcePath, first);
    WidgetRowIsAWidgetIff(AfterEntries(None, k, EntriesOf(t), t.sourcePath, first), next, k, second);
  }

  lemma {:induction false} FirstIsThere(entries: seq<Entry>, name: string)
    ensures Declares(entries, name) ==> FirstOf(entries, name) in entries
    decreases |entries|
  {
    if Declares(entries, name) && entries[0].name != name {
      DeclaredNowOrLater(entries, name);
      FirstIsThere(entries[1..], name);
    }
  }

  /**
   * When it does not, the two share one row: a category called "Widget cpu"
   * and a widget called "cpu" make a category under the widget's label.
   */
  lemma {:induction false} WidgetPrefixCollides(c: Category, w: Widget, k: Key, path: string, run: RunData)
    requires Slugify(c.caption) == "widget_" + Slugify(w.caption) == k.name && Slugify(w.caption) != ""
    ensures var t := Template(path, [c], [w]);
            var row := AfterEntries(None, k, EntriesOf(t), path, run);
            EntriesOf(t) == [CategoryEntry(c), WidgetEntry(w)] &&
            row.Some? && row.value.entryType == "category" && row.value.caption == w.caption && row.value.config == w.config
  {
    var t := Template(path, [c], [w]);
    assert [c][1..] == [] && [w][1..] == [];
    assert CategoryEntries([c]) == [CategoryEntry(c)] + CategoryEntries([]);
    assert WidgetEntries([w]) == [WidgetEntry(w)] + WidgetEntries([]);
    assert EntriesOf(t) == [CategoryEntry(c)] + [WidgetEntry(w)];
    AfterAppend(None, k, [CategoryEntry(c)], [WidgetEntry(w)], path, run);
    var inserted := RowOf(k, CategoryEntry(c), path, run);
    OneEntry(None, k, CategoryEntry(c), path, run);
    OneEntry(Some(inserted), k, WidgetEntry(w), path, run);
  }

  // ---- The table and the loops --------------------------------------------------

  class Registry {
    var rows: Table
    var accepts: nat     // how many more writes the database lets through before one fails
    var answers: nat     // and how many more listings

    constructor (accepts: nat, answers: nat)
      ensures rows == map[] && this.accepts == accepts && this.answers == answers
    {
      rows, this.accepts, this.answers := map[], accepts, answers;
    }

    method List() returns (listed: Option<Table>)
      modifies this`answers
      ensures old(answers) == 0 ==> listed == None && answers == 0
      ensures old(answers) > 0 ==> listed == Some(rows) && answers == old(answers) - 1
    {
      if answers == 0 {
        return None;
      }
      answers := answers - 1;
      listed := Some(rows);
    }

    /** The CHECK on the source column refuses anything but webhook and api. */
    method Upsert(k: Key, entry: Row) returns (ok: bool)
      modifies this`rows, this`accepts
      ensures ok <==> old(accepts) > 0 && entry.source in {"webhook", "api"}
      ensures accepts == if ok then old(accepts) - 1 else old(accepts)
      ensures rows == if ok then old(rows)[k := Upserted(Find(old(rows), k), entry)] else old(rows)
      ensures ok && k !in old(rows) ==> rows[k] == entry
      ensures ok && k in old(rows) ==>
                rows[k] == old(rows)[k].(caption := entry.caption, config := entry.config, profileSource := entry.profileSource,
                                         active := entry.active, updatedAt := entry.updatedAt)
    {
      if accepts == 0 || entry.source !in {"webhook", "api"} {
        return false;
      }
      accepts := accepts - 1;
      if k in rows {
        rows := rows[k := rows[k].(caption := entry.caption, config := entry.config, profileSource := entry.profileSource,
                                   active := entry.active, updatedAt := entry.updatedAt)];
      } else {
        rows := rows[k := entry];
      }
      ok := true;
    }

    method SetActive(k: Key, active: bool, now: int) returns (ok: bool)
      modifies this`rows, this`accepts
      ensures ok <==> old(accepts) > 0
      ensures accepts == if ok then old(accepts) - 1 else old(accepts)
      ensures rows == if ok && k in old(rows)
                      then old(rows)[k := old(rows)[k].(active := active, updatedAt := now)] else old(rows)
    {
      if accepts == 0 {
        return false;
      }
      accepts := accepts - 1;
      if k in rows {
        rows := rows[k := rows[k].(active := active, updatedAt := now)];
      }
      ok := true;
    }

    /** The loop over the categories; their names become current names. */
    method UpsertCategories(profile: string, t: Template, run: RunData)
      returns (ok: bool, names: set<string>, ghost written: seq<Entry>)
      modifies this`rows, this`accepts
      ensures written <= CategoryEntries(t.categories)
      ensures !ok ==> accepts == 0 || Refused(CategoryEntries(t.categories))
      ensures ok ==> written == CategoryEntries(t.categories) && forall n :: n in names <==> Declares(written, n)
      ensures Applied(old(rows), rows, profile, written, t.sourcePath, run)
    {
      names, written := {}, [];
      var i := 0;
      while i < |t.categories|
        invariant 0 <= i <= |t.categories|
        invariant CategoryEntries(t.categories) == written + CategoryEntries(t.categories[i..])
        invariant forall n :: n in names <==> Declares(written, n)
        invariant Applied(old(rows), rows, profile, written, t.sourcePath, run)
      {
        var c := t.categories[i];
        NextCategory(t.categories, i, written);
        i := i + 1;
        if Slugify(c.caption) == "" {
          continue;
        }
        var k := Key(profile, Slugify(c.caption));
        ghost var mid := rows;
        ok := Upsert(k, RowOf(k, CategoryEntry(c), t.sourcePath, run));
        if !ok {
          return;
        }
        names := names + {Slugify(c.caption)};
        AppliedOneMore(old(rows), mid, profile, written, CategoryEntry(c), t.sourcePath, run);
        DeclaresOneMore(written, CategoryEntry(c));
        written := written + [CategoryEntry(c)];
      }
      ok := true;
    }

    /** The loop over the widgets adds to the current names. */
    method UpsertWidgets(profile: string, t: Template, run: RunData, current: set<string>)
      returns (ok: bool, names: set<string>, ghost written: seq<Entry>)
      modifies this`rows, this`accepts
      ensures written <= WidgetEntries(t.widgets)
      ensures !ok ==> accepts == 0 || Refused(WidgetEntries(t.widgets))
      ensures ok ==> written == WidgetEntries(t.widgets) && forall n :: n in names <==> n in current || Declares(written, n)
      ensures Applied(old(rows), rows, profile, written, t.sourcePath, run)
    {
      names, written := current, [];
      var i := 0;
      while i < |t.widgets|
        invariant 0 <= i <= |t.widgets|
        invariant WidgetEntries(t.widgets) == written + WidgetEntries(t.widgets[i..])
        invariant forall n :: n in names <==> n in current || Declares(written, n)
        invariant Applied(old(rows), rows, profile, written, t.sourcePath, run)
      {
        var w := t.widgets[i];
        NextWidget(t.widgets, i, written);
        i := i + 1;
        var name := "widget_" + Slugify(w.caption);
        if name == "widget_" {
          continue;
        }
        var k := Key(profile, name);
        ghost var mid := rows;
        ok := Upsert(k, RowOf(k, WidgetEntry(w), t.sourcePath, run));
        if !ok {
          return;
        }
        names := names + {name};
        AppliedOneMore(old(rows), mid, profile, written, WidgetEntry(w), t.sourcePath, run);
        DeclaresOneMore(written, WidgetEntry(w));
        written := written + [WidgetEntry(w)];
      }
      ok := true;
    }

    /** The two deactivation loops: active rows taken from a listing, in any order. */
    method Deactivate(victims: set<Key>, now: int) returns (ok: bool)
      requires forall k :: k in victims ==> k in rows && rows[k].active
      modifies this`rows, this`accepts
      ensures !ok ==> accepts == 0
      ensures forall k :: Find(rows, k) == Find(old(rows), k)
                       || (k in victims && Find(rows, k) == Deactivated(Find(old(rows), k), now))
      ensures ok ==> forall k :: k in victims ==> Find(rows, k) == Deactivated(Find(old(rows), k), now)
    {
      var todo := victims;
      while todo != {}
        invariant todo <= victims
        invariant forall k :: Find(rows, k) == if k in victims && k !in todo
                                               then Deactivated(Find(old(rows), k), now) else Find(old(rows), k)
      {
        var k :| k in todo;
        ok := SetActive(k, false, now);
        if !ok {
          return;
        }
        todo := todo - {k};
      }
      ok := true;
    }

    /** One turn of the outer loop. */
    method ReconcileProfile(profile: string, t: Template, run: RunData) returns (ok: bool, ghost written: seq<Entry>)
      modifies this
      ensures written <= EntriesOf(t)
      ensures !ok ==> accepts == 0 || answers == 0 || Refused(EntriesOf(t))
      ensures forall k: Key :: k.profile != profile ==> Find(rows, k) == Find(old(rows), k)
      ensures forall k: Key :: k.profile == profile ==>
                || Find(rows, k) == AfterEntries(Find(old(rows), k), k, written, t.sourcePath, run)
                || Find(rows, k) == DeclaredOnly(Find(old(rows), k), k, t, run)
      ensures ok ==> forall k: Key :: k.profile == profile ==> Find(rows, k) == DeclaredOnly(Find(old(rows), k), k, t, run)
    {
      RefusedConcat(CategoryEntries(t.categories), WidgetEntries(t.widgets));
      var names;
      ok, names, written := UpsertCategories(profile, t, run);
      if !ok {
        return;
      }
      ghost var mid, first := rows, written;
      ok, names, written := UpsertWidgets(profile, t, run, names);
      AppliedTwice(old(rows), mid, rows, profile, first, written, t.sourcePath, run);
      DeclaresConcat(first, written);
      written := first + written;
      if !ok {
        return;
      }
      assert written == EntriesOf(t);
      var listed := List();
      if listed.None? {
        return false, written;
      }
      var missing := set k | k in listed.value && k.profile == profile && k.name !in names && listed.value[k].active;
      ghost var upserted := rows;
      ok := Deactivate(missing, run.now);
      forall k: Key | k.profile == profile
        ensures || Find(rows, k) == AfterEntries(Find(old(rows), k), k, written, t.sourcePath, run)
                || Find(rows, k) == DeclaredOnly(Find(old(rows), k), k, t, run)
        ensures ok ==> Find(rows, k) == DeclaredOnly(Find(old(rows), k), k, t, run)
      {
        if k.name !in names {
          UndeclaredIsUntouched(Find(old(rows), k), k, written, t.sourcePath, run);
        }
        assert Find(upserted, k) == AfterEntries(Find(old(rows), k), k, written, t.sourcePath, run);
      }
    }

    /** Templates are visited in any order; the first failed write or listing ends the run. */
    method Reconcile(templates: map<string, Template>, run: RunData) returns (ok: bool, ghost written: seq<Entry>)
      modifies this
      ensures !ok ==> accepts == 0 || answers == 0 || exists p :: p in templates && Refused(EntriesOf(templates[p]))
      ensures ok ==> forall k :: Find(rows, k) == Reconciled(Find(old(rows), k), k, templates, run)
      ensures forall k :: LeftBehind(Find(old(rows), k), Find(rows, k), k, templates, run, written)
    {
      written := [];
      var todo := templates.Keys;
      while todo != {}
        invariant todo <= templates.Keys
        invariant forall k :: Find(rows, k) == if k.profile in templates && k.profile !in todo
                                               then Reconciled(Find(old(rows), k), k, templates, run) else Find(old(rows), k)
      {
        var profile :| profile in todo;
        todo := todo - {profile};
        var t := templates[profile];
        if !HasEntries(t) {
          continue;
        }
        ok, written := ReconcileProfile(profile, t, run);
        if !ok {
          return;
        }
      }
      var listed := List();
      if listed.None? {
        return false, written;
      }
      var orphans := set k | k in listed.value && k.profile !in templates && listed.value[k].active;
      ok := Deactivate(orphans, run.now);
    }
  }

  lemma NextCategory(all: seq<Category>, i: nat, written: seq<Entry>)
    requires i < |all| && CategoryEntries(all) == written + CategoryEntries(all[i..])
    ensures written <= CategoryEntries(all)
    ensures Slugify(all[i].caption) == "" ==> CategoryEntries(all) == written + CategoryEntries(all[i + 1..])
    ensures Slugify(all[i].caption) != "" ==>
              && CategoryEntries(all) == written + [CategoryEntry(all[i])] + CategoryEntries(all[i + 1..])
              && (CategoryEntry(all[i]).source !in {"webhook", "api"} ==> Refused(CategoryEntries(all)))
  {
    assert all[i..][1..] == all[i + 1..];
    if Slugify(all[i].caption) != "" {
      assert CategoryEntries(all)[|written|] == CategoryEntry(all[i]);
    }
  }

  lemma NextWidget(all: seq<Widget>, i: nat, written: seq<Entry>)
    requires i < |all| && WidgetEntries(all) == written + WidgetEntries(all[i..])
    ensures written <= WidgetEntries(all)
    ensures Slugify(all[i].caption) == "" ==> WidgetEntries(all) == written + WidgetEntries(all[i + 1..])
    ensures Slugify(all[i].caption) != "" ==>
              && WidgetEntries(all) == written + [WidgetEntry(all[i])] + WidgetEntries(all[i + 1..])
              && (WidgetEntry(all[i]).source !in {"webhook", "api"} ==> Refused(WidgetEntries(all)))
  {
    assert all[i..][1..] == all[i + 1..];
    if Slugify(all[i].caption) != "" {
      assert WidgetEntries(all)[|written|] == WidgetEntry(all[i]);
    }
  }

  /** One entry after the other has been upserted under a profile, and nothing else has changed. */
  ghost predicate Applied(before: Table, after: Table, profile: string, written: seq<Entry>, path: string, run: RunData) {
    forall k :: Find(after, k) == if k.profile == profile then AfterEntries(Find(before, k), k, written, path, run)
                                  else Find(before, k)
  }

  lemma AppliedOneMore(before: Table, mid: Table, profile: string, written: seq<Entry>, e: Entry, path: string, run: RunData)
    requires Applied(before, mid, profile, written, path, run)
    ensures var k := Key(profile, e.name);
            Applied(before, mid[k := Upserted(Find(mid, k), RowOf(k, e, path, run))], profile, written + [e], path, run)
  {
    forall k: Key | k.profile == profile
      ensures AfterEntries(Find(before, k), k, written + [e], path, run)
           == if k.name == e.name then Some(Upserted(Find(mid, k), RowOf(k, e, path, run))) else Find(mid, k)
    {
      AfterAppend(Find(before, k), k, written, [e], path, run);
      assert [e][1..] == [];
    }
  }

  lemma AppliedTwice(before: Table, mid: Table, after: Table, profile: string, a: seq<Entry>, b: seq<Entry>, path: string, run: RunData)
    requires Applied(before, mid, profile, a, path, run) && Applied(mid, after, profile, b, path, run)
    ensures Applied(before, after, profile, a + b, path, run)
  {
    forall k: Key | k.profile == profile
      ensures Find(after, k) == AfterEntries(Find(before, k), k, a + b, path, run)
    {
      AfterAppend(Find(before, k), k, a, b, path, run);
    }
  }

  lemma RefusedConcat(a: seq<Entry>, b: seq<Entry>)
    ensures Refused(a) || Refused(b) ==> Refused(a + b)
  {
    if Refused(a) {
      var i :| 0 <= i < |a| && a[i].source !in {"webhook", "api"};
      assert (a + b)[i] == a[i];
    } else if Refused(b) {
      var i :| 0 <= i < |b| && b[i].source !in {"webhook", "api"};
      assert (a + b)[|a| + i] == b[i];
    }
  }

  lemma DeclaresConcat(a: seq<Entry>, b: seq<Entry>)
    ensures forall n :: Declares(a + b, n) <==> Declares(a, n) || Declares(b, n)
  {
    forall n ensures Declares(a + b, n) <==> Declares(a, n) || Declares(b, n) {
      if Declares(a, n) {
        var i :| 0 <= i < |a| && a[i].name == n;
        assert (a + b)[i].name == n;
      }
      if Declares(b, n) {
        var i :| 0 <= i < |b| && b[i].name == n;
        assert (a + b)[|a| + i].name == n;
      }
    }
  }

  lemma DeclaresOneMore(a: seq<Entry>, e: Entry)
    ensures forall n :: Declares(a + [e], n) <==> Declares(a, n) || n == e.name
  {
    DeclaresConcat(a, [e]);
    assert [e][0].name == e.name;
  }
}
