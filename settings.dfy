/**
 * `format_settings_for_agents` (main.py:223-258), the text the agents get
 * about the district, and the step of `main` that loads the criteria and
 * the settings text and falls back to error texts when that raises
 * (main.py:338-346).
 */
module Settings {
  import opened Common
  import opened Text
  import opened Json
  import Criteria

  const NoSettings := "No district settings available."
  const Header := "DISTRICT CONTEXT AND SETTINGS:\n\n"
  const NotesHeading := "Important Community Notes:\n"
  const CriteriaError := "ERROR: Failed to load district criteria."
  const SettingsError := "ERROR: Failed to load district settings."

  // ---------------------------------------------------------------------
  // The pieces of the rendering

  /** `f"- {caption}: {value}{suffix}\n"`. */
  function Line(caption: string, value: string, suffix: string): string {
    "- " + caption + ": " + value + suffix + "\n"
  }

  /** `str(section.get(key, 'N/A'))`. */
  function FieldOr(section: seq<(string, Json)>, key: string): (r: string)
    ensures Lookup(section, key).None? ==> r == "N/A"
    ensures Lookup(section, key).Some? ==> r == Show(Lookup(section, key).value)
  {
    match Lookup(section, key)
    case Some(v) => Show(v)
    case None => "N/A"
  }

  /** `settings.get(name, {})`, which must be a dict for its own `.get` to work. */
  function SectionOf(settings: Json, name: string): Result<seq<(string, Json)>, PyError> {
    match DictGet(settings, name, JDict([]))
    case Ok(JDict(entries)) => Ok(entries)
    case Ok(_) => Err(AttributeError)
    case Err(e) => Err(e)
  }

  /** The notes iterated over: none when `settings.get('notes', [])` is falsy. */
  function NotesOf(settings: Json): Result<seq<Json>, PyError> {
    match DictGet(settings, "notes", JList([]))
    case Ok(notes) => if Truthy(notes) then Iterate(notes) else Ok([])
    case Err(e) => Err(e)
  }

  /** The settings on which the formatting raises once it is past the falsy check. */
  predicate FormatRaises(settings: Json) {
    || !settings.JDict?
    || SectionOf(settings, "snow_days").Err?
    || SectionOf(settings, "community").Err?
    || SectionOf(settings, "current").Err?
    || NotesOf(settings).Err?
  }

  function SnowDayBlock(s: seq<(string, Json)>): string {
    "Snow Day Status:\n"
    + Line("Allotted snow days", FieldOr(s, "allotted"), "")
    + Line("Used snow days", FieldOr(s, "used"), "")
    + "\n"
  }

  function CommunityBlock(c: seq<(string, Json)>): string {
    "Community Context:\n"
    + Line("State", FieldOr(c, "state"), "")
    + Line("Community type", FieldOr(c, "type"), "")
    + Line("Winter experience", FieldOr(c, "winter_experience"), "")
    + Line("Bus dependent students", FieldOr(c, "bus_dependent_percentage"), "%")
    + "\n"
  }

  function ConditionsBlock(c: seq<(string, Json)>): string {
    "Current Conditions:\n"
    + Line("Community hype level", FieldOr(c, "hype_level"), "/10")
    + Line("Nearby district closures", FieldOr(c, "nearby_closures"), "")
    + Line("Social media activity", FieldOr(c, "social_media_buzz"), "")
    + "\n"
  }

  /** `f"- {note}\n"`. */
  function NoteLine(note: Json): string {
    "- " + Show(note) + "\n"
  }

  /** One line per note, in order. */
  function NoteLines(notes: seq<Json>): string {
    if notes == [] then "" else NoteLine(notes[0]) + NoteLines(notes[1..])
  }

  /** The notes section: absent without notes, otherwise its heading and the note lines. */
  function NotesBlock(notes: seq<Json>): string {
    if notes == [] then "" else NotesHeading + NoteLines(notes)
  }

  lemma {:induction false} NoteLinesAppend(a: seq<Json>, b: seq<Json>)
    ensures NoteLines(a + b) == NoteLines(a) + NoteLines(b)
  {
    if a == [] {
      assert a + b == b;
    } else {
      assert (a + b)[1..] == a[1..] + b;
      NoteLinesAppend(a[1..], b);
    }
  }

  lemma NoteLinesSnoc(a: seq<Json>, note: Json)
    ensures NoteLines(a + [note]) == NoteLines(a) + NoteLine(note)
  {
    NoteLinesAppend(a, [note]);
    assert NoteLines([note]) == NoteLine(note) + NoteLines([]);
  }

  /** The lines of the first `i + 1` notes are those of the first `i` and the line of note `i`. */
  lemma NoteLinesStep(notes: seq<Json>, i: nat)
    requires i < |notes|
    ensures NoteLines(notes[..i + 1]) == NoteLines(notes[..i]) + NoteLine(notes[i])
  {
    assert notes[..i + 1] == notes[..i] + [notes[i]];
    NoteLinesSnoc(notes[..i], notes[i]);
  }

  /**
   * The note lines of a list are its first note's line followed by the rest,
   * so line `k` of the section is the line of note `k`.
   */
  lemma {:induction false} NoteLinesAt(notes: seq<Json>, k: nat)
    requires k < |notes|
    ensures NoteLines(notes) == NoteLines(notes[..k]) + NoteLine(notes[k]) + NoteLines(notes[k + 1..])
  {
    assert notes == notes[..k] + notes[k..];
    NoteLinesAppend(notes[..k], notes[k..]);
    assert notes[k..][1..] == notes[k + 1..];
  }

  /** The notes section appears exactly when the `notes` setting is truthy. */
  lemma NotesSectionIffTruthy(settings: Json)
    requires settings.JDict? && NotesOf(settings).Ok?
    ensures NotesBlock(NotesOf(settings).value) != "" <==> Truthy(DictGet(settings, "notes", JList([])).value)
  {
  }

  /** The whole text for settings the formatter does not raise on. */
  function Render(settings: Json): string
    requires !FormatRaises(settings)
  {
    Header
    + SnowDayBlock(SectionOf(settings, "snow_days").value)
    + CommunityBlock(SectionOf(settings, "community").value)
    + ConditionsBlock(SectionOf(settings, "current").value)
    + NotesBlock(NotesOf(settings).value)
  }

  // ---------------------------------------------------------------------
  // The formatter

  /** The `for note in notes` loop: one line per note appended, in order. */
  method AppendNotes(formatted: string, notes: seq<Json>) returns (out: string)
    ensures out == formatted + NoteLines(notes)
  {
    out := formatted;
    for i := 0 to |notes|
      invariant out == formatted + NoteLines(notes[..i])
    {
      NoteLinesStep(notes, i);
      ConcatAssoc(formatted, NoteLines(notes[..i]), NoteLine(notes[i]));
      out := out + NoteLine(notes[i]);
    }
    assert notes[..|notes|] == notes;
  }

  /** The header and the three sections, or None when a section is not a dict. */
  method FormatSections(settings: Json) returns (r: Option<string>)
    requires settings.JDict?
    ensures r.None? <==>
      SectionOf(settings, "snow_days").Err? || SectionOf(settings, "community").Err? || SectionOf(settings, "current").Err?
    ensures r.Some? ==>
      r.value == Header
        + SnowDayBlock(SectionOf(settings, "snow_days").value)
        + CommunityBlock(SectionOf(settings, "community").value)
        + ConditionsBlock(SectionOf(settings, "current").value)
  {
    var formatted := Header;

    var snowDays := SectionOf(settings, "snow_days");
    if snowDays.Err? {
      return None;
    }
    formatted := formatted + SnowDayBlock(snowDays.value);

    var community := SectionOf(settings, "community");
    if community.Err? {
      return None;
    }
    formatted := formatted + CommunityBlock(community.value);

    var current := SectionOf(settings, "current");
    if current.Err? {
      return None;
    }
    formatted := formatted + ConditionsBlock(current.value);
    return Some(formatted);
  }

  /**
   * Renders the settings, or returns None where Python raises. Falsy
   * settings render as the fixed "no settings" text; otherwise the header
   * comes first, then the three sections with `N/A` for every missing
   * field, then the notes section when there are notes.
   */
  method FormatSettingsForAgents(settings: Json) returns (r: Option<string>)
    ensures !Truthy(settings) ==> r == Some(NoSettings)
    ensures Truthy(settings) ==> (r.None? <==> FormatRaises(settings))
    ensures Truthy(settings) && !FormatRaises(settings) ==> r == Some(Render(settings))
  {
    if !Truthy(settings) {
      return Some(NoSettings);
    }
    if !settings.JDict? {
      // `settings.get` is an AttributeError on anything but a dict
      return None;
    }
    var head := FormatSections(settings);
    if head.None? {
      return None;
    }
    var notes := FormatNotes(settings);
    if notes.None? {
      return None;
    }
    return Some(head.value + notes.value);
  }

  /** The notes section, or None when the notes cannot be iterated. */
  method FormatNotes(settings: Json) returns (r: Option<string>)
    requires settings.JDict?
    ensures r.None? <==> NotesOf(settings).Err?
    ensures r.Some? ==> r.value == NotesBlock(NotesOf(settings).value)
  {
    var notes := DictGet(settings, "notes", JList([])).value;
    if !Truthy(notes) {
      return Some("");
    }
    var items := Iterate(notes);
    if items.Err? {
      // `for note in notes` on a number or a boolean is a TypeError
      return None;
    }
    var section := AppendNotes(NotesHeading, items.value);
    return Some(section);
  }

  /**
   * The district context `main` hands the agents: the criteria and the
   * settings text, or the two error texts when formatting the settings
   * raised. `files` stands for the criteria files and `settings` for what
   * `read_settings` returned (an empty dict when the YAML could not be read).
   */
  method LoadDistrictContext(files: map<string, string>, settings: Json)
    returns (criteria: string, settingsText: string)
    ensures Truthy(settings) && FormatRaises(settings) ==>
      criteria == CriteriaError && settingsText == SettingsError
    ensures !Truthy(settings) ==> Criteria.Chosen(files, criteria) && settingsText == NoSettings
    ensures Truthy(settings) && !FormatRaises(settings) ==>
      Criteria.Chosen(files, criteria) && settingsText == Render(settings)
  {
    criteria := Criteria.ReadCriteria(files);
    var formatted := FormatSettingsForAgents(settings);
    match formatted {
      case None =>
        criteria := CriteriaError;
        settingsText := SettingsError;
      case Some(text) =>
        settingsText := text;
    }
  }
}
