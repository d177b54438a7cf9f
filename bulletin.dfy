/** The grade report ("bulletin") of cogs/notes.py:20-86: a read-only view over the JSON
    payload the grade portal returns for one student. Every accessor is a chain of
    subscripts into that payload and raises as Python would when the payload does not
    have the expected shape. */
module Bulletin {
  import opened Wrappers
  import opened Builtins
  import Storage

  /** A fetched report together with the profile whose credentials fetched it. */
  datatype Bulletin = Bulletin(profile: Storage.Profile, report: Json)

  /** Where the student's group record sits in the report. */
  const GroupPath: seq<string> := ["list1", "list1_Details_Group_Collection", "list1_Details_Group"]

  /** Where the list of grade rows sits in the report. */
  const RowsPath: seq<string> := GroupPath + ["table2", "Detail_Collection", "Detail"]

  /** An attribute of the group record: `X_Ecole` is the school (`ecole`), `X_AnnSco` the
      school year, `textbox10` the student's name, `niveau_LMD` the level, `textbox19` the rank text. */
  function GroupAttribute(b: Bulletin, name: string): Result<Json, Error> {
    Lookup(b.report, GroupPath + ["@attributes", name])
  }

  /** `bulletin.ecole`. */
  function School(b: Bulletin): Result<Json, Error> {
    GroupAttribute(b, "X_Ecole")
  }

  // ---------------------------------------------------------------------------------------
  // Grade rows
  // ---------------------------------------------------------------------------------------

  /** A row's grade: the pass marker ("Validé"), a number, or nothing. */
  datatype Grade = Pass | Number(value: real) | Absent

  /** Python truthiness of a row's "note": True, or a non-zero number. */
  predicate Graded(g: Grade) {
    g.Pass? || (g.Number? && g.value != 0.0)
  }

  /** One entry of `notes()`: "is_category", "code", "nom", "note" and "ECTS". */
  datatype Note = Note(isCategory: bool, code: string, name: string, grade: Grade, ects: Option<int>)

  /** `for matiere_sifi in notes_sifi`: a list yields its items. Iterating a dict yields its
      keys and iterating a string its characters, and the next line subscripts each of
      those strings by "@attributes", which raises TypeError: so only an empty dict or string
      gets through. Any other value is not iterable. */
  function RowsOf(v: Json): (r: Result<seq<Json>, Error>)
    ensures r.Ok? <==> v.JList? || v == JObj(map[]) || v == JStr("")
    ensures r.Ok? && v.JList? ==> r.value == v.items
    ensures r.Ok? && !v.JList? ==> r.value == []
    ensures r.Err? ==> r.error == TypeError
  {
    match v
    case JList(items) => Ok(items)
    case JObj(m) => if m == map[] then Ok([]) else Err(TypeError)
    case JStr(s) => if s == "" then Ok([]) else Err(TypeError)
    case _ => Err(TypeError)
  }

  /** The grade rows of the report. */
  function Rows(b: Bulletin): Result<seq<Json>, Error> {
    var v :- Lookup(b.report, RowsPath);
    RowsOf(v)
  }

  /** The attribute dict of a row (`vraie_matiere`), which must have a "textbox22" entry. */
  function RowAttributes(row: Json): (r: Result<map<string, Json>, Error>)
    ensures r.Ok? <==> row.JObj? && "@attributes" in row.fields && row.fields["@attributes"].JObj? &&
                       "textbox22" in row.fields["@attributes"].fields
    ensures r.Ok? ==> r.value == row.fields["@attributes"].fields && "textbox22" in r.value
    ensures r.Err? ==> r.error == (if row.JObj? && ("@attributes" !in row.fields || row.fields["@attributes"].JObj?)
                                   then KeyError else TypeError)
  {
    var attrs :- Index(row, "@attributes");
    match attrs
    case JObj(m) => if "textbox22" in m then Ok(m) else Err(KeyError)
    case _ => Err(TypeError)
  }

  /** A row is a category (a group of courses) when its credit field is the empty string. */
  predicate IsCategory(m: map<string, Json>)
    requires "textbox22" in m
  {
    m["textbox22"] == JStr("")
  }

  /** The grade text: "Validé" is a pass, other truthy values are converted by float(),
      and a missing or falsy value (None, "") is no grade. */
  function GradeOf(noteMaybe: Option<Json>): (r: Result<Grade, Error>)
    ensures r == Ok(Pass) <==> noteMaybe == Some(JStr("Validé"))
    ensures r == Ok(Absent) <==> noteMaybe.None? || !Truthy(noteMaybe.value)
    ensures r.Ok? && r.value.Number? ==> noteMaybe.Some? && ToFloat(noteMaybe.value) == Ok(r.value.value)
    ensures r.Err? <==> noteMaybe.Some? && noteMaybe.value != JStr("Validé") && Truthy(noteMaybe.value) &&
                        ToFloat(noteMaybe.value).Err?
  {
    if noteMaybe == Some(JStr("Validé")) then Ok(Pass)
    else if noteMaybe.Some? && Truthy(noteMaybe.value) then
      var x :- ToFloat(noteMaybe.value);
      Ok(Number(x))
    else
      Ok(Absent)
  }

  /** A grade given as text counts (is truthy) exactly when it is "Validé", or when it is a
      number with a non-zero digit: "0", "00.0" and "-0" are read but do not count. */
  lemma GradeTextCounts(t: string)
    requires GradeOf(Some(JStr(t))).Ok?
    ensures Graded(GradeOf(Some(JStr(t))).value) <==>
              t == "Validé" || (t != "" && !(AllZeros(NumberParts(t).1) && AllZeros(NumberParts(t).2)))
  {
    var g := GradeOf(Some(JStr(t)));
    if t != "" && t != "Validé" {
      assert g.value.Number? && ToFloat(JStr(t)) == Ok(g.value.value);
      ParseFloatZero(t);
    }
  }

  /** `value.strip()` of a row entry that must exist: KeyError when it is missing, and
      AttributeError when it is not a str. */
  function StrippedEntry(m: map<string, Json>, key: string): (r: Result<string, Error>)
    ensures r.Ok? <==> key in m && m[key].JStr?
    ensures r.Ok? ==> r.value == Strip(m[key].s)
    ensures r.Err? ==> r.error == (if key in m then AttributeError else KeyError)
  {
    if key in m then StripValue(m[key]) else Err(KeyError)
  }

  /** The credits: `int(textbox22)` when it is truthy, None otherwise. */
  function CreditsOf(v: Json): (r: Result<Option<int>, Error>)
    ensures r.Ok? <==> !Truthy(v) || ToInt(v).Ok?
    ensures r.Ok? ==> (r.value.None? <==> !Truthy(v))
    ensures r.Ok? && Truthy(v) ==> r.value == Some(ToInt(v).value)
    ensures r.Err? ==> r.error == ToInt(v).error
  {
    if Truthy(v) then
      var n :- ToInt(v);
      Ok(Some(n))
    else
      Ok(None)
  }

  /** The entry built from a row's attributes (lines 63-76), raising at the first field that fails. */
  function NoteOf(m: map<string, Json>): (r: Result<Note, Error>)
    requires "textbox22" in m
    ensures r.Ok? ==> (r.value.isCategory <==> m["textbox22"] == JStr(""))
    ensures r.Ok? ==> (r.value.ects.None? <==> !Truthy(m["textbox22"]))
  {
    match GradeOf(if "textbox52" in m then Some(m["textbox52"]) else None)
    case Err(e) => Err(e)
    case Ok(grade) =>
      match StrippedEntry(m, "textbox38")
      case Err(e) => Err(e)
      case Ok(code) =>
        match StrippedEntry(m, "textbox40")
        case Err(e) => Err(e)
        case Ok(name) =>
          match CreditsOf(m["textbox22"])
          case Err(e) => Err(e)
          case Ok(ects) => Ok(Note(IsCategory(m), code, name, grade, ects))
  }

  /** An entry carries its row's stripped code and name and its converted grade, and a
      category (empty credit field) never has credits. */
  lemma NoteOfFields(m: map<string, Json>)
    requires "textbox22" in m && NoteOf(m).Ok?
    ensures NoteOf(m).value.isCategory ==> NoteOf(m).value.ects.None?
    ensures "textbox38" in m && m["textbox38"].JStr? && NoteOf(m).value.code == Strip(m["textbox38"].s)
    ensures "textbox40" in m && m["textbox40"].JStr? && NoteOf(m).value.name == Strip(m["textbox40"].s)
    ensures GradeOf(if "textbox52" in m then Some(m["textbox52"]) else None) == Ok(NoteOf(m).value.grade)
    ensures NoteOf(m).value.ects == (if Truthy(m["textbox22"]) then Some(ToInt(m["textbox22"]).value) else None)
  {
  }

  /** Credits written as `str(n)` are read back as n. */
  lemma CreditsOfDecimal(n: nat)
    ensures CreditsOf(JStr(Decimal(n))) == Ok(Some(n))
  {
    ParseIntOfDecimal(n);
  }

  /** One iteration of the loop in `notes()`: the row's entry, or nothing for a category row
      when categories are not wanted (such a row is not read past its credit field). */
  function RowNote(row: Json, withCategories: bool): Result<Option<Note>, Error> {
    var m :- RowAttributes(row);
    if !IsCategory(m) || withCategories then
      var n :- NoteOf(m);
      Ok(Some(n))
    else
      Ok(None)
  }

  function Entries(o: Option<Note>): seq<Note> {
    if o.Some? then [o.value] else []
  }

  /** What `notes(get_categories)` computes from the rows: their entries in order, or the
      exception raised by the first row that fails. */
  function ParseNotes(rows: seq<Json>, withCategories: bool): Result<seq<Note>, Error>
    decreases |rows|
  {
    if rows == [] then Ok([])
    else
      var front :- ParseNotes(rows[..|rows| - 1], withCategories);
      var last :- RowNote(rows[|rows| - 1], withCategories);
      Ok(front + Entries(last))
  }

  /** What `bulletin.notes(get_categories)` returns. */
  function NotesOf(b: Bulletin, withCategories: bool): Result<seq<Note>, Error> {
    var rows :- Rows(b);
    ParseNotes(rows, withCategories)
  }

  /** Once a prefix of the rows raises, the whole list raises the same exception. */
  lemma {:induction false} ParseNotesErrorPersists(rows: seq<Json>, i: nat, withCategories: bool)
    requires i <= |rows| && ParseNotes(rows[..i], withCategories).Err?
    ensures ParseNotes(rows, withCategories) == ParseNotes(rows[..i], withCategories)
  {
    if i == |rows| {
      assert rows[..i] == rows;
    } else {
      var front := rows[..|rows| - 1];
      assert front[..i] == rows[..i];
      ParseNotesErrorPersists(front, i, withCategories);
    }
  }

  /** One more row: the prefix through row i raises what the prefix before it raises, then
      what row i raises, and otherwise adds row i's entries. */
  lemma ParseNotesStep(rows: seq<Json>, i: nat, withCategories: bool)
    requires i < |rows|
    ensures ParseNotes(rows[..i + 1], withCategories) ==
              match ParseNotes(rows[..i], withCategories)
              case Err(e) => Err(e)
              case Ok(front) =>
                match RowNote(rows[i], withCategories)
                case Err(e) => Err(e)
                case Ok(last) => Ok(front + Entries(last))
  {
    var prefix := rows[..i + 1];
    assert prefix[..|prefix| - 1] == rows[..i] && prefix[|prefix| - 1] == rows[i];
  }

  /** `bulletin.notes(get_categories)` (lines 54-78). */
  method Notes(b: Bulletin, withCategories: bool) returns (r: Result<seq<Note>, Error>)
    ensures r == NotesOf(b, withCategories)
  {
    var found := Rows(b);
    if found.Err? {
      return Err(found.error);
    }
    var rows := found.value;
    var parsed: seq<Note> := [];
    var i := 0;
    while i < |rows|
      invariant 0 <= i <= |rows|
      invariant ParseNotes(rows[..i], withCategories) == Ok(parsed)
    {
      var step := RowNote(rows[i], withCategories);
      ParseNotesStep(rows, i, withCategories);
      if step.Err? {
        ParseNotesErrorPersists(rows, i + 1, withCategories);
        return Err(step.error);
      }
      parsed := parsed + Entries(step.value);
      i := i + 1;
    }
    assert rows[..i] == rows;
    return Ok(parsed);
  }

  /** ParseNotes of a non-empty list that succeeds: its front succeeds and its last row adds its entry. */
  lemma ParseNotesLast(rows: seq<Json>, withCategories: bool)
    requires rows != [] && ParseNotes(rows, withCategories).Ok?
    ensures ParseNotes(rows[..|rows| - 1], withCategories).Ok?
    ensures RowNote(rows[|rows| - 1], withCategories).Ok?
    ensures ParseNotes(rows, withCategories).value ==
              ParseNotes(rows[..|rows| - 1], withCategories).value + Entries(RowNote(rows[|rows| - 1], withCategories).value)
  {
  }

  /** With categories, every row gives exactly one entry. */
  lemma {:induction false} NotesLength(rows: seq<Json>)
    requires ParseNotes(rows, true).Ok?
    ensures |ParseNotes(rows, true).value| == |rows|
    decreases |rows|
  {
    if rows != [] {
      ParseNotesLast(rows, true);
      assert RowNote(rows[|rows| - 1], true).value.Some?;
      NotesLength(rows[..|rows| - 1]);
    }
  }

  /** With categories, entry i of `notes()` is built from row i. */
  lemma {:induction false} NoteAtRow(rows: seq<Json>, i: nat)
    requires ParseNotes(rows, true).Ok? && i < |rows|
    ensures |ParseNotes(rows, true).value| == |rows|
    ensures RowNote(rows[i], true) == Ok(Some(ParseNotes(rows, true).value[i]))
    decreases |rows|
  {
    NotesLength(rows);
    var front := rows[..|rows| - 1];
    ParseNotesLast(rows, true);
    var ns := ParseNotes(rows, true).value;
    var fs := ParseNotes(front, true).value;
    var last := RowNote(rows[|rows| - 1], true);
    assert last.value.Some?;
    assert ns == fs + [last.value.value];
    if i < |front| {
      NoteAtRow(front, i);
      assert ns[i] == fs[i];
      assert RowNote(rows[i], true) == RowNote(front[i], true);
    } else {
      assert i == |rows| - 1;
      assert RowNote(rows[i], true) == last;
    }
  }

  /** With categories, `notes()` has one entry per row, in the rows' order, each built from its row. */
  lemma NotesOnePerRow(rows: seq<Json>)
    requires ParseNotes(rows, true).Ok?
    ensures |ParseNotes(rows, true).value| == |rows|
    ensures forall i :: 0 <= i < |rows| ==> RowNote(rows[i], true) == Ok(Some(ParseNotes(rows, true).value[i]))
  {
    NotesLength(rows);
    forall i | 0 <= i < |rows|
      ensures RowNote(rows[i], true) == Ok(Some(ParseNotes(rows, true).value[i]))
    {
      NoteAtRow(rows, i);
    }
  }

  /** Each entry of a row comes from that row's attributes. */
  lemma RowNoteOf(row: Json, withCategories: bool)
    requires RowNote(row, withCategories).Ok? && RowNote(row, withCategories).value.Some?
    ensures RowAttributes(row).Ok? && NoteOf(RowAttributes(row).value) == Ok(RowNote(row, withCategories).value.value)
  {
  }

  /** The entries that are not categories, in order. */
  function Courses(ns: seq<Note>): (r: seq<Note>)
    ensures forall n :: n in r ==> n in ns && !n.isCategory
    ensures forall n :: n in ns && !n.isCategory ==> n in r
  {
    if ns == [] then []
    else Courses(ns[..|ns| - 1]) + (if ns[|ns| - 1].isCategory then [] else [ns[|ns| - 1]])
  }

  /** Without categories, `notes()` gives exactly the non-category entries it gives with them. */
  lemma {:induction false} NotesWithoutCategories(rows: seq<Json>)
    requires ParseNotes(rows, true).Ok?
    ensures ParseNotes(rows, false) == Ok(Courses(ParseNotes(rows, true).value))
  {
    if rows != [] {
      var front, last := rows[..|rows| - 1], rows[|rows| - 1];
      ParseNotesLast(rows, true);
      NotesWithoutCategories(front);
      RowNoteWithoutCategories(last);
      var fs := ParseNotes(front, true).value;
      var n := RowNote(last, true).value.value;
      var ns := ParseNotes(rows, true).value;
      assert ns == fs + [n];
      assert ns[..|ns| - 1] == fs && ns[|ns| - 1] == n;
      assert Courses(ns) == Courses(fs) + (if n.isCategory then [] else [n]);
      assert ParseNotes(rows, false) == Ok(Courses(fs) + Entries(RowNote(last, false).value));
    }
  }

  /** A row read with categories gives one entry; read without them it gives the same entry,
      or none when that entry is a category. */
  lemma RowNoteWithoutCategories(row: Json)
    requires RowNote(row, true).Ok?
    ensures RowNote(row, true).value.Some?
    ensures RowNote(row, false) ==
              Ok(if RowNote(row, true).value.value.isCategory then None else RowNote(row, true).value)
  {
  }

  /** Without categories a category row is skipped before any of its fields is converted,
      so only its credit field has to read; with categories the same row raises exactly
      when its entry cannot be built. */
  lemma CategoryRowSkipped(row: Json)
    requires RowAttributes(row).Ok? && IsCategory(RowAttributes(row).value)
    ensures RowNote(row, false) == Ok(None)
    ensures RowNote(row, true).Err? <==> NoteOf(RowAttributes(row).value).Err?
  {
  }

  /** A report whose course rows all read gives its course list without categories, whatever
      its category rows hold. */
  lemma {:induction false} CoursesReadWithoutCategories(rows: seq<Json>)
    requires forall i :: 0 <= i < |rows| ==> RowAttributes(rows[i]).Ok?
    requires forall i :: 0 <= i < |rows| && !IsCategory(RowAttributes(rows[i]).value) ==>
               NoteOf(RowAttributes(rows[i]).value).Ok?
    ensures ParseNotes(rows, false).Ok?
    decreases |rows|
  {
    if rows != [] {
      var front := rows[..|rows| - 1];
      assert forall i :: 0 <= i < |front| ==> front[i] == rows[i];
      CoursesReadWithoutCategories(front);
      assert RowNote(rows[|rows| - 1], false).Ok?;
    }
  }

  /** A category row added at the end of a report leaves `notes(get_categories=False)` as it
      was, even when its grade or its fields cannot be read, while `notes()` then raises. */
  lemma CategoryRowAppended(rows: seq<Json>, row: Json)
    requires RowAttributes(row).Ok? && IsCategory(RowAttributes(row).value)
    ensures ParseNotes(rows + [row], false) == ParseNotes(rows, false)
    ensures NoteOf(RowAttributes(row).value).Err? ==> ParseNotes(rows + [row], true).Err?
  {
    var all := rows + [row];
    assert all[..|all| - 1] == rows && all[|all| - 1] == row;
    CategoryRowSkipped(row);
    if ParseNotes(rows, false).Ok? {
      assert ParseNotes(all, false) == Ok(ParseNotes(rows, false).value + []);
      assert ParseNotes(rows, false).value + [] == ParseNotes(rows, false).value;
    }
  }

  /** Dropping the categories never lets a failing report through: if the course rows raise,
      so does the full list. */
  lemma {:induction false} NotesWithoutCategoriesFails(rows: seq<Json>)
    requires ParseNotes(rows, false).Err?
    ensures ParseNotes(rows, true).Err?
  {
    if rows != [] {
      var front := rows[..|rows| - 1];
      if ParseNotes(front, false).Ok? {
        if ParseNotes(front, true).Ok? {
          NotesWithoutCategories(front);
        }
      } else {
        NotesWithoutCategoriesFails(front);
      }
    }
  }

  /** Without categories, no entry of `notes()` is a category. */
  lemma {:induction false} NotesWithoutCategoriesAreCourses(rows: seq<Json>)
    requires ParseNotes(rows, false).Ok?
    ensures forall n :: n in ParseNotes(rows, false).value ==> !n.isCategory
  {
    if rows != [] {
      NotesWithoutCategoriesAreCourses(rows[..|rows| - 1]);
    }
  }

  // ---------------------------------------------------------------------------------------
  // notes_count
  // ---------------------------------------------------------------------------------------

  /** The number of entries whose grade is truthy. */
  function CountGraded(ns: seq<Note>): nat {
    if ns == [] then 0
    else CountGraded(ns[..|ns| - 1]) + (if Graded(ns[|ns| - 1].grade) then 1 else 0)
  }

  /** The positions of the entries whose grade is truthy. */
  function GradedPositions(ns: seq<Note>): set<nat> {
    set i: nat | i < |ns| && Graded(ns[i].grade)
  }

  /** The count is the number of graded positions: a grade of 0 or no grade is not counted. */
  lemma {:induction false} CountGradedIsPositions(ns: seq<Note>)
    ensures CountGraded(ns) == |GradedPositions(ns)|
    ensures CountGraded(ns) <= |ns|
  {
    if ns != [] {
      var front := ns[..|ns| - 1];
      CountGradedIsPositions(front);
      var last := |ns| - 1;
      if Graded(ns[last].grade) {
        assert GradedPositions(ns) == GradedPositions(front) + {last};
      } else {
        assert GradedPositions(ns) == GradedPositions(front);
      }
    }
  }

  /** Counting is additive over concatenation. */
  lemma {:induction false} CountGradedAppend(a: seq<Note>, b: seq<Note>)
    ensures CountGraded(a + b) == CountGraded(a) + CountGraded(b)
  {
    if b != [] {
      var front := b[..|b| - 1];
      CountGradedAppend(a, front);
      var ab := a + b;
      assert ab[..|ab| - 1] == a + front && ab[|ab| - 1] == b[|b| - 1];
      assert CountGraded(ab) == CountGraded(a + front) + (if Graded(b[|b| - 1].grade) then 1 else 0);
    } else {
      assert a + b == a;
    }
  }

  /** What `bulletin.notes_count` computes: the graded course entries. */
  function NotesCountOf(b: Bulletin): Result<nat, Error> {
    var ns :- NotesOf(b, false);
    Ok(CountGraded(ns))
  }

  /** `notes_count` is the number of course (non-category) entries of the full list whose
      grade is truthy. */
  lemma NotesCountIsGradedCourses(b: Bulletin)
    requires NotesOf(b, true).Ok?
    ensures NotesCountOf(b) == Ok(|GradedPositions(Courses(NotesOf(b, true).value))|)
  {
    var rows := Rows(b).value;
    NotesWithoutCategories(rows);
    CountGradedIsPositions(Courses(NotesOf(b, true).value));
  }

  /** `bulletin.notes_count` (lines 80-86). */
  method NotesCount(b: Bulletin) returns (r: Result<nat, Error>)
    ensures r == NotesCountOf(b)
  {
    var notes := Notes(b, false);
    if notes.Err? {
      return Err(notes.error);
    }
    var ns := notes.value;
    var nb := 0;
    var i := 0;
    while i < |ns|
      invariant 0 <= i <= |ns|
      invariant nb == CountGraded(ns[..i])
    {
      assert ns[..i + 1][..i] == ns[..i];
      if Graded(ns[i].grade) {
        nb := nb + 1;
      }
      i := i + 1;
    }
    assert ns[..i] == ns;
    return Ok(nb);
  }

  // ---------------------------------------------------------------------------------------
  // rang: the first "<1-3 digits> / <1-3 digits>" in the rank text
  // ---------------------------------------------------------------------------------------

  /** Every character of s[from..to] is a digit. */
  predicate DigitsBetween(s: string, from: nat, to: nat) {
    from <= to <= |s| && forall t :: from <= t < to ==> IsDigit(s[t])
  }

  /** The separator " / " starts at position at. */
  predicate SeparatorAt(s: string, at: nat) {
    at + 3 <= |s| && s[at] == ' ' && s[at + 1] == '/' && s[at + 2] == ' '
  }

  /** The pattern `(\d{1,3}) \/ (\d{1,3})` occurs at position i with groups of k and l digits. */
  predicate GroupsAt(s: string, i: nat, k: nat, l: nat) {
    1 <= k <= 3 && 1 <= l <= 3 &&
    DigitsBetween(s, i, i + k) && SeparatorAt(s, i + k) && DigitsBetween(s, i + k + 3, i + k + 3 + l)
  }

  /** The value of the digits s[from..to]. */
  function GroupValue(s: string, from: nat, to: nat): nat
    requires DigitsBetween(s, from, to)
  {
    assert AllDigits(s[from..to]);
    DigitsValue(s[from..to])
  }

  /** The number of digits at s[from..], at most max. */
  function DigitRun(s: string, from: nat, max: nat): (n: nat)
    requires from <= |s|
    ensures n <= max && DigitsBetween(s, from, from + n)
    ensures from + n < |s| && n < max ==> !IsDigit(s[from + n])
    decreases max
  {
    if max == 0 || from == |s| || !IsDigit(s[from]) then 0
    else 1 + DigitRun(s, from + 1, max - 1)
  }

  /** A first group of exactly k digits at i followed by " / " and a digit. */
  predicate FirstGroupFits(s: string, i: nat, k: nat) {
    DigitsBetween(s, i, i + k) && SeparatorAt(s, i + k) && i + k + 3 < |s| && IsDigit(s[i + k + 3])
  }

  /** The regex tried at position i, greedy in both groups: the longest first group that
      lets the rest match, then the longest second group. */
  function MatchAt(s: string, i: nat): (r: Option<(nat, nat)>)
    ensures r.Some? ==> GroupsAt(s, i, r.value.0, r.value.1)
  {
    if FirstGroupFits(s, i, 3) then Some((3, DigitRun(s, i + 6, 3)))
    else if FirstGroupFits(s, i, 2) then Some((2, DigitRun(s, i + 5, 3)))
    else if FirstGroupFits(s, i, 1) then Some((1, DigitRun(s, i + 4, 3)))
    else None
  }

  /** A run of l digits is counted whole when the limit allows it. */
  lemma {:induction false} DigitRunCovers(s: string, from: nat, max: nat, l: nat)
    requires l <= max && DigitsBetween(s, from, from + l)
    ensures l <= DigitRun(s, from, max)
    decreases max
  {
    if l > 0 {
      DigitRunCovers(s, from + 1, max - 1, l - 1);
    }
  }

  /** MatchAt finds a match whenever the pattern occurs at i, and takes the longest groups. */
  lemma MatchAtComplete(s: string, i: nat, k: nat, l: nat)
    requires GroupsAt(s, i, k, l)
    ensures MatchAt(s, i).Some?
    ensures k <= MatchAt(s, i).value.0
    ensures k == MatchAt(s, i).value.0 ==> l <= MatchAt(s, i).value.1
  {
    assert FirstGroupFits(s, i, k);
    DigitRunCovers(s, i + k + 3, 3, l);
  }

  /** `re.search`: the leftmost position at or after i where the pattern occurs. */
  function SearchFrom(s: string, i: nat): (r: Option<(nat, nat, nat)>)
    ensures r.Some? ==> i <= r.value.0 && MatchAt(s, r.value.0) == Some((r.value.1, r.value.2))
    ensures r.Some? ==> forall j :: i <= j < r.value.0 ==> MatchAt(s, j).None?
    ensures r.None? ==> forall j :: i <= j ==> MatchAt(s, j).None?
    decreases |s| - i
  {
    if i >= |s| then None
    else match MatchAt(s, i)
      case Some((k, l)) => Some((i, k, l))
      case None => SearchFrom(s, i + 1)
  }

  /** `rang` on the rank text: the two numbers of the first match; without a match
      `match.group` is called on None and raises AttributeError. */
  function RankOf(text: string): Result<(nat, nat), Error> {
    match SearchFrom(text, 0)
    case None => Err(AttributeError)
    case Some((p, k, l)) => Ok((GroupValue(text, p, p + k), GroupValue(text, p + k + 3, p + k + 3 + l)))
  }

  /** `bulletin.rang` (lines 41-48): re.search raises TypeError on a value that is not text. */
  function Rank(b: Bulletin): Result<(nat, nat), Error> {
    var v :- GroupAttribute(b, "textbox19");
    if v.JStr? then RankOf(v.s) else Err(TypeError)
  }

  /** A digit string of at most three digits is below 1000. */
  lemma {:induction false} ShortDigitsBelow1000(s: string)
    requires AllDigits(s) && |s| <= 3
    ensures DigitsValue(s) < Pow10(|s|) <= 1000
  {
    if s != [] {
      ShortDigitsBelow1000(s[..|s| - 1]);
    }
  }

  /** A group of at most three digits is worth less than 1000. */
  lemma GroupBelow1000(s: string, from: nat, to: nat)
    requires DigitsBetween(s, from, to) && to - from <= 3
    ensures GroupValue(s, from, to) < 1000
  {
    ShortDigitsBelow1000(s[from..to]);
  }

  /** Reading the rank raises exactly when the text has no occurrence of the pattern. */
  lemma RankOfFails(s: string)
    ensures RankOf(s).Err? <==> forall p: nat, k: nat, l: nat :: !GroupsAt(s, p, k, l)
  {
    if SearchFrom(s, 0).None? {
      forall p: nat, k: nat, l: nat | GroupsAt(s, p, k, l) ensures false {
        MatchAtComplete(s, p, k, l);
      }
    } else {
      var (p, k, l) := SearchFrom(s, 0).value;
      assert GroupsAt(s, p, k, l);
    }
  }

  /** The rank read is the pair of numbers of an occurrence with none further left, whose
      groups are the longest that occur there (as the greedy `\d{1,3}` takes them), and both
      are below 1000. */
  lemma RankOfLeftmost(s: string)
    requires RankOf(s).Ok?
    ensures exists p: nat, k: nat, l: nat :: GroupsAt(s, p, k, l) &&
              RankOf(s).value == (GroupValue(s, p, p + k), GroupValue(s, p + k + 3, p + k + 3 + l)) &&
              (forall p': nat, k': nat, l': nat :: p' < p ==> !GroupsAt(s, p', k', l')) &&
              (forall k': nat, l': nat :: GroupsAt(s, p, k', l') ==> k' <= k && (k' == k ==> l' <= l))
    ensures RankOf(s).value.0 < 1000 && RankOf(s).value.1 < 1000
  {
    var (p, k, l) := SearchFrom(s, 0).value;
    assert GroupsAt(s, p, k, l);
    GroupBelow1000(s, p, p + k);
    GroupBelow1000(s, p + k + 3, p + k + 3 + l);
    forall p': nat, k': nat, l': nat | p' < p && GroupsAt(s, p', k', l') ensures false {
      MatchAtComplete(s, p', k', l');
    }
    forall k': nat, l': nat | GroupsAt(s, p, k', l') ensures k' <= k && (k' == k ==> l' <= l) {
      MatchAtComplete(s, p, k', l');
    }
  }

  /** The rank is read from the leftmost occurrence of the pattern, with the longest groups
      there, both numbers are below 1000, and the text has no occurrence at all exactly when
      reading it raises. */
  lemma RankOfSpec(s: string)
    ensures RankOf(s).Err? <==> forall p: nat, k: nat, l: nat :: !GroupsAt(s, p, k, l)
    ensures RankOf(s).Ok? ==> RankOf(s).value.0 < 1000 && RankOf(s).value.1 < 1000
    ensures RankOf(s).Ok? ==>
              exists p: nat, k: nat, l: nat :: GroupsAt(s, p, k, l) &&
                RankOf(s).value == (GroupValue(s, p, p + k), GroupValue(s, p + k + 3, p + k + 3 + l)) &&
                (forall p': nat, k': nat, l': nat :: p' < p ==> !GroupsAt(s, p', k', l')) &&
                (forall k': nat, l': nat :: GroupsAt(s, p, k', l') ==> k' <= k && (k' == k ==> l' <= l))
  {
    RankOfFails(s);
    if RankOf(s).Ok? {
      RankOfLeftmost(s);
    }
  }

  /** The pattern cannot start on a character that is not a digit. */
  lemma NoMatchAtNonDigit(s: string, i: nat)
    requires i < |s| && !IsDigit(s[i])
    ensures MatchAt(s, i).None?
  {
    assert !DigitsBetween(s, i, i + 3) && !DigitsBetween(s, i, i + 2) && !DigitsBetween(s, i, i + 1);
  }

  /** The search skips a stretch of text without digits. */
  lemma {:induction false} SearchSkips(s: string, i: nat, j: nat)
    requires i <= j <= |s|
    requires forall p :: i <= p < j ==> !IsDigit(s[p])
    ensures SearchFrom(s, i) == SearchFrom(s, j)
    decreases j - i
  {
    if i < j {
      NoMatchAtNonDigit(s, i);
      assert SearchFrom(s, i) == SearchFrom(s, i + 1);
      SearchSkips(s, i + 1, j);
    }
  }

  /** The value of a string of one to three digits, digit by digit. */
  lemma DigitsValueShort(g: string)
    requires AllDigits(g) && 1 <= |g| <= 3
    ensures |g| == 1 ==> DigitsValue(g) == DigitValue(g[0])
    ensures |g| == 2 ==> DigitsValue(g) == 10 * DigitValue(g[0]) + DigitValue(g[1])
    ensures |g| == 3 ==> DigitsValue(g) == 100 * DigitValue(g[0]) + 10 * DigitValue(g[1]) + DigitValue(g[2])
  {
    var f1 := g[..1];
    assert f1[..0] == [];
    if |g| >= 2 {
      var f2 := g[..2];
      assert f2[..1] == f1;
      if |g| == 3 {
        assert g[..2] == f2;
      }
    }
  }

  /** The value of a group of one to three digits, digit by digit. */
  lemma GroupValueShort(s: string, from: nat, to: nat)
    requires DigitsBetween(s, from, to) && 1 <= to - from <= 3
    ensures to - from == 1 ==> GroupValue(s, from, to) == DigitValue(s[from])
    ensures to - from == 2 ==> GroupValue(s, from, to) == 10 * DigitValue(s[from]) + DigitValue(s[from + 1])
    ensures to - from == 3 ==>
              GroupValue(s, from, to) == 100 * DigitValue(s[from]) + 10 * DigitValue(s[from + 1]) + DigitValue(s[from + 2])
  {
    var g := s[from..to];
    assert g[0] == s[from];
    assert |g| >= 2 ==> g[1] == s[from + 1];
    assert |g| == 3 ==> g[2] == s[from + 2];
    DigitsValueShort(g);
  }

  /** In "Rang : 8 / 209" the pattern first occurs at position 7, with groups of one and three digits. */
  lemma RankExampleSearch(s: string)
    requires s == "Rang : 8 / 209"
    ensures SearchFrom(s, 0) == Some((7, 1, 3))
  {
    assert !IsDigit(s[0]) && !IsDigit(s[1]) && !IsDigit(s[2]) && !IsDigit(s[3]);
    assert !IsDigit(s[4]) && !IsDigit(s[5]) && !IsDigit(s[6]);
    SearchSkips(s, 0, 7);
    assert s[7] == '8' && s[8] == ' ' && s[9] == '/' && s[10] == ' ';
    assert s[11] == '2' && s[12] == '0' && s[13] == '9';
    assert !FirstGroupFits(s, 7, 3) && !FirstGroupFits(s, 7, 2);
    assert FirstGroupFits(s, 7, 1);
    assert DigitRun(s, 11, 3) == 3;
  }

  /** The two groups of "Rang : 8 / 209" are worth 8 and 209. */
  lemma RankExampleGroups(s: string)
    requires s == "Rang : 8 / 209"
    ensures DigitsBetween(s, 7, 8) && GroupValue(s, 7, 8) == 8
    ensures DigitsBetween(s, 11, 14) && GroupValue(s, 11, 14) == 209
  {
    assert s[7] == '8' && s[11] == '2' && s[12] == '0' && s[13] == '9';
    GroupValueShort(s, 7, 8);
    GroupValueShort(s, 11, 14);
  }

  /** The rank text "Rang : 8 / 209" reads as (8, 209). */
  lemma RankExample()
    ensures RankOf("Rang : 8 / 209") == Ok((8, 209))
  {
    var s := "Rang : 8 / 209";
    RankExampleSearch(s);
    RankExampleGroups(s);
  }

  /** In "1234 / 5" the pattern cannot start at the first digit, whose run is four digits
      long, and first occurs at position 1 with groups of three digits and one digit. */
  lemma RankLongRunSearch(s: string)
    requires s == "1234 / 5"
    ensures SearchFrom(s, 0) == Some((1, 3, 1))
  {
    assert s[0] == '1' && s[1] == '2' && s[2] == '3' && s[3] == '4';
    assert s[4] == ' ' && s[5] == '/' && s[6] == ' ' && s[7] == '5';
    assert !SeparatorAt(s, 3) && !SeparatorAt(s, 2) && !SeparatorAt(s, 1);
    assert !FirstGroupFits(s, 0, 3) && !FirstGroupFits(s, 0, 2) && !FirstGroupFits(s, 0, 1);
    assert FirstGroupFits(s, 1, 3);
    assert DigitRun(s, 7, 3) == 1;
  }

  /** The two groups found in "1234 / 5" are worth 234 and 5. */
  lemma RankLongRunGroups(s: string)
    requires s == "1234 / 5"
    ensures DigitsBetween(s, 1, 4) && GroupValue(s, 1, 4) == 234
    ensures DigitsBetween(s, 7, 8) && GroupValue(s, 7, 8) == 5
  {
    assert s[1] == '2' && s[2] == '3' && s[3] == '4' && s[7] == '5';
    GroupValueShort(s, 1, 4);
    GroupValueShort(s, 7, 8);
  }

  /** A leading run of four digits is not a group: "1234 / 5" reads as (234, 5). */
  lemma RankLongRunExample()
    ensures RankOf("1234 / 5") == Ok((234, 5))
  {
    var s := "1234 / 5";
    RankLongRunSearch(s);
    RankLongRunGroups(s);
  }
}
