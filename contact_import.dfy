/**
 * Contact entry in the desktop sender (attached_assets/novint.py): the
 * bulk-add dialog of ContactsTab.add_bulk_contacts and the TXT and CSV
 * imports of ContactsTab.import_contacts.
 *
 * The database insert add_contact is an oracle `insertOk`, indexed by the
 * number of inserts tried so far: true when the row was written, false when
 * it raised. The bulk dialog counts a raising insert as failed and goes on;
 * the file imports catch the exception around the whole loop, so the first
 * raising insert ends the import, and the rows written before it stay.
 */
module ContactImport {
  import opened Wrappers
  import opened Text

  /** The arguments of one add_contact call. */
  datatype NewContact = NewContact(name: string, contact: string)

  predicate NoSpace(s: string) {
    forall i :: 0 <= i < |s| ==> !IsSpace(s[i])
  }

  /** The first whitespace position of s. */
  function FirstSpace(s: string): (r: Option<nat>)
    ensures r.None? ==> NoSpace(s)
    ensures r.Some? ==> r.value < |s| && IsSpace(s[r.value]) && forall j :: 0 <= j < r.value ==> !IsSpace(s[j])
  {
    if s == [] then None
    else if IsSpace(s[0]) then Some(0)
    else
      var rest := FirstSpace(s[1..]);
      if rest.None? then None else Some(rest.value + 1)
  }

  /** The name shown for a contact typed alone: a user name without its '@', anything else as typed. */
  function DefaultName(contact: string): string {
    if contact != [] && contact[0] == '@' then contact[1..] else contact
  }

  /** A string that starts with a non-space strips to its prefix without the trailing whitespace. */
  lemma TrimPrefix(s: string)
    requires s != [] && !IsSpace(s[0])
    ensures Trim(s) == TrimEnd(s) && Trim(s) != [] && Trim(s) == s[..|Trim(s)|]
  {
  }

  // ---- the bulk-add dialog ----

  /** A line after str.strip(): empty, or starting and ending with a non-space. */
  predicate Stripped(t: string) {
    t == [] || (!IsSpace(t[0]) && !IsSpace(t[|t| - 1]))
  }

  /**
   * A stripped, non-blank pasted line: the identifier is the stripped text
   * before the first space and the name the stripped text after it, or the
   * default name when there is no space.
   */
  function BulkFields(t: string): NewContact {
    match IndexOf(t, ' ')
    case None => NewContact(DefaultName(t), Trim(t))
    case Some(i) => NewContact(Trim(t[i + 1..]), Trim(t[..i]))
  }

  /** One pasted line: blank lines give nothing. */
  function BulkLine(line: string): Option<NewContact> {
    var t := Trim(line);
    if t == [] then None else Some(BulkFields(t))
  }

  /** A stripped string strips to itself. */
  lemma TrimStripped(t: string)
    requires Stripped(t)
    ensures Trim(t) == t
  {
  }

  /** A stripped line without a space is the identifier itself, with its default name. */
  lemma BulkFieldsWord(t: string)
    requires t != [] && Stripped(t) && forall j :: 0 <= j < |t| ==> t[j] != ' '
    ensures BulkFields(t) == NewContact(DefaultName(t), t)
  {
    TrimStripped(t);
  }

  /**
   * The two parts around the first space of a stripped line: the
   * identifier part strips to a non-empty, space-free prefix of itself, and
   * the name part to a non-empty string.
   */
  lemma PairParts(before: string, after: string)
    requires before != [] && !IsSpace(before[0]) && (forall j :: 0 <= j < |before| ==> before[j] != ' ')
    requires after != [] && !IsSpace(after[|after| - 1])
    ensures var c := Trim(before);
            && c != [] && c == before[..|c|] && (forall j :: 0 <= j < |c| ==> c[j] != ' ')
    ensures Trim(after) != []
  {
    TrimPrefix(before);
    TrimKeepsNonSpace(after, |after| - 1);
  }

  /**
   * With its first space at i, a stripped line is the identifier part, the
   * space and the name part, both parts non-empty, with the identifier part
   * free of spaces and starting, and the name part ending, with a non-space;
   * the contact is the two parts stripped.
   */
  lemma BulkFieldsSplit(t: string, i: nat)
    requires t != [] && Stripped(t) && IndexOf(t, ' ') == Some(i)
    ensures var before, after := t[..i], t[i + 1..];
            && t == before + " " + after
            && before != [] && !IsSpace(before[0]) && (forall j :: 0 <= j < |before| ==> before[j] != ' ')
            && after != [] && !IsSpace(after[|after| - 1])
            && BulkFields(t) == NewContact(Trim(after), Trim(before))
  {
    assert t == t[..i] + " " + t[i + 1..];
  }

  /** The lines that `parse` accepts, parsed, in order. */
  function Entries(lines: seq<string>, parse: string -> Option<NewContact>): seq<NewContact> {
    if lines == [] then []
    else
      var rest := Entries(lines[..|lines| - 1], parse);
      match parse(lines[|lines| - 1])
      case None => rest
      case Some(e) => rest + [e]
  }

  /** The non-blank pasted lines, parsed, in order. */
  function BulkEntries(lines: seq<string>): seq<NewContact> {
    Entries(lines, BulkLine)
  }

  /** The entries whose insert succeeded, attempt k being the k-th entry. */
  function Inserted(entries: seq<NewContact>, insertOk: nat -> bool): (r: seq<NewContact>)
    ensures |r| <= |entries|
  {
    if entries == [] then []
    else
      Inserted(entries[..|entries| - 1], insertOk)
      + (if insertOk(|entries| - 1) then [entries[|entries| - 1]] else [])
  }

  /** How many lines of `lines` are not blank. */
  function NonBlank(lines: seq<string>): nat {
    if lines == [] then 0
    else NonBlank(lines[..|lines| - 1]) + (if Trim(lines[|lines| - 1]) == [] then 0 else 1)
  }

  /** Every non-blank line gives exactly one entry. */
  lemma {:induction false} BulkEntriesCount(lines: seq<string>)
    ensures |BulkEntries(lines)| == NonBlank(lines)
  {
    if lines != [] {
      BulkEntriesCount(lines[..|lines| - 1]);
    }
  }

  /** What the bulk dialog reports once the loop is over. */
  datatype BulkReport = BulkReport(added: seq<NewContact>, successful: nat, failed: nat)

  /** The error of an empty paste. */
  const EmptyList := "Список контактов не может быть пустым!"

  /**
   * add_bulk_contacts after the dialog is accepted: reject an empty paste,
   * then try every non-blank line once, counting the inserts that worked
   * and those that raised.
   */
  method AddBulkContacts(text: string, insertOk: nat -> bool) returns (r: Result<BulkReport, string>)
    ensures r.Err? <==> Trim(text) == []
    ensures r.Err? ==> r.error == EmptyList
    ensures r.Ok? ==>
              var entries := BulkEntries(Split(Trim(text), '\n'));
              && r.value.added == Inserted(entries, insertOk)
              && r.value.successful == |r.value.added|
              && r.value.successful + r.value.failed == |entries|
  {
    var contactsText := Trim(text);
    if contactsText == [] {
      return Err(EmptyList);
    }
    var report := AddLines(Split(contactsText, '\n'), BulkLine, insertOk);
    r := Ok(report);
  }

  /** The loop of add_bulk_contacts over the lines of the paste, `parse` reading one line. */
  method AddLines(lines: seq<string>, parse: string -> Option<NewContact>, insertOk: nat -> bool) returns (r: BulkReport)
    ensures r.added == Inserted(Entries(lines, parse), insertOk)
    ensures r.successful == |r.added| && r.successful + r.failed == |Entries(lines, parse)|
  {
    var added: seq<NewContact> := [];
    var successful, failed := 0, 0;
    ghost var entries: seq<NewContact> := [];
    var i := 0;
    while i < |lines|
      invariant 0 <= i <= |lines|
      invariant entries == Entries(lines[..i], parse)
      invariant added == Inserted(entries, insertOk)
      invariant successful == |added| && successful + failed == |entries|
    {
      var entry := parse(lines[i]);
      EntriesSnoc(lines, parse, i);
      if entry.Some? {
        var attempt := successful + failed;
        InsertedSnoc(entries, entry.value, insertOk);
        entries := entries + [entry.value];
        if insertOk(attempt) {
          added := added + [entry.value];
          successful := successful + 1;
        } else {
          failed := failed + 1;
        }
      }
      i := i + 1;
    }
    assert lines[..i] == lines;
    r := BulkReport(added, successful, failed);
  }

  lemma EntriesSnoc(lines: seq<string>, parse: string -> Option<NewContact>, i: nat)
    requires i < |lines|
    ensures parse(lines[i]).None? ==> Entries(lines[..i + 1], parse) == Entries(lines[..i], parse)
    ensures parse(lines[i]).Some? ==>
              Entries(lines[..i + 1], parse) == Entries(lines[..i], parse) + [parse(lines[i]).value]
  {
    assert lines[..i + 1][..i] == lines[..i];
  }

  lemma InsertedSnoc(entries: seq<NewContact>, e: NewContact, insertOk: nat -> bool)
    ensures Inserted(entries + [e], insertOk) ==
              Inserted(entries, insertOk) + (if insertOk(|entries|) then [e] else [])
  {
    assert (entries + [e])[..|entries|] == entries;
  }

  /** With every insert working, one contact per non-blank line, and nothing fails. */
  lemma {:induction false} InsertedAll(entries: seq<NewContact>, insertOk: nat -> bool)
    requires forall k :: 0 <= k < |entries| ==> insertOk(k)
    ensures Inserted(entries, insertOk) == entries
  {
    if entries != [] {
      InsertedAll(entries[..|entries| - 1], insertOk);
    }
  }

  // ---- the file imports ----

  /** The progress of a file import: the rows written, and whether an insert raised. */
  datatype Import = Import(added: seq<NewContact>, aborted: bool)

  /** One add_contact call of a file import, attempt number |added|; after a raise nothing more runs. */
  function AddRow(st: Import, e: NewContact, insertOk: nat -> bool): (r: Import)
    ensures st.aborted ==> r == st
    ensures !st.aborted && insertOk(|st.added|) ==> r == Import(st.added + [e], false)
    ensures !st.aborted && !insertOk(|st.added|) ==> r == Import(st.added, true)
  {
    if st.aborted then st
    else if insertOk(|st.added|) then Import(st.added + [e], false)
    else Import(st.added, true)
  }

  /** The name a lone TXT identifier gets: "Контакт <n>", n counting the contacts imported so far plus one. */
  function Numbered(count: nat): string {
    "Контакт " + NatToString(count + 1)
  }

  /**
   * A stripped, non-blank TXT line: the identifier is the line up to its
   * first whitespace and the name the rest without its leading whitespace;
   * a lone identifier gets its user name without '@', or the numbered
   * default name.
   */
  function TxtFields(t: string, count: nat): NewContact
    requires t != []
  {
    match FirstSpace(t)
    case None => NewContact(if t[0] == '@' then t[1..] else Numbered(count), t)
    case Some(i) => NewContact(TrimStart(t[i..]), t[..i])
  }

  /** One line of a TXT file: blank lines give nothing. */
  function TxtLine(line: string, count: nat): Option<NewContact> {
    var t := Trim(line);
    if t == [] then None else Some(TxtFields(t, count))
  }

  /**
   * The contact of a non-blank stripped TXT line: a non-empty identifier
   * without whitespace from the front of the line; a line of one word is
   * the identifier, named after its user name or numbered; otherwise the
   * name is non-empty and starts with a non-space.
   */
  lemma TxtFieldsShape(t: string, count: nat)
    requires t != [] && Stripped(t)
    ensures var e := TxtFields(t, count);
            && e.contact != [] && NoSpace(e.contact) && e.contact == t[..|e.contact|]
            && (NoSpace(t) ==> e.contact == t && e.name == (if t[0] == '@' then t[1..] else Numbered(count)))
            && (!NoSpace(t) ==> e.name != [] && !IsSpace(e.name[0]))
  {
    match FirstSpace(t)
    case None =>
    case Some(i) =>
      assert t[i..][|t| - i - 1] == t[|t| - 1];
  }

  /**
   * A file's lines, imported in order by a line parser that is told how
   * many rows were written so far. TxtRun is this with TxtLine.
   */
  function Fold(lines: seq<string>, parse: (string, nat) -> Option<NewContact>, insertOk: nat -> bool): Import {
    if lines == [] then Import([], false)
    else
      var st := Fold(lines[..|lines| - 1], parse, insertOk);
      match parse(lines[|lines| - 1], |st.added|)
      case None => st
      case Some(e) => AddRow(st, e, insertOk)
  }

  function TxtRun(lines: seq<string>, insertOk: nat -> bool): Import {
    Fold(lines, TxtLine, insertOk)
  }

  /**
   * The TXT branch of import_contacts: `text` is the file's content, its
   * lines being what readlines() gives; the count shown at the end is the
   * number of rows written.
   */
  method ImportTxt(text: string, insertOk: nat -> bool) returns (r: Import)
    ensures r == TxtRun(Split(text, '\n'), insertOk)
  {
    var lines := Split(text, '\n');
    var added: seq<NewContact> := [];
    var i := 0;
    while i < |lines|
      invariant 0 <= i <= |lines|
      invariant Fold(lines[..i], TxtLine, insertOk) == Import(added, false)
    {
      assert lines[..i + 1][..i] == lines[..i];
      var entry := TxtLine(lines[i], |added|);
      if entry.Some? {
        if !insertOk(|added|) {
          FoldAborted(lines, i + 1, TxtLine, insertOk);
          return Import(added, true);
        }
        added := added + [entry.value];
      }
      i := i + 1;
    }
    assert lines[..i] == lines;
    r := Import(added, false);
  }

  /** Once an insert has raised, the later lines change nothing. */
  lemma {:induction false} FoldAborted(lines: seq<string>, i: nat, parse: (string, nat) -> Option<NewContact>, insertOk: nat -> bool)
    requires i <= |lines| && Fold(lines[..i], parse, insertOk).aborted
    ensures Fold(lines, parse, insertOk) == Fold(lines[..i], parse, insertOk)
    decreases |lines| - i
  {
    if i < |lines| {
      assert lines[..i + 1][..i] == lines[..i];
      FoldAborted(lines, i + 1, parse, insertOk);
    } else {
      assert lines[..i] == lines;
    }
  }

  /** An import that did not abort wrote one row per non-blank line, and no import writes more. */
  lemma {:induction false} FoldComplete(lines: seq<string>, parse: (string, nat) -> Option<NewContact>, insertOk: nat -> bool)
    requires forall line, count :: parse(line, count).None? <==> Trim(line) == []
    ensures !Fold(lines, parse, insertOk).aborted ==> |Fold(lines, parse, insertOk).added| == NonBlank(lines)
    ensures |Fold(lines, parse, insertOk).added| <= NonBlank(lines)
  {
    if lines != [] {
      FoldComplete(lines[..|lines| - 1], parse, insertOk);
    }
  }

  /** The TXT parser gives a row for exactly the non-blank lines. */
  lemma TxtRunComplete(lines: seq<string>, insertOk: nat -> bool)
    ensures !TxtRun(lines, insertOk).aborted ==> |TxtRun(lines, insertOk).added| == NonBlank(lines)
    ensures |TxtRun(lines, insertOk).added| <= NonBlank(lines)
  {
    FoldComplete(lines, TxtLine, insertOk);
  }

  /** The rows written stay written when the file goes on: earlier lines' rows are a prefix. */
  lemma {:induction false} FoldPrefix(lines: seq<string>, more: seq<string>, parse: (string, nat) -> Option<NewContact>, insertOk: nat -> bool)
    ensures var a := Fold(lines, parse, insertOk).added;
            var b := Fold(lines + more, parse, insertOk).added;
            |a| <= |b| && b[..|a|] == a
  {
    if more == [] {
      assert lines + more == lines;
    } else {
      var more' := more[..|more| - 1];
      FoldPrefix(lines, more', parse, insertOk);
      assert (lines + more)[..|lines + more| - 1] == lines + more';
    }
  }

  /**
   * The CSV branch of import_contacts over the rows csv.reader produced:
   * the header row is skipped, and every row with at least two fields adds
   * its first field as the name and its second as the identifier, as read.
   */
  function CsvRun(rows: seq<seq<string>>, insertOk: nat -> bool): (r: Import) {
    if |rows| <= 1 then Import([], false)
    else
      var st := CsvRun(rows[..|rows| - 1], insertOk);
      var row := rows[|rows| - 1];
      if |row| >= 2 then AddRow(st, NewContact(row[0], row[1]), insertOk) else st
  }

  /** How many rows after the header have at least two fields. */
  function CsvUsable(rows: seq<seq<string>>): nat {
    if |rows| <= 1 then 0
    else CsvUsable(rows[..|rows| - 1]) + (if |rows[|rows| - 1]| >= 2 then 1 else 0)
  }

  method ImportCsv(rows: seq<seq<string>>, insertOk: nat -> bool) returns (r: Import)
    ensures r == CsvRun(rows, insertOk)
  {
    if |rows| == 0 {
      return Import([], false);
    }
    var added: seq<NewContact> := [];
    var i := 1;
    while i < |rows|
      invariant 1 <= i <= |rows|
      invariant CsvRun(rows[..i], insertOk) == Import(added, false)
    {
      assert rows[..i + 1][..i] == rows[..i];
      var row := rows[i];
      if |row| >= 2 {
        if !insertOk(|added|) {
          CsvRunAborted(rows, i + 1, insertOk);
          return Import(added, true);
        }
        added := added + [NewContact(row[0], row[1])];
      }
      i := i + 1;
    }
    assert rows[..i] == rows;
    r := Import(added, false);
  }

  lemma {:induction false} CsvRunAborted(rows: seq<seq<string>>, i: nat, insertOk: nat -> bool)
    requires i <= |rows| && CsvRun(rows[..i], insertOk).aborted
    ensures CsvRun(rows, insertOk) == CsvRun(rows[..i], insertOk)
    decreases |rows| - i
  {
    if i < |rows| {
      assert rows[..i + 1][..i] == rows[..i];
      CsvRunAborted(rows, i + 1, insertOk);
    } else {
      assert rows[..i] == rows;
    }
  }

  /** A CSV import that did not abort wrote one row per usable data row: the header never becomes a contact. */
  lemma {:induction false} CsvRunComplete(rows: seq<seq<string>>, insertOk: nat -> bool)
    ensures !CsvRun(rows, insertOk).aborted ==> |CsvRun(rows, insertOk).added| == CsvUsable(rows)
    ensures |CsvRun(rows, insertOk).added| <= CsvUsable(rows)
  {
    if |rows| > 1 {
      CsvRunComplete(rows[..|rows| - 1], insertOk);
    }
  }
}
