/**
 * The import box of the contact list page (frontend ContactList.js,
 * handleImportContacts): pasted text, one "name, +phone" pair per line,
 * becomes the list of contacts posted to the import endpoint, or the
 * error shown above the box.
 */
module ContactList {
  import opened Wrappers
  import opened Text

  datatype Contact = Contact(name: string, phone: string)

  datatype ImportError = NoInput | BadFormat | BadPhone | NoContacts

  /** The text the page shows for each error. */
  function Message(e: ImportError): string {
    match e
    case NoInput => "Введите данные для импорта"
    case BadFormat => "Неверный формат данных. Используйте: Имя, +79123456789"
    case BadPhone => "Неверный формат номера телефона. Используйте формат: +79123456789"
    case NoContacts => "Не найдено контактов для импорта"
  }

  /** What one pasted line contributes. */
  datatype Line = Blank | Accepted(contact: Contact) | Rejected(error: ImportError)

  /**
   * One line: a blank line is skipped; a line without a comma has the
   * wrong format; the name and phone are the first two comma-separated
   * fields, trimmed, and the phone must start with '+'.
   */
  function ReadLine(line: string): Line {
    if Trim(line) == [] then Blank
    else
      var parts := Split(line, ',');
      if |parts| < 2 then
        Rejected(BadFormat)
      else
        var name, phone := Trim(parts[0]), Trim(parts[1]);
        if name == [] || phone == [] || !("+" <= phone) then Rejected(BadPhone)
        else Accepted(Contact(name, phone))
  }

  /** A line is skipped exactly when it is blank. */
  lemma ReadLineBlank(line: string)
    ensures ReadLine(line).Blank? <==> AllSpace(line)
  {
  }

  /** A non-blank line has the wrong format exactly when it has no comma. */
  lemma ReadLineFormat(line: string)
    ensures ReadLine(line) == Rejected(BadFormat) <==> !AllSpace(line) && ',' !in line
  {
    var parts := Split(line, ',');
    if |parts| == 1 {
      assert Join(parts, ',') == parts[0];
    }
  }

  /** A line is only ever rejected for its format or its phone. */
  lemma ReadLineErrors(line: string)
    ensures ReadLine(line).Rejected? ==> ReadLine(line).error == BadFormat || ReadLine(line).error == BadPhone
  {
  }

  /** An accepted contact has a name and a phone starting with '+'. */
  lemma ReadLineAccepted(line: string)
    requires ReadLine(line).Accepted?
    ensures var c := ReadLine(line).contact;
            c.name != [] && c.phone != [] && c.phone[0] == '+'
  {
  }

  /** Each line classified. */
  function Classify(lines: seq<string>): (r: seq<Line>)
    ensures |r| == |lines|
  {
    seq(|lines|, i requires 0 <= i < |lines| => ReadLine(lines[i]))
  }

  /** The classified lines in order: the contacts so far, or the first error. */
  function Collect(ls: seq<Line>): Result<seq<Contact>, ImportError> {
    if ls == [] then Ok([])
    else
      match Collect(ls[..|ls| - 1])
      case Err(e) => Err(e)
      case Ok(cs) =>
        match ls[|ls| - 1]
        case Blank => Ok(cs)
        case Accepted(c) => Ok(cs + [c])
        case Rejected(e) => Err(e)
  }

  /** The lines read in order: the contacts so far, or the first line's error. */
  function ReadLines(lines: seq<string>): Result<seq<Contact>, ImportError> {
    Collect(Classify(lines))
  }

  /** The whole handler before the request: the contacts to post, or the error to show. */
  function Import(text: string): Result<seq<Contact>, ImportError> {
    if Trim(text) == [] then Err(NoInput)
    else
      match ReadLines(Split(text, '\n'))
      case Err(e) => Err(e)
      case Ok(cs) => if cs == [] then Err(NoContacts) else Ok(cs)
  }

  /** Once a prefix has failed, the whole sequence fails the same way. */
  lemma {:induction false} ErrorSticks(ls: seq<Line>, k: nat)
    requires k <= |ls| && Collect(ls[..k]).Err?
    ensures Collect(ls) == Collect(ls[..k])
    decreases |ls|
  {
    if k < |ls| {
      var n := |ls| - 1;
      assert ls[..n][..k] == ls[..k];
      ErrorSticks(ls[..n], k);
    } else {
      assert ls[..k] == ls;
    }
  }

  /** The loop of handleImportContacts over the pasted lines, returning at the first bad line. */
  method ReadAll(lines: seq<string>) returns (r: Result<seq<Contact>, ImportError>)
    ensures r == ReadLines(lines)
  {
    ghost var ls := Classify(lines);
    var accepted: seq<Contact> := [];
    for i := 0 to |lines|
      invariant Collect(ls[..i]) == Ok(accepted)
    {
      CollectSnoc(ls, i);
      var line := lines[i];
      if Trim(line) == [] {
        assert ls[i] == Blank;
        continue;
      }
      var parts := Split(line, ',');
      if |parts| < 2 {
        assert ls[i] == Rejected(BadFormat);
        ErrorSticks(ls, i + 1);
        return Err(BadFormat);
      }
      var name := Trim(parts[0]);
      var phone := Trim(parts[1]);
      if name == [] || phone == [] || !("+" <= phone) {
        assert ls[i] == Rejected(BadPhone);
        ErrorSticks(ls, i + 1);
        return Err(BadPhone);
      }
      assert ls[i] == Accepted(Contact(name, phone));
      accepted := accepted + [Contact(name, phone)];
    }
    assert ls[..|lines|] == ls;
    return Ok(accepted);
  }

  /** One more classified line, on top of a prefix that has not failed. */
  lemma CollectSnoc(ls: seq<Line>, i: nat)
    requires i < |ls| && Collect(ls[..i]).Ok?
    ensures ls[i].Blank? ==> Collect(ls[..i + 1]) == Collect(ls[..i])
    ensures ls[i].Accepted? ==> Collect(ls[..i + 1]) == Ok(Collect(ls[..i]).value + [ls[i].contact])
    ensures ls[i].Rejected? ==> Collect(ls[..i + 1]) == Err(ls[i].error)
  {
    assert ls[..i + 1][..i] == ls[..i];
  }

  /** handleImportContacts up to the request: the blank-input check, the lines, and the empty-result check. */
  method ImportContacts(text: string) returns (r: Result<seq<Contact>, ImportError>)
    ensures r == Import(text)
  {
    if Trim(text) == [] {
      return Err(NoInput);
    }
    r := ReadAll(Split(text, '\n'));
    if r == Ok([]) {
      return Err(NoContacts);
    }
  }

  /** The contacts of the accepted lines, in line order. */
  function Kept(ls: seq<Line>): (r: seq<Contact>)
    ensures |r| <= |ls|
  {
    if ls == [] then []
    else
      Kept(ls[..|ls| - 1]) +
      match ls[|ls| - 1]
      case Accepted(c) => [c]
      case _ => []
  }

  /**
   * The lines are read exactly when none is rejected, and then give the
   * contacts of the accepted lines in order, none exactly when every line
   * is blank; otherwise the error is that of the first rejected line.
   */
  lemma {:induction false} CollectMeaning(ls: seq<Line>)
    ensures Collect(ls).Ok? <==> forall i :: 0 <= i < |ls| ==> !ls[i].Rejected?
    ensures Collect(ls).Ok? ==> Collect(ls).value == Kept(ls)
    ensures Collect(ls).Ok? ==> (Kept(ls) == [] <==> forall i :: 0 <= i < |ls| ==> ls[i].Blank?)
    ensures Collect(ls).Err? ==>
              exists i :: 0 <= i < |ls| && ls[i] == Rejected(Collect(ls).error) &&
                forall j :: 0 <= j < i ==> !ls[j].Rejected?
  {
    if ls != [] {
      var n := |ls| - 1;
      var prefix := ls[..n];
      CollectMeaning(prefix);
      assert forall i :: 0 <= i < n ==> prefix[i] == ls[i];
      if Collect(prefix).Err? {
        var i :| 0 <= i < n && prefix[i] == Rejected(Collect(prefix).error) &&
                 forall j :: 0 <= j < i ==> !prefix[j].Rejected?;
        assert ls[i] == Rejected(Collect(ls).error);
      } else if ls[n].Rejected? {
        assert ls[n] == Rejected(Collect(ls).error);
      }
    }
  }

  /** Every contact read has a name and a phone starting with '+'. */
  lemma KeptWellFormed(lines: seq<string>)
    ensures forall c :: c in Kept(Classify(lines)) ==> c.name != [] && c.phone != [] && c.phone[0] == '+'
  {
    var ls := Classify(lines);
    forall c | c in Kept(ls) ensures c.name != [] && c.phone != [] && c.phone[0] == '+' {
      var i := KeptFrom(ls, c);
      assert ls[i] == ReadLine(lines[i]);
      ReadLineAccepted(lines[i]);
    }
  }

  /** A kept contact comes from an accepted line. */
  lemma {:induction false} KeptFrom(ls: seq<Line>, c: Contact) returns (i: nat)
    requires c in Kept(ls)
    ensures i < |ls| && ls[i] == Accepted(c)
  {
    var n := |ls| - 1;
    if c in Kept(ls[..n]) {
      i := KeptFrom(ls[..n], c);
    } else {
      i := n;
    }
  }

  /**
   * A line "name,phone" with comma-free fields: the contact is the two
   * trimmed fields, or the phone error when either is empty or the phone
   * lacks its '+'.
   */
  lemma ReadPair(name: string, phone: string)
    requires ',' !in name && ',' !in phone
    ensures ReadLine(name + "," + phone) ==
              if Trim(name) == [] || Trim(phone) == [] || Trim(phone)[0] != '+' then Rejected(BadPhone)
              else Accepted(Contact(Trim(name), Trim(phone)))
  {
    var line := name + "," + phone;
    assert line[|name|] == ',' && !IsSpace(line[|name|]);
    SplitAfter(name, ',', phone);
    assert Split(phone, ',') == [phone];
  }

  /** Fields after the second are ignored. */
  lemma ExtraFieldsIgnored(name: string, phone: string, extra: string)
    requires ',' !in name && ',' !in phone
    ensures ReadLine(name + "," + phone + "," + extra) == ReadLine(name + "," + phone)
  {
    var line := name + "," + phone + "," + extra;
    assert line[|name|] == ',' && !IsSpace(line[|name|]);
    assert line == name + [','] + (phone + [','] + extra);
    SplitAfter(name, ',', phone + [','] + extra);
    SplitAfter(phone, ',', extra);
    ReadPair(name, phone);
  }

  /** Reading lines fails only for a line's format or phone. */
  lemma ReadLinesErrors(lines: seq<string>)
    ensures ReadLines(lines).Err? ==> ReadLines(lines).error == BadFormat || ReadLines(lines).error == BadPhone
  {
    var ls := Classify(lines);
    CollectMeaning(ls);
    if Collect(ls).Err? {
      var i :| 0 <= i < |ls| && ls[i] == Rejected(Collect(ls).error);
      assert ls[i] == ReadLine(lines[i]);
      ReadLineErrors(lines[i]);
    }
  }

  /** Lines that read to no contacts and no error are all blank. */
  lemma NothingReadIsBlank(lines: seq<string>)
    requires |lines| >= 1 && ReadLines(lines) == Ok([])
    ensures AllSpace(Join(lines, '\n'))
  {
    var ls := Classify(lines);
    CollectMeaning(ls);
    forall k | 0 <= k < |lines| ensures AllSpace(lines[k]) {
      assert ls[k] == ReadLine(lines[k]);
      ReadLineBlank(lines[k]);
    }
    JoinAllSpace(lines, '\n');
  }

  /**
   * The "nothing to import" error cannot be reached: text that is not all
   * whitespace has a non-blank line, which is either read or rejected.
   */
  lemma NoContactsUnreachable(text: string)
    ensures Import(text) != Err(NoContacts)
  {
    if Trim(text) != [] {
      var lines := Split(text, '\n');
      if ReadLines(lines) == Ok([]) {
        NothingReadIsBlank(lines);
        assert false;
      } else {
        ReadLinesErrors(lines);
      }
    }
  }
}
