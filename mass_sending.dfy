/**
 * The form state of the mass-sending page (frontend MassSending.js): the
 * selected contact ids are toggled one at a time or all at once, and the
 * form is submitted only with a message and at least one contact.
 */
module MassSending {
  import opened Wrappers

  /** The new-mailing form: text, selected contact ids in selection order, delay and frequency. */
  datatype Form = Form(message: string, contacts: seq<int>, delay: int, frequency: int)

  /** The form after a successful submit. */
  const EmptyForm := Form("", [], 60, 5)

  const FillEverything := "Заполните все обязательные поля и выберите хотя бы один контакт"

  /** contacts.filter(id => id !== x): every other id, in order. */
  function Without(s: seq<int>, x: int): (r: seq<int>)
    ensures x !in r
    ensures forall y :: y != x ==> multiset(r)[y] == multiset(s)[y]
  {
    if s == [] then []
    else
      var rest := Without(s[..|s| - 1], x);
      assert s == s[..|s| - 1] + [s[|s| - 1]];
      if s[|s| - 1] == x then rest else rest + [s[|s| - 1]]
  }

  /** handleToggleContact: drop a selected id, append an unselected one. */
  function Toggle(f: Form, id: int): Form {
    if id in f.contacts then f.(contacts := Without(f.contacts, id))
    else f.(contacts := f.contacts + [id])
  }

  /**
   * Toggling flips whether the id is selected and leaves every other id's
   * selection, and the rest of the form, as it was: an unselected id goes
   * to the end, a selected one is filtered out.
   */
  lemma ToggleFlips(f: Form, id: int)
    ensures id in Toggle(f, id).contacts <==> id !in f.contacts
    ensures id !in f.contacts ==> Toggle(f, id).contacts == f.contacts + [id]
    ensures id in f.contacts ==> Toggle(f, id).contacts == Without(f.contacts, id)
    ensures forall y :: y != id ==> (y in Toggle(f, id).contacts <==> y in f.contacts)
    ensures Toggle(f, id).message == f.message && Toggle(f, id).delay == f.delay && Toggle(f, id).frequency == f.frequency
  {
    var r := Toggle(f, id).contacts;
    forall y | y != id ensures y in r <==> y in f.contacts {
      assert y in r <==> multiset(r)[y] > 0;
      assert y in f.contacts <==> multiset(f.contacts)[y] > 0;
    }
  }

  /** Removing an id that is not there changes nothing. */
  lemma {:induction false} WithoutAbsent(s: seq<int>, x: int)
    requires x !in s
    ensures Without(s, x) == s
  {
    if s != [] {
      WithoutAbsent(s[..|s| - 1], x);
      assert s[..|s| - 1] + [s[|s| - 1]] == s;
    }
  }

  /** Toggling an unselected id twice gives back the same form. */
  lemma ToggleTwice(f: Form, id: int)
    requires id !in f.contacts
    ensures Toggle(Toggle(f, id), id) == f
  {
    var s := f.contacts + [id];
    assert s[..|s| - 1] == f.contacts;
    WithoutAbsent(f.contacts, id);
  }

  /** The ids appear at most once. */
  predicate Distinct(s: seq<int>) {
    forall i, j :: 0 <= i < j < |s| ==> s[i] != s[j]
  }

  /** Removal keeps the remaining ids distinct. */
  lemma {:induction false} WithoutDistinct(s: seq<int>, x: int)
    requires Distinct(s)
    ensures Distinct(Without(s, x))
  {
    if s != [] {
      var p := s[..|s| - 1];
      assert Distinct(p);
      WithoutDistinct(p, x);
      var last := s[|s| - 1];
      if last != x {
        assert last !in p;
        assert multiset(Without(p, x))[last] == multiset(p)[last] == 0;
        assert last !in Without(p, x);
      }
    }
  }

  /** Toggling keeps a selection free of repeats. */
  lemma ToggleDistinct(f: Form, id: int)
    requires Distinct(f.contacts)
    ensures Distinct(Toggle(f, id).contacts)
  {
    if id in f.contacts {
      WithoutDistinct(f.contacts, id);
    }
  }

  /**
   * handleSelectAllContacts: clear the selection when it has as many ids
   * as there are contacts, otherwise select every contact in list order.
   */
  function SelectAll(f: Form, contactIds: seq<int>): (r: Form)
    ensures r.message == f.message && r.delay == f.delay && r.frequency == f.frequency
    ensures r.contacts == [] || r.contacts == contactIds
    ensures |f.contacts| == |contactIds| ==> r.contacts == []
    ensures |f.contacts| != |contactIds| ==> r.contacts == contactIds
  {
    if |f.contacts| == |contactIds| then f.(contacts := []) else f.(contacts := contactIds)
  }

  /** The ids of a sequence, as a set. */
  function Elems(s: seq<int>): set<int> {
    set x | x in s
  }

  /** A distinct sequence has as many elements as its set. */
  lemma {:induction false} DistinctCard(s: seq<int>)
    requires Distinct(s)
    ensures |Elems(s)| == |s|
  {
    if s != [] {
      var p := s[..|s| - 1];
      var last := s[|s| - 1];
      assert Distinct(p);
      DistinctCard(p);
      assert last !in p;
      assert Elems(s) == Elems(p) + {last};
    }
  }

  /** Some element of a non-empty set. */
  lemma PickFrom(a: set<int>) returns (x: int)
    requires |a| != 0
    ensures x in a
  {
    if forall y :: y !in a {
      assert false;
    }
    x :| x in a;
  }

  /** A subset is no larger. */
  lemma {:induction false} SubsetCard(a: set<int>, b: set<int>)
    requires a <= b
    ensures |a| <= |b|
    decreases |b|
  {
    if |a| != 0 {
      var x := PickFrom(a);
      SubsetCard(a - {x}, b - {x});
      assert a == (a - {x}) + {x};
      assert b == (b - {x}) + {x};
    }
  }

  /**
   * The length test means "everything is selected" under what toggling
   * keeps: a selection of distinct contact ids has the length of the
   * (distinct) contact list exactly when it holds every contact.
   */
  lemma SelectAllMeansAll(selected: seq<int>, contactIds: seq<int>)
    requires Distinct(selected) && Distinct(contactIds)
    requires forall x :: x in selected ==> x in contactIds
    ensures |selected| == |contactIds| <==> forall x :: x in contactIds ==> x in selected
  {
    var a, b := Elems(selected), Elems(contactIds);
    DistinctCard(selected);
    DistinctCard(contactIds);
    assert a <= b;
    if |selected| == |contactIds| {
      if !(b <= a) {
        var y :| y in b && y !in a;
        SubsetCard(a, b - {y});
        assert false;
      }
      forall x | x in contactIds ensures x in selected {
        assert x in b;
      }
    } else if b <= a {
      SubsetCard(a, b);
      SubsetCard(b, a);
      assert false;
    }
  }

  /** Pressing select-all twice on a partial selection clears it, for a non-empty contact list. */
  lemma SelectAllTwice(f: Form, contactIds: seq<int>)
    requires |f.contacts| != |contactIds|
    ensures SelectAll(f, contactIds).contacts == contactIds
    ensures SelectAll(SelectAll(f, contactIds), contactIds).contacts == []
  {
  }

  /** handleAddMassSending's check: a message and at least one contact. */
  predicate CanSubmit(f: Form) {
    f.message != [] && |f.contacts| != 0
  }

  /** The request body, or the form error. */
  datatype Request = Request(message: string, contacts: seq<int>, delay: int, frequency: int)

  function Submit(f: Form): (r: Result<Request, string>)
    ensures r.Err? <==> f.message == [] || f.contacts == []
    ensures r.Err? ==> r.error == FillEverything
    ensures r.Ok? ==> r.value == Request(f.message, f.contacts, f.delay, f.frequency)
  {
    if !CanSubmit(f) then Err(FillEverything)
    else Ok(Request(f.message, f.contacts, f.delay, f.frequency))
  }

  /**
   * Selecting a contact makes a form with a message submittable; the form
   * after a submit is not, until a message and a contact are chosen again.
   */
  lemma SubmitAfterSelection(f: Form, id: int)
    requires f.message != [] && id !in f.contacts
    ensures Submit(Toggle(f, id)).Ok?
    ensures Submit(EmptyForm).Err?
  {
  }
}
