/**
 * The client registry of the desktop bulk sender (TelegramClientManager in
 * attached_assets/novint.py) and the recipient-identifier rules of
 * TelegramAccountClient.send_message.
 *
 * The registry is a dictionary keyed by account id; Python dictionaries keep
 * insertion order, so it is modelled as a map together with the sequence of
 * its keys in insertion order.
 */
module Registry {
  import opened Wrappers
  import opened Text

  /** The account row a client is built from; `delay` is absent when the row has no such key. */
  datatype AccountData = AccountData(
    id: int, phone: string, apiId: string, apiHash: string,
    sessionString: Option<string>, delay: Option<int>)

  /** A TelegramAccountClient: the account's credentials plus its connection flags. */
  datatype Client = Client(
    accountId: int, phone: string, apiId: string, apiHash: string,
    sessionString: Option<string>, delay: int,
    connected: bool, authorized: bool)

  /** The delay a new client gets when its row has none. */
  const DefaultDelay := 1200

  /** TelegramAccountClient.__init__: copy the row, default the delay, start disconnected. */
  function NewClient(data: AccountData): (c: Client)
    ensures c.accountId == data.id && c.sessionString == data.sessionString
    ensures c.delay == (if data.delay.Some? then data.delay.value else DefaultDelay)
    ensures !c.connected && !c.authorized
  {
    Client(data.id, data.phone, data.apiId, data.apiHash, data.sessionString,
           if data.delay.Some? then data.delay.value else DefaultDelay, false, false)
  }

  /** A session string is present and non-empty (Python truthiness). */
  predicate HasSession(c: Client) {
    c.sessionString.Some? && c.sessionString.value != ""
  }

  predicate DistinctIds(s: seq<int>) {
    forall i, j :: 0 <= i < j < |s| ==> s[i] != s[j]
  }

  /** The ids of `order`, except `id`, in the same order. */
  function Without(order: seq<int>, id: int): (r: seq<int>)
    ensures forall x :: x in r <==> x in order && x != id
    ensures DistinctIds(order) ==> DistinctIds(r)
    ensures id !in order ==> r == order
    ensures |r| <= |order|
  {
    if order == [] then []
    else
      var rest := Without(order[1..], id);
      assert DistinctIds(order) ==> DistinctIds(order[1..]) && order[0] !in order[1..];
      if order[0] == id then rest else [order[0]] + rest
  }

  /**
   * get_available_clients as a value: the ids, in insertion order, whose
   * client has a session string.
   */
  function Available(order: seq<int>, clients: map<int, Client>): (r: seq<int>)
    requires forall i :: 0 <= i < |order| ==> order[i] in clients
    ensures forall id :: id in r <==> id in order && id in clients && HasSession(clients[id])
    ensures DistinctIds(order) ==> DistinctIds(r)
    ensures |r| <= |order|
  {
    if order == [] then []
    else
      var rest := Available(order[1..], clients);
      assert DistinctIds(order) ==> DistinctIds(order[1..]) && order[0] !in order[1..];
      if HasSession(clients[order[0]]) then [order[0]] + rest else rest
  }

  /** Taking one more id of `order` extends the available list by that id when it has a session. */
  lemma {:induction false} AvailableSnoc(order: seq<int>, id: int, clients: map<int, Client>)
    requires forall i :: 0 <= i < |order| ==> order[i] in clients
    requires id in clients
    ensures Available(order + [id], clients)
            == Available(order, clients) + (if HasSession(clients[id]) then [id] else [])
  {
    if order == [] {
      assert order + [id] == [id];
    } else {
      assert (order + [id])[1..] == order[1..] + [id];
      AvailableSnoc(order[1..], id, clients);
    }
  }

  /** One more id of the order's prefix: the available list of the longer prefix. */
  lemma AvailablePrefix(order: seq<int>, clients: map<int, Client>, i: nat)
    requires forall k :: 0 <= k < |order| ==> order[k] in clients
    requires i < |order|
    ensures Available(order[..i + 1], clients)
            == Available(order[..i], clients) + (if HasSession(clients[order[i]]) then [order[i]] else [])
  {
    assert order[..i + 1] == order[..i] + [order[i]];
    AvailableSnoc(order[..i], order[i], clients);
  }

  class ClientManager {
    /** The clients, by account id. */
    var clients: map<int, Client>
    /** The keys of `clients`, in insertion order. */
    var order: seq<int>

    ghost predicate Valid()
      reads this
    {
      && DistinctIds(order)
      && (forall i :: 0 <= i < |order| ==> order[i] in clients)
      && (forall id :: id in clients ==> id in order)
    }

    constructor ()
      ensures Valid() && clients == map[] && order == []
    {
      clients := map[];
      order := [];
    }

    /**
     * add_account: install a new client for the row's id, replacing any
     * previous one. A replaced key keeps its place in the iteration order; a
     * new key goes last.
     */
    method AddAccount(data: AccountData)
      requires Valid()
      modifies this
      ensures Valid()
      ensures clients == old(clients)[data.id := NewClient(data)]
      ensures order == if data.id in old(clients) then old(order) else old(order) + [data.id]
    {
      if data.id !in clients {
        order := order + [data.id];
      }
      clients := clients[data.id := NewClient(data)];
    }

    /**
     * remove_account: drop a present id (after a disconnect attempt whose
     * errors are swallowed); an absent id changes nothing.
     */
    method RemoveAccount(id: int)
      requires Valid()
      modifies this
      ensures Valid()
      ensures clients == old(clients) - {id}
      ensures order == Without(old(order), id)
      ensures id !in old(clients) ==> clients == old(clients) && order == old(order)
    {
      if id in clients {
        var order0, clients0 := order, clients;
        clients := clients - {id};
        order := Without(order, id);
        forall k | 0 <= k < |order| ensures order[k] in clients {
          assert order[k] in order0 && order[k] != id;
          var i :| 0 <= i < |order0| && order0[i] == order[k];
        }
      }
    }

    /** get_client: the client of a present id, None otherwise. */
    function GetClient(id: int): (r: Option<Client>)
      reads this
      ensures r.Some? <==> id in clients
      ensures r.Some? ==> r.value == clients[id]
    {
      if id in clients then Some(clients[id]) else None
    }

    /** get_available_clients: walk the dictionary in order, keeping the ids that have a session. */
    method AvailableClients() returns (ids: seq<int>)
      requires Valid()
      ensures ids == Available(order, clients)
      ensures forall id :: id in ids <==> id in clients && HasSession(clients[id])
      ensures DistinctIds(ids)
    {
      ids := [];
      var i := 0;
      while i < |order|
        invariant 0 <= i <= |order|
        invariant ids == Available(order[..i], clients)
      {
        var id := order[i];
        AvailablePrefix(order, clients, i);
        if HasSession(clients[id]) {
          ids := ids + [id];
        }
        i := i + 1;
      }
      assert order[..i] == order;
    }

    /** update_client_delay: change the delay of a present client only. */
    method UpdateClientDelay(id: int, delay: int)
      requires Valid()
      modifies this
      ensures Valid() && order == old(order)
      ensures id in old(clients) ==> clients == old(clients)[id := old(clients)[id].(delay := delay)]
      ensures id !in old(clients) ==> clients == old(clients)
    {
      if id in clients {
        clients := clients[id := clients[id].(delay := delay)];
      }
    }
  }

  // ---- recipient identifiers ----

  /** How send_message addresses a recipient: by user name or by phone number. */
  datatype Target = Username(name: string) | Phone(number: string)

  /** lstrip('@'): drop every leading '@'. */
  function StripAts(s: string): (r: string)
    ensures |r| <= |s| && r == s[|s| - |r|..]
    ensures forall i :: 0 <= i < |s| - |r| ==> s[i] == '@'
    ensures r == [] || r[0] != '@'
  {
    if s != [] && s[0] == '@' then
      var r := StripAts(s[1..]);
      assert s[1..][|s| - 1 - |r|..] == s[|s| - |r|..];
      assert forall i :: 1 <= i < |s| - |r| ==> s[i] == s[1..][i - 1];
      r
    else s
  }

  predicate PhoneChar(c: char) {
    IsDigit(c) || c == '+'
  }

  /** The characters of s that are digits or '+', in order. */
  function KeepPhoneChars(s: string): (r: string)
    ensures forall i :: 0 <= i < |r| ==> PhoneChar(r[i])
    ensures (forall i :: 0 <= i < |s| ==> PhoneChar(s[i])) ==> r == s
  {
    if s == [] then []
    else (if PhoneChar(s[0]) then [s[0]] else []) + KeepPhoneChars(s[1..])
  }

  /** Every digit and every '+' of s is kept, as often as it occurs; nothing else is. */
  lemma {:induction false} KeepPhoneCharsCounts(s: string)
    ensures forall c :: multiset(KeepPhoneChars(s))[c] == if PhoneChar(c) then multiset(s)[c] else 0
  {
    if s != [] {
      KeepPhoneCharsCounts(s[1..]);
      assert s == [s[0]] + s[1..];
      assert multiset(s) == multiset([s[0]]) + multiset(s[1..]);
      var head := if PhoneChar(s[0]) then [s[0]] else [];
      assert multiset(KeepPhoneChars(s)) == multiset(head) + multiset(KeepPhoneChars(s[1..]));
    }
  }

  /**
   * The filter works character by character: kept characters, the '+'
   * signs among them, stay where they were relative to each other.
   */
  lemma {:induction false} KeepPhoneCharsConcat(a: string, b: string)
    ensures KeepPhoneChars(a + b) == KeepPhoneChars(a) + KeepPhoneChars(b)
  {
    if a != [] {
      var head := if PhoneChar(a[0]) then [a[0]] else [];
      calc {
        KeepPhoneChars(a + b);
        { assert (a + b)[0] == a[0]; assert (a + b)[1..] == a[1..] + b; }
        head + KeepPhoneChars(a[1..] + b);
        { KeepPhoneCharsConcat(a[1..], b); }
        head + (KeepPhoneChars(a[1..]) + KeepPhoneChars(b));
        (head + KeepPhoneChars(a[1..])) + KeepPhoneChars(b);
        KeepPhoneChars(a) + KeepPhoneChars(b);
      }
    } else {
      assert a + b == b;
    }
  }

  /** The digits of s, in order. */
  function DigitsOf(s: string): (r: string)
    ensures forall i :: 0 <= i < |r| ==> IsDigit(r[i])
  {
    if s == [] then [] else (if IsDigit(s[0]) then [s[0]] else []) + DigitsOf(s[1..])
  }

  lemma {:induction false} DigitsOfConcat(a: string, b: string)
    ensures DigitsOf(a + b) == DigitsOf(a) + DigitsOf(b)
  {
    if a != [] {
      var head := if IsDigit(a[0]) then [a[0]] else [];
      calc {
        DigitsOf(a + b);
        { assert (a + b)[0] == a[0]; assert (a + b)[1..] == a[1..] + b; }
        head + DigitsOf(a[1..] + b);
        { DigitsOfConcat(a[1..], b); }
        head + (DigitsOf(a[1..]) + DigitsOf(b));
        (head + DigitsOf(a[1..])) + DigitsOf(b);
        DigitsOf(a) + DigitsOf(b);
      }
    } else {
      assert a + b == b;
    }
  }

  lemma {:induction false} DigitsOfKept(s: string)
    ensures DigitsOf(KeepPhoneChars(s)) == DigitsOf(s)
  {
    if s != [] {
      DigitsOfConcat(if PhoneChar(s[0]) then [s[0]] else [], KeepPhoneChars(s[1..]));
      DigitsOfKept(s[1..]);
    }
  }

  /**
   * The recipient of send_message: an identifier starting with '@' is a user
   * name without its leading '@'s; anything else is a phone number made of
   * the identifier's digits and '+' signs, with a '+' put in front when it
   * does not already start with one.
   */
  function Classify(identifier: string): (t: Target)
    ensures (identifier != [] && identifier[0] == '@') <==> t.Username?
    ensures t.Username? ==> |t.name| <= |identifier|
                            && identifier == identifier[..|identifier| - |t.name|] + t.name
                            && (forall i :: 0 <= i < |identifier| - |t.name| ==> identifier[i] == '@')
                            && (t.name == [] || t.name[0] != '@')
    ensures t.Phone? ==> |t.number| >= 1 && t.number[0] == '+'
                         && (forall i :: 0 <= i < |t.number| ==> PhoneChar(t.number[i]))
    ensures t.Phone? ==> var kept := KeepPhoneChars(identifier);
                         t.number == if kept != [] && kept[0] == '+' then kept else "+" + kept
  {
    if identifier != [] && identifier[0] == '@' then
      var name := StripAts(identifier);
      assert identifier == identifier[..|identifier| - |name|] + name;
      Username(name)
    else
      var kept := KeepPhoneChars(identifier);
      Phone(if kept != [] && kept[0] == '+' then kept else "+" + kept)
  }

  /** A phone target keeps exactly the digits of the identifier, in order. */
  lemma PhoneKeepsDigits(identifier: string)
    requires Classify(identifier).Phone?
    ensures DigitsOf(Classify(identifier).number) == DigitsOf(identifier)
  {
    var kept := KeepPhoneChars(identifier);
    DigitsOfKept(identifier);
    if !(kept != [] && kept[0] == '+') {
      DigitsOfConcat("+", kept);
    }
  }

  /** Normalising a normalised phone number changes nothing. */
  lemma PhoneIdempotent(identifier: string)
    requires Classify(identifier).Phone?
    ensures Classify(Classify(identifier).number) == Classify(identifier)
  {
  }

  /** Writing '@' before a user name gives that user name back. */
  lemma UsernameRoundTrip(name: string)
    requires name == [] || name[0] != '@'
    ensures Classify("@" + name) == Username(name)
  {
    assert ("@" + name)[1..] == name;
  }

  /** The error of a client that cannot send. */
  const NotReady := "Client not connected or not authorized"

  /**
   * The guard at the top of send_message: a client that is not connected or
   * not authorized fails without contacting anyone; otherwise the message
   * goes to the classified target.
   */
  function PrepareSend(c: Client, identifier: string): (r: Result<Target, string>)
    ensures r.Err? <==> !(c.connected && c.authorized)
    ensures r.Err? ==> r.error == NotReady
    ensures r.Ok? ==> r.value == Classify(identifier)
  {
    if !c.connected || !c.authorized then Err(NotReady) else Ok(Classify(identifier))
  }
}
