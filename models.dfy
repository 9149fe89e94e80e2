/**
 * The in-memory store of backend/models.py. Each dictionary of the source
 * is keyed 1, 2, 3, ... in insertion order and never loses an entry, so it
 * is a sequence here: the record at index i has id i + 1, and iterating the
 * dictionary is walking the sequence. Clock readings (datetime.now()) are
 * parameters: a message's timestamp and the day of a statistics record.
 */
module Models {
  import opened Wrappers
  import Sorting

  datatype User = User(id: nat, username: string, passwordHash: string, email: Option<string>)
  datatype Account = Account(id: nat, userId: int, accountName: string, phone: string)
  datatype Contact = Contact(id: nat, accountId: int, name: string, phone: string)
  datatype Chat = Chat(id: nat, accountId: int, contactId: int, lastMessage: string, unreadCount: int)
  datatype Message = Message(id: nat, chatId: int, senderId: int, text: string, timestamp: int, isRead: bool)
  datatype AutoReply = AutoReply(id: nat, accountId: int, triggerPhrase: string, replyText: string, isActive: bool)
  datatype MassSending = MassSending(id: nat, accountId: int, message: string, contacts: seq<int>,
                                     delay: int, frequency: int, status: string, sentCount: int)
  /** One statistics record; `date` is a day number. */
  datatype Stat = Stat(id: nat, accountId: int, date: int, sentMessages: int, receivedMessages: int)

  function UserId(u: User): int { u.id }
  function AccountId(a: Account): int { a.id }
  function ContactId(c: Contact): int { c.id }
  function ChatId(c: Chat): int { c.id }
  function MessageId(m: Message): int { m.id }
  function MessageTime(m: Message): int { m.timestamp }
  function AutoReplyId(a: AutoReply): int { a.id }
  function MassSendingId(m: MassSending): int { m.id }
  function StatId(s: Stat): int { s.id }
  /** get_statistics sorts by date with reverse=True: ascending on the negated date. */
  function StatNewestFirst(s: Stat): int { -s.date }

  /** The records of a dictionary keyed 1, 2, 3, ... in insertion order. */
  predicate Numbered<T>(s: seq<T>, id: T -> int) {
    forall i :: 0 <= i < |s| ==> id(s[i]) == i + 1
  }

  lemma NumberedIncreasing<T>(s: seq<T>, id: T -> int)
    requires Numbered(s, id)
    ensures Sorting.StrictlyIncreasing(s, id)
  {
  }

  /** A list comprehension [x for x in s if keep(x)]. */
  function Select<T(!new)>(s: seq<T>, keep: T -> bool): (r: seq<T>)
    ensures |r| <= |s|
    ensures forall x :: x in r <==> x in s && keep(x)
  {
    if s == [] then []
    else
      assert s == [s[0]] + s[1..];
      (if keep(s[0]) then [s[0]] else []) + Select(s[1..], keep)
  }

  /** A bound below every id of the input stays below every id of the selection. */
  lemma {:induction false} SelectTiesAbove<T(!new)>(s: seq<T>, keep: T -> bool, id: T -> int, b: int)
    requires Sorting.TiesAbove(s, id, b)
    ensures Sorting.TiesAbove(Select(s, keep), id, b)
  {
    if s != [] {
      SelectTiesAbove(s[1..], keep, id, b);
    }
  }

  /** The selection keeps the order of the input. */
  lemma {:induction false} SelectIncreasing<T(!new)>(s: seq<T>, keep: T -> bool, id: T -> int)
    requires Sorting.StrictlyIncreasing(s, id)
    ensures Sorting.StrictlyIncreasing(Select(s, keep), id)
  {
    if s != [] {
      var rest := Select(s[1..], keep);
      SelectIncreasing(s[1..], keep, id);
      if keep(s[0]) {
        SelectTiesAbove(s[1..], keep, id, id(s[0]));
        var r := [s[0]] + rest;
        forall i, j | 0 <= i < j < |r| ensures id(r[i]) < id(r[j]) {
          assert r[j] == rest[j - 1];
          if i > 0 { assert r[i] == rest[i - 1]; }
        }
      }
    }
  }

  /** Saving one more record adds it at the end of every selection that keeps it. */
  lemma {:induction false} SelectSnoc<T(!new)>(s: seq<T>, x: T, keep: T -> bool)
    ensures Select(s + [x], keep) == Select(s, keep) + (if keep(x) then [x] else [])
    decreases |s|
  {
    var tail := if keep(x) then [x] else [];
    if s == [] {
      assert [x][1..] == [];
      assert Select([x], keep) == tail + Select([], keep);
    } else {
      SelectSnoc(s[1..], x, keep);
      var t := s + [x];
      assert t[0] == s[0] && t[1..] == s[1..] + [x];
      var head := if keep(s[0]) then [s[0]] else [];
      assert Select(t, keep) == head + Select(s[1..] + [x], keep);
      assert Select(s, keep) == head + Select(s[1..], keep);
    }
  }

  /** Python's prefix slice s[:n], which counts a negative n from the end. */
  function Take<T>(s: seq<T>, n: int): (r: seq<T>)
    ensures 0 <= n ==> |r| == if n < |s| then n else |s|
    ensures n < 0 ==> |r| == if |s| + n > 0 then |s| + n else 0
    ensures r <= s
  {
    if n >= 0 then (if n < |s| then s[..n] else s)
    else if |s| + n > 0 then s[..|s| + n]
    else []
  }

  /** save_message: the chat's new last message, and one more unread message unless the user sent it. */
  function Bump(chat: Chat, senderId: int, text: string): Chat {
    chat.(lastMessage := text, unreadCount := chat.unreadCount + (if senderId != 0 then 1 else 0))
  }

  /** The chat a message concerns, found by its dictionary key. */
  function Touch(chats: seq<Chat>, chatId: int, senderId: int, text: string): (r: seq<Chat>)
    ensures |r| == |chats|
  {
    seq(|chats|, i requires 0 <= i < |chats| =>
      if i + 1 == chatId then Bump(chats[i], senderId, text) else chats[i])
  }

  /** A message as save_message receives it. */
  datatype Incoming = Incoming(senderId: int, text: string)

  /** A chat after several save_message calls to it, in order. */
  function BumpAll(chat: Chat, msgs: seq<Incoming>): Chat {
    if msgs == [] then chat
    else
      var last := msgs[|msgs| - 1];
      Bump(BumpAll(chat, msgs[..|msgs| - 1]), last.senderId, last.text)
  }

  /** How many of the messages came from someone other than the user (sender 0). */
  function FromOthers(msgs: seq<Incoming>): nat {
    if msgs == [] then 0
    else FromOthers(msgs[..|msgs| - 1]) + (if msgs[|msgs| - 1].senderId != 0 then 1 else 0)
  }

  /**
   * The bookkeeping over a run of messages: the unread count grows by the
   * messages from others, the last message is the last text, and the chat
   * keeps its id, account and contact.
   */
  lemma {:induction false} BumpAllCounts(chat: Chat, msgs: seq<Incoming>)
    ensures BumpAll(chat, msgs).unreadCount == chat.unreadCount + FromOthers(msgs)
    ensures msgs != [] ==> BumpAll(chat, msgs).lastMessage == msgs[|msgs| - 1].text
    ensures msgs == [] ==> BumpAll(chat, msgs).lastMessage == chat.lastMessage
    ensures BumpAll(chat, msgs).id == chat.id && BumpAll(chat, msgs).accountId == chat.accountId
    ensures BumpAll(chat, msgs).contactId == chat.contactId
  {
    if msgs != [] {
      BumpAllCounts(chat, msgs[..|msgs| - 1]);
    }
  }

  /** The bookkeeping changes the addressed chat only, and keeps the ids of all. */
  lemma TouchOnly(chats: seq<Chat>, chatId: int, senderId: int, text: string)
    requires Numbered(chats, ChatId)
    ensures Numbered(Touch(chats, chatId, senderId, text), ChatId)
    ensures forall i :: 0 <= i < |chats| && chats[i].id != chatId ==> Touch(chats, chatId, senderId, text)[i] == chats[i]
    ensures forall i :: 0 <= i < |chats| && chats[i].id == chatId ==>
              Touch(chats, chatId, senderId, text)[i].lastMessage == text &&
              Touch(chats, chatId, senderId, text)[i].unreadCount ==
                chats[i].unreadCount + (if senderId != 0 then 1 else 0)
  {
  }

  // ---- update_statistics ----

  /** The position of the record for (account, day), the first one in insertion order. */
  function FindStat(stats: seq<Stat>, accountId: int, date: int): (r: Option<nat>)
    ensures r.None? ==> forall k :: 0 <= k < |stats| ==> !(stats[k].accountId == accountId && stats[k].date == date)
    ensures r.Some? ==> r.value < |stats| && stats[r.value].accountId == accountId && stats[r.value].date == date
    ensures r.Some? ==> forall k :: 0 <= k < r.value ==> !(stats[k].accountId == accountId && stats[k].date == date)
  {
    if stats == [] then None
    else if stats[0].accountId == accountId && stats[0].date == date then Some(0)
    else
      var rest := FindStat(stats[1..], accountId, date);
      if rest.None? then None else Some(rest.value + 1)
  }

  /** What update_statistics evidently intends: add into today's record, or start one. */
  function Record(stats: seq<Stat>, accountId: int, today: int, sent: int, received: int): (seq<Stat>, nat) {
    match FindStat(stats, accountId, today)
    case Some(k) =>
      var st := stats[k];
      (stats[k := st.(sentMessages := st.sentMessages + sent,
                      receivedMessages := st.receivedMessages + received)], k + 1)
    case None =>
      (stats + [Stat(|stats| + 1, accountId, today, sent, received)], |stats| + 1)
  }

  function SentOn(stats: seq<Stat>, accountId: int, date: int): int {
    if stats == [] then 0
    else
      var last := stats[|stats| - 1];
      SentOn(stats[..|stats| - 1], accountId, date) +
        (if last.accountId == accountId && last.date == date then last.sentMessages else 0)
  }

  function ReceivedOn(stats: seq<Stat>, accountId: int, date: int): int {
    if stats == [] then 0
    else
      var last := stats[|stats| - 1];
      ReceivedOn(stats[..|stats| - 1], accountId, date) +
        (if last.accountId == accountId && last.date == date then last.receivedMessages else 0)
  }

  /** At most one record per account and day. */
  predicate OnePerDay(stats: seq<Stat>) {
    forall i, j :: 0 <= i < j < |stats| ==>
      !(stats[i].accountId == stats[j].accountId && stats[i].date == stats[j].date)
  }

  lemma SentOnSnoc(stats: seq<Stat>, x: Stat, accountId: int, date: int)
    ensures SentOn(stats + [x], accountId, date) ==
              SentOn(stats, accountId, date) + (if x.accountId == accountId && x.date == date then x.sentMessages else 0)
    ensures ReceivedOn(stats + [x], accountId, date) ==
              ReceivedOn(stats, accountId, date) + (if x.accountId == accountId && x.date == date then x.receivedMessages else 0)
  {
    assert (stats + [x])[..|stats|] == stats;
  }

  /** Changing the counts of one record changes the totals of its (account, day) by the difference. */
  lemma {:induction false} SentOnUpdate(stats: seq<Stat>, k: nat, x: Stat, accountId: int, date: int)
    requires k < |stats| && x.accountId == stats[k].accountId && x.date == stats[k].date
    ensures SentOn(stats[k := x], accountId, date) == SentOn(stats, accountId, date) +
              (if x.accountId == accountId && x.date == date then x.sentMessages - stats[k].sentMessages else 0)
    ensures ReceivedOn(stats[k := x], accountId, date) == ReceivedOn(stats, accountId, date) +
              (if x.accountId == accountId && x.date == date then x.receivedMessages - stats[k].receivedMessages else 0)
  {
    var n := |stats| - 1;
    var u := stats[k := x];
    assert u[..n] == if k == n then stats[..n] else stats[..n][k := x];
    if k < n {
      SentOnUpdate(stats[..n], k, x, accountId, date);
    }
  }

  /**
   * The intended accumulation: the totals of (account, today) grow by the
   * given counts and every other (account, day) total stays the same.
   */
  lemma RecordTotals(stats: seq<Stat>, accountId: int, today: int, sent: int, received: int, a: int, d: int)
    ensures SentOn(Record(stats, accountId, today, sent, received).0, a, d) ==
              SentOn(stats, a, d) + (if a == accountId && d == today then sent else 0)
    ensures ReceivedOn(Record(stats, accountId, today, sent, received).0, a, d) ==
              ReceivedOn(stats, a, d) + (if a == accountId && d == today then received else 0)
  {
    match FindStat(stats, accountId, today)
    case Some(k) =>
      var st := stats[k];
      SentOnUpdate(stats, k, st.(sentMessages := st.sentMessages + sent,
                                 receivedMessages := st.receivedMessages + received), a, d);
    case None =>
      SentOnSnoc(stats, Stat(|stats| + 1, accountId, today, sent, received), a, d);
  }

  /** The intended accumulation keeps one record per day, keeps the numbering, and returns the record's id. */
  lemma RecordKeepsShape(stats: seq<Stat>, accountId: int, today: int, sent: int, received: int)
    requires OnePerDay(stats) && Numbered(stats, StatId)
    ensures OnePerDay(Record(stats, accountId, today, sent, received).0)
    ensures Numbered(Record(stats, accountId, today, sent, received).0, StatId)
    ensures var (r, id) := Record(stats, accountId, today, sent, received);
            1 <= id <= |r| && r[id - 1].accountId == accountId && r[id - 1].date == today
    ensures |Record(stats, accountId, today, sent, received).0| ==
              |stats| + (if FindStat(stats, accountId, today).None? then 1 else 0)
  {
  }

  /** The exception update_statistics runs into as written. */
  datatype Raised = AttributeError

  /**
   * update_statistics as written: the loop calls .date() on the stored
   * `date`, which is already a date, as soon as a record of the same account
   * is reached (the `and` evaluates no further for other accounts), so any
   * earlier record of the account raises; only a first record can be made.
   */
  function RecordAsWritten(stats: seq<Stat>, accountId: int, today: int, sent: int, received: int): (r: Result<(seq<Stat>, nat), Raised>)
    ensures r.Err? <==> exists k :: 0 <= k < |stats| && stats[k].accountId == accountId
  {
    if exists k :: 0 <= k < |stats| && stats[k].accountId == accountId then Err(AttributeError)
    else Ok((stats + [Stat(|stats| + 1, accountId, today, sent, received)], |stats| + 1))
  }

  /** As written, a second call for the same account raises, even on the same day. */
  lemma SecondCallRaises(stats: seq<Stat>, accountId: int, today: int, sent: int, received: int)
    requires RecordAsWritten(stats, accountId, today, sent, received).Ok?
    ensures RecordAsWritten(RecordAsWritten(stats, accountId, today, sent, received).value.0,
                            accountId, today, sent, received).Err?
    ensures Record(Record(stats, accountId, today, sent, received).0, accountId, today, sent, received).1 ==
              |stats| + 1
  {
    var after := RecordAsWritten(stats, accountId, today, sent, received).value.0;
    assert after[|stats|].accountId == accountId;
    assert FindStat(stats, accountId, today).None?;
    var once := Record(stats, accountId, today, sent, received).0;
    assert once == after;
    var found := FindStat(once, accountId, today);
    assert found == Some(|stats|);
  }

  /** The store: one field per dictionary of the module. */
  class Store {
    var users: seq<User>
    var accounts: seq<Account>
    var contacts: seq<Contact>
    var chats: seq<Chat>
    var messages: seq<Message>
    var autoReplies: seq<AutoReply>
    var massSendings: seq<MassSending>
    var statistics: seq<Stat>

    /** Every dictionary is keyed 1, 2, 3, ... in insertion order, with one statistics record per day. */
    predicate Valid()
      reads this
    {
      && Numbered(users, UserId) && Numbered(accounts, AccountId) && Numbered(contacts, ContactId)
      && Numbered(chats, ChatId) && Numbered(messages, MessageId) && Numbered(autoReplies, AutoReplyId)
      && Numbered(massSendings, MassSendingId) && Numbered(statistics, StatId)
      && OnePerDay(statistics)
    }

    constructor()
      ensures Valid()
      ensures users == [] && accounts == [] && contacts == [] && chats == []
      ensures messages == [] && autoReplies == [] && massSendings == [] && statistics == []
    {
      users, accounts, contacts, chats := [], [], [], [];
      messages, autoReplies, massSendings, statistics := [], [], [], [];
    }

    /** save_user */
    method SaveUser(username: string, passwordHash: string, email: Option<string>) returns (id: nat)
      requires Valid()
      modifies this
      ensures Valid()
      ensures id == |old(users)| + 1
      ensures users == old(users) + [User(id, username, passwordHash, email)]
      ensures accounts == old(accounts) && contacts == old(contacts) && chats == old(chats)
      ensures messages == old(messages) && autoReplies == old(autoReplies)
      ensures massSendings == old(massSendings) && statistics == old(statistics)
    {
      id := |users| + 1;
      users := users + [User(id, username, passwordHash, email)];
    }

    /** get_user_by_username: the first user with that name, in insertion order. */
    method GetUserByUsername(username: string) returns (r: Option<User>)
      ensures r.None? ==> forall i :: 0 <= i < |users| ==> users[i].username != username
      ensures r.Some? ==> exists i :: 0 <= i < |users| && users[i] == r.value && r.value.username == username &&
                            forall j :: 0 <= j < i ==> users[j].username != username
    {
      for i := 0 to |users|
        invariant forall j :: 0 <= j < i ==> users[j].username != username
      {
        if users[i].username == username {
          return Some(users[i]);
        }
      }
      return None;
    }

    /** get_user_by_id: users.get(user_id). */
    function GetUserById(userId: int): (r: Option<User>)
      requires Valid()
      reads this
      ensures r.Some? <==> exists i :: 0 <= i < |users| && users[i].id == userId
      ensures r.Some? ==> r.value.id == userId && r.value in users
    {
      if 1 <= userId <= |users| then Some(users[userId - 1]) else None
    }

    /** save_telegram_account */
    method SaveTelegramAccount(userId: int, accountName: string, phone: string) returns (id: nat)
      requires Valid()
      modifies this
      ensures Valid()
      ensures id == |old(accounts)| + 1
      ensures accounts == old(accounts) + [Account(id, userId, accountName, phone)]
      ensures users == old(users) && contacts == old(contacts) && chats == old(chats)
      ensures messages == old(messages) && autoReplies == old(autoReplies)
      ensures massSendings == old(massSendings) && statistics == old(statistics)
    {
      id := |accounts| + 1;
      accounts := accounts + [Account(id, userId, accountName, phone)];
    }

    /** get_telegram_accounts: exactly the user's accounts, in insertion order. */
    function GetTelegramAccounts(userId: int): (r: seq<Account>)
      requires Valid()
      reads this
      ensures forall a :: a in r <==> a in accounts && a.userId == userId
      ensures Sorting.StrictlyIncreasing(r, AccountId)
    {
      NumberedIncreasing(accounts, AccountId);
      SelectIncreasing(accounts, (a: Account) => a.userId == userId, AccountId);
      Select(accounts, (a: Account) => a.userId == userId)
    }

    /** save_contact */
    method SaveContact(accountId: int, name: string, phone: string) returns (id: nat)
      requires Valid()
      modifies this
      ensures Valid()
      ensures id == |old(contacts)| + 1
      ensures contacts == old(contacts) + [Contact(id, accountId, name, phone)]
      ensures users == old(users) && accounts == old(accounts) && chats == old(chats)
      ensures messages == old(messages) && autoReplies == old(autoReplies)
      ensures massSendings == old(massSendings) && statistics == old(statistics)
    {
      id := |contacts| + 1;
      contacts := contacts + [Contact(id, accountId, name, phone)];
    }

    /** get_contacts: exactly the account's contacts, in insertion order. */
    function GetContacts(accountId: int): (r: seq<Contact>)
      requires Valid()
      reads this
      ensures forall c :: c in r <==> c in contacts && c.accountId == accountId
      ensures Sorting.StrictlyIncreasing(r, ContactId)
    {
      NumberedIncreasing(contacts, ContactId);
      SelectIncreasing(contacts, (c: Contact) => c.accountId == accountId, ContactId);
      Select(contacts, (c: Contact) => c.accountId == accountId)
    }

    /** save_chat */
    method SaveChat(accountId: int, contactId: int, lastMessage: string, unreadCount: int) returns (id: nat)
      requires Valid()
      modifies this
      ensures Valid()
      ensures id == |old(chats)| + 1
      ensures chats == old(chats) + [Chat(id, accountId, contactId, lastMessage, unreadCount)]
      ensures users == old(users) && accounts == old(accounts) && contacts == old(contacts)
      ensures messages == old(messages) && autoReplies == old(autoReplies)
      ensures massSendings == old(massSendings) && statistics == old(statistics)
    {
      id := |chats| + 1;
      chats := chats + [Chat(id, accountId, contactId, lastMessage, unreadCount)];
    }

    /** get_chats: exactly the account's chats, in insertion order. */
    function GetChats(accountId: int): (r: seq<Chat>)
      requires Valid()
      reads this
      ensures forall c :: c in r <==> c in chats && c.accountId == accountId
      ensures Sorting.StrictlyIncreasing(r, ChatId)
    {
      NumberedIncreasing(chats, ChatId);
      SelectIncreasing(chats, (c: Chat) => c.accountId == accountId, ChatId);
      Select(chats, (c: Chat) => c.accountId == accountId)
    }

    /**
     * save_message: store the message, unread, stamped `now`; then walk the
     * chats and update the one whose key is chat_id.
     */
    method SaveMessage(chatId: int, senderId: int, text: string, now: int) returns (id: nat)
      requires Valid()
      modifies this
      ensures Valid()
      ensures id == |old(messages)| + 1
      ensures messages == old(messages) + [Message(id, chatId, senderId, text, now, false)]
      ensures chats == Touch(old(chats), chatId, senderId, text)
      ensures users == old(users) && accounts == old(accounts) && contacts == old(contacts)
      ensures autoReplies == old(autoReplies) && massSendings == old(massSendings)
      ensures statistics == old(statistics)
    {
      id := |messages| + 1;
      messages := messages + [Message(id, chatId, senderId, text, now, false)];
      var cs := chats;
      for i := 0 to |cs|
        invariant |cs| == |chats|
        invariant forall k :: 0 <= k < i ==> cs[k] == Touch(chats, chatId, senderId, text)[k]
        invariant forall k :: i <= k < |cs| ==> cs[k] == chats[k]
      {
        if i + 1 == chatId {
          cs := cs[i := Bump(cs[i], senderId, text)];
        }
      }
      assert cs == Touch(chats, chatId, senderId, text);
      TouchOnly(chats, chatId, senderId, text);
      chats := cs;
    }

    /**
     * get_messages: exactly the chat's messages, by timestamp; messages with
     * the same timestamp stay in insertion order, list.sort being stable.
     */
    function GetMessages(chatId: int): (r: seq<Message>)
      requires Valid()
      reads this
      ensures forall m :: m in r <==> m in messages && m.chatId == chatId
      ensures Sorting.LexSortedBy(r, MessageTime, MessageId)
    {
      var mine := Select(messages, (m: Message) => m.chatId == chatId);
      NumberedIncreasing(messages, MessageId);
      SelectIncreasing(messages, (m: Message) => m.chatId == chatId, MessageId);
      Sorting.SortByStable(mine, MessageTime, MessageId);
      var r := Sorting.SortBy(mine, MessageTime);
      SortedMembers(mine, r);
      r
    }

    /** save_auto_reply */
    method SaveAutoReply(accountId: int, triggerPhrase: string, replyText: string, isActive: bool) returns (id: nat)
      requires Valid()
      modifies this
      ensures Valid()
      ensures id == |old(autoReplies)| + 1
      ensures autoReplies == old(autoReplies) + [AutoReply(id, accountId, triggerPhrase, replyText, isActive)]
      ensures users == old(users) && accounts == old(accounts) && contacts == old(contacts)
      ensures chats == old(chats) && messages == old(messages)
      ensures massSendings == old(massSendings) && statistics == old(statistics)
    {
      id := |autoReplies| + 1;
      autoReplies := autoReplies + [AutoReply(id, accountId, triggerPhrase, replyText, isActive)];
    }

    /** get_auto_replies: exactly the account's auto-replies, in insertion order. */
    function GetAutoReplies(accountId: int): (r: seq<AutoReply>)
      requires Valid()
      reads this
      ensures forall a :: a in r <==> a in autoReplies && a.accountId == accountId
      ensures Sorting.StrictlyIncreasing(r, AutoReplyId)
    {
      NumberedIncreasing(autoReplies, AutoReplyId);
      SelectIncreasing(autoReplies, (a: AutoReply) => a.accountId == accountId, AutoReplyId);
      Select(autoReplies, (a: AutoReply) => a.accountId == accountId)
    }

    /** save_mass_sending: a new sending is pending and has sent nothing. */
    method SaveMassSending(accountId: int, message: string, contactsList: seq<int>, delay: int, frequency: int)
      returns (id: nat)
      requires Valid()
      modifies this
      ensures Valid()
      ensures id == |old(massSendings)| + 1
      ensures massSendings == old(massSendings) +
                [MassSending(id, accountId, message, contactsList, delay, frequency, "pending", 0)]
      ensures users == old(users) && accounts == old(accounts) && contacts == old(contacts)
      ensures chats == old(chats) && messages == old(messages)
      ensures autoReplies == old(autoReplies) && statistics == old(statistics)
    {
      id := |massSendings| + 1;
      massSendings := massSendings + [MassSending(id, accountId, message, contactsList, delay, frequency, "pending", 0)];
    }

    /** get_mass_sendings: exactly the account's sendings, in insertion order. */
    function GetMassSendings(accountId: int): (r: seq<MassSending>)
      requires Valid()
      reads this
      ensures forall m :: m in r <==> m in massSendings && m.accountId == accountId
      ensures Sorting.StrictlyIncreasing(r, MassSendingId)
    {
      NumberedIncreasing(massSendings, MassSendingId);
      SelectIncreasing(massSendings, (m: MassSending) => m.accountId == accountId, MassSendingId);
      Select(massSendings, (m: MassSending) => m.accountId == accountId)
    }

    /**
     * update_statistics as evidently intended, `today` being the day's
     * number: add into the account's record for today, or append one.
     */
    method UpdateStatistics(accountId: int, today: int, sent: int, received: int) returns (id: nat)
      requires Valid()
      modifies this
      ensures Valid()
      ensures (statistics, id) == Record(old(statistics), accountId, today, sent, received)
      ensures users == old(users) && accounts == old(accounts) && contacts == old(contacts)
      ensures chats == old(chats) && messages == old(messages)
      ensures autoReplies == old(autoReplies) && massSendings == old(massSendings)
    {
      RecordKeepsShape(statistics, accountId, today, sent, received);
      for i := 0 to |statistics|
        invariant forall k :: 0 <= k < i ==> !(statistics[k].accountId == accountId && statistics[k].date == today)
      {
        var st := statistics[i];
        if st.accountId == accountId && st.date == today {
          assert FindStat(statistics, accountId, today) == Some(i);
          statistics := statistics[i := st.(sentMessages := st.sentMessages + sent,
                                            receivedMessages := st.receivedMessages + received)];
          return i + 1;
        }
      }
      assert FindStat(statistics, accountId, today).None?;
      id := |statistics| + 1;
      statistics := statistics + [Stat(id, accountId, today, sent, received)];
    }

    /**
     * get_statistics: the account's records, newest day first, cut to the
     * first `days` of them (Python's slice [:days]).
     */
    function GetStatistics(accountId: int, days: int): (r: seq<Stat>)
      requires Valid()
      reads this
      ensures 0 <= days ==> |r| <= days
      ensures var n := |AccountStats(statistics, accountId)|;
              |r| == if 0 <= days then (if days < n then days else n) else (if n + days > 0 then n + days else 0)
      ensures forall j :: 0 <= j < |r| ==> r[j] in statistics && r[j].accountId == accountId
      ensures multiset(r) <= multiset(AccountStats(statistics, accountId))
      ensures forall i, j :: 0 <= i < j < |r| ==> r[i].date >= r[j].date
      ensures forall s :: s in statistics && s.accountId == accountId && s !in r ==>
                forall j :: 0 <= j < |r| ==> r[j].date >= s.date
    {
      LatestStatsProperties(statistics, accountId, days);
      LatestStats(statistics, accountId, days)
    }
  }

  /** The account's statistics records, in table order. */
  function AccountStats(stats: seq<Stat>, accountId: int): seq<Stat> {
    Select(stats, (s: Stat) => s.accountId == accountId)
  }

  /** get_statistics on the records: the account's, newest day first, then [:days]. */
  function LatestStats(stats: seq<Stat>, accountId: int, days: int): seq<Stat> {
    Take(Sorting.SortBy(AccountStats(stats, accountId), StatNewestFirst), days)
  }

  lemma LatestStatsProperties(stats: seq<Stat>, accountId: int, days: int)
    ensures var r := LatestStats(stats, accountId, days);
      && (0 <= days ==> |r| <= days)
      && (var n := |AccountStats(stats, accountId)|;
          |r| == if 0 <= days then (if days < n then days else n) else (if n + days > 0 then n + days else 0))
      && (forall j :: 0 <= j < |r| ==> r[j] in stats && r[j].accountId == accountId)
      && multiset(r) <= multiset(AccountStats(stats, accountId))
      && (forall i, j :: 0 <= i < j < |r| ==> r[i].date >= r[j].date)
      && (forall s :: s in stats && s.accountId == accountId && s !in r ==>
            forall j :: 0 <= j < |r| ==> r[j].date >= s.date)
  {
    var mine := AccountStats(stats, accountId);
    var sorted := Sorting.SortBy(mine, StatNewestFirst);
    var r := Take(sorted, days);
    assert |sorted| == |multiset(sorted)| == |multiset(mine)| == |mine|;
    PrefixSubMultiset(r, sorted);
    SortedMembers(mine, sorted);
    NewestKept(sorted, r);
    forall j | 0 <= j < |r| ensures r[j] in stats && r[j].accountId == accountId {
      assert r[j] == sorted[j];
    }
  }

  /** A prefix holds each element at most as often as the whole. */
  lemma PrefixSubMultiset<T>(r: seq<T>, s: seq<T>)
    requires r <= s
    ensures multiset(r) <= multiset(s)
  {
    assert s == r + s[|r|..];
  }

  /** A permutation has the same members. */
  lemma SortedMembers<T(!new)>(mine: seq<T>, sorted: seq<T>)
    requires multiset(sorted) == multiset(mine)
    ensures forall s :: s in sorted <==> s in mine
  {
    forall s ensures s in sorted <==> s in mine {
      assert s in sorted <==> s in multiset(sorted);
      assert s in mine <==> s in multiset(mine);
    }
  }

  /** A prefix of a list sorted newest first holds days no older than any day left out. */
  lemma NewestKept(sorted: seq<Stat>, r: seq<Stat>)
    requires Sorting.SortedBy(sorted, StatNewestFirst) && r <= sorted
    ensures forall i, j :: 0 <= i < j < |r| ==> r[i].date >= r[j].date
    ensures forall s :: s in sorted && s !in r ==> forall j :: 0 <= j < |r| ==> r[j].date >= s.date
  {
    forall i, j | 0 <= i < j < |r| ensures r[i].date >= r[j].date {
      assert StatNewestFirst(sorted[i]) <= StatNewestFirst(sorted[j]);
    }
    forall s | s in sorted && s !in r ensures forall j :: 0 <= j < |r| ==> r[j].date >= s.date {
      var k :| 0 <= k < |sorted| && sorted[k] == s;
      assert k >= |r| by {
        assert forall m :: 0 <= m < |r| ==> r[m] == sorted[m];
      }
      forall j | 0 <= j < |r| ensures r[j].date >= s.date {
        assert StatNewestFirst(sorted[j]) <= StatNewestFirst(sorted[k]);
      }
    }
  }
}
