/**
 * The decisions of the Flask handlers in backend/routes.py, lifted out of
 * the request plumbing: the input checks of register, login and
 * add_telegram_account, the auto-reply rule of send_message, the CORS
 * origin of the preflight handler and the routing of serve_react.
 * Store lookups, password hashing and the file system are parameters.
 */
module Routes {
  import opened Wrappers
  import opened Text
  import Models

  /** Python truthiness of a string field read with data.get(): absent, None and "" are false. */
  predicate Given(v: Option<string>) {
    v.Some? && v.value != []
  }

  // ---- register ----

  datatype Registration = MissingCredentials | UsernameTaken | Registered(username: string, password: string, email: Option<string>)

  function Status(r: Registration): int {
    match r
    case MissingCredentials => 400
    case UsernameTaken => 409
    case Registered(_, _, _) => 201
  }

  /**
   * register: 400 without a username or password, 409 when
   * get_user_by_username finds one (`taken`), else the user is saved with
   * the e-mail, an empty one counting as none.
   */
  function Register(username: Option<string>, password: Option<string>, email: Option<string>, taken: bool): (r: Registration)
    ensures Status(r) == 400 <==> !Given(username) || !Given(password)
    ensures Status(r) == 409 <==> Given(username) && Given(password) && taken
    ensures r.Registered? ==> r.username == username.value && r.password == password.value
    ensures r.Registered? ==> (r.email.Some? <==> Given(email)) && (r.email.Some? ==> r.email == email)
  {
    if !Given(username) || !Given(password) then MissingCredentials
    else if taken then UsernameTaken
    else Registered(username.value, password.value, if Given(email) then email else None)
  }

  // ---- login ----

  datatype Login = MissingLogin | BadLogin | LoggedIn(demo: bool)

  const DemoUser := "demo"
  const DemoPassword := "demo123"

  /**
   * login: 400 without a username or password; the demo pair is let in
   * without a hash check (the demo data is seeded if its user is missing);
   * otherwise `storedHash` is the password hash of the user found by name,
   * and check_password_hash is the parameter `checkHash`.
   */
  function LoginDecision(username: Option<string>, password: Option<string>, storedHash: Option<string>,
                         checkHash: (string, string) -> bool): (r: Login)
    ensures r.MissingLogin? <==> !Given(username) || !Given(password)
    ensures Given(username) && Given(password) && username.value == DemoUser && password.value == DemoPassword ==>
              r == LoggedIn(true)
    ensures r.BadLogin? <==>
              (Given(username) && Given(password) &&
               !(username.value == DemoUser && password.value == DemoPassword) &&
               (storedHash.None? || !checkHash(storedHash.value, password.value)))
    ensures r == LoggedIn(false) ==> storedHash.Some? && checkHash(storedHash.value, password.value)
  {
    if !Given(username) || !Given(password) then MissingLogin
    else if username.value == DemoUser && password.value == DemoPassword then LoggedIn(true)
    else if storedHash.None? || !checkHash(storedHash.value, password.value) then BadLogin
    else LoggedIn(false)
  }

  // ---- add_telegram_account ----

  /** api_id as the JSON body carries it: a number or a string. */
  datatype ApiId = Number(n: int) | Text(s: string)

  predicate ApiIdGiven(v: Option<ApiId>) {
    v.Some? && match v.value { case Number(n) => n != 0 case Text(s) => s != [] }
  }

  /** int(s) for a string: optional surrounding whitespace, an optional sign, and decimal digits. */
  function ParseInt(s: string): Option<int> {
    var t := Trim(s);
    if t == [] then None
    else if t[0] == '-' || t[0] == '+' then
      var digits := t[1..];
      if digits != [] && AllDigits(digits) then
        var v: int := DigitsValue(digits);
        Some(if t[0] == '-' then -v else v)
      else None
    else if AllDigits(t) then Some(DigitsValue(t))
    else None
  }

  predicate AllDigits(s: string) {
    forall i :: 0 <= i < |s| ==> IsDigit(s[i])
  }

  datatype AccountCheck =
    | MissingNameOrPhone
    | NeedBothCredentials
    | ApiIdNotNumber
    | NeedCredentials
    | Connect(apiId: int, apiHash: string)

  /**
   * The checks of add_telegram_account before any connection is tried, in
   * the source's order: name and phone; both or neither credential; api_id
   * converted by int(); and finally both credentials present and api_id non-zero.
   */
  function AddAccountCheck(name: Option<string>, phone: Option<string>, apiId: Option<ApiId>, apiHash: Option<string>): (r: AccountCheck)
    ensures r.MissingNameOrPhone? <==> !Given(name) || !Given(phone)
    ensures Given(name) && Given(phone) ==> (r.NeedBothCredentials? <==> ApiIdGiven(apiId) != Given(apiHash))
    ensures r.Connect? ==> r.apiId != 0 && Given(apiHash) && r.apiHash == apiHash.value
    ensures Given(name) && Given(phone) && !ApiIdGiven(apiId) && !Given(apiHash) ==> r == NeedCredentials
  {
    if !Given(name) || !Given(phone) then MissingNameOrPhone
    else if ApiIdGiven(apiId) != Given(apiHash) then NeedBothCredentials
    else if !ApiIdGiven(apiId) then NeedCredentials
    else
      var converted := match apiId.value
        case Number(n) => Some(n)
        case Text(s) => ParseInt(s);
      if converted.None? then ApiIdNotNumber
      else if converted.value == 0 || !Given(apiHash) then NeedCredentials
      else Connect(converted.value, apiHash.value)
  }

  /** Every outcome but a connection attempt is a 400. */
  lemma AddAccountRejects(name: Option<string>, phone: Option<string>, apiId: Option<ApiId>, apiHash: Option<string>)
    ensures AddAccountCheck(name, phone, apiId, apiHash).Connect? <==>
              Given(name) && Given(phone) && ApiIdGiven(apiId) && Given(apiHash) &&
              match apiId.value {
                case Number(n) => n != 0
                case Text(s) => ParseInt(s).Some? && ParseInt(s).value != 0
              }
  {
  }

  /** int("0") is 0. */
  lemma ParseIntZero()
    ensures ParseInt("0") == Some(0)
  {
    assert Trim("0") == "0" by { TrimKeepsNonSpace("0", 0); }
    assert DigitsValue("0") == 0;
  }

  /** int() reads back the decimal text of every integer, as str() writes it. */
  lemma ParseIntRoundTrip(n: int)
    ensures ParseInt(if n < 0 then "-" + NatToString(-n) else NatToString(n)) == Some(n)
  {
    var digits := NatToString(if n < 0 then -n else n);
    DigitsValueOfNat(if n < 0 then -n else n);
    var s := if n < 0 then "-" + digits else digits;
    assert s[|s| - 1] == digits[|digits| - 1];
    TrimUnpadded(s);
    if n < 0 {
      assert s[1..] == digits;
    }
  }

  /** The string "0" passes the both-or-neither check but counts as a missing credential. */
  lemma ZeroApiIdRefused(name: Option<string>, phone: Option<string>, apiHash: Option<string>)
    requires Given(name) && Given(phone) && Given(apiHash)
    ensures AddAccountCheck(name, phone, Some(Text("0")), apiHash) == NeedCredentials
  {
    ParseIntZero();
  }

  // ---- send_message, local mode ----

  /** An auto-reply fires when it is active and its trigger, lower-cased, occurs in the lower-cased text. */
  predicate Fires(reply: Models.AutoReply, text: string) {
    reply.isActive && Contains(Lower(text), Lower(reply.triggerPhrase))
  }

  /** The loop over the account's auto-replies, which stops at the first that fires. */
  method FirstAutoReply(replies: seq<Models.AutoReply>, text: string) returns (r: Option<nat>)
    ensures r.None? ==> forall j :: 0 <= j < |replies| ==> !Fires(replies[j], text)
    ensures r.Some? ==> r.value < |replies| && Fires(replies[r.value], text) &&
                        forall j :: 0 <= j < r.value ==> !Fires(replies[j], text)
  {
    r := None;
    var i := 0;
    while i < |replies|
      invariant 0 <= i <= |replies|
      invariant forall j :: 0 <= j < i ==> !Fires(replies[j], text)
    {
      if replies[i].isActive && Contains(Lower(text), Lower(replies[i].triggerPhrase)) {
        r := Some(i);
        break;
      }
      i := i + 1;
    }
  }

  /** Firing is a substring test in the lower-cased texts. */
  lemma FiresMeans(reply: Models.AutoReply, text: string)
    ensures Fires(reply, text) <==>
              (reply.isActive && exists i :: OccursAt(Lower(text), Lower(reply.triggerPhrase), i))
  {
    LowerContainsIff(text, reply.triggerPhrase);
  }

  lemma LowerContainsIff(text: string, trigger: string)
    ensures Contains(Lower(text), Lower(trigger)) <==> exists i :: OccursAt(Lower(text), Lower(trigger), i)
  {
    ContainsIff(Lower(text), Lower(trigger));
  }

  /**
   * The local-mode tail of send_message for a chat the user owns: save the
   * user's message, count it as sent, and answer with the first auto-reply
   * that fires, saved as a message from the contact and counted as
   * received. `now` and `later` are the clock before and after the
   * one-second pause; `today` is the day.
   */
  method SendLocal(store: Models.Store, chat: Models.Chat, userId: int, text: string, now: int, later: int, today: int)
    returns (messageId: nat)
    requires store.Valid()
    modifies store
    ensures store.Valid()
    ensures messageId == |old(store.messages)| + 1
    ensures |store.messages| == |old(store.messages)| + 1 || |store.messages| == |old(store.messages)| + 2
    ensures store.messages[..|old(store.messages)| + 1] ==
              old(store.messages) + [Models.Message(messageId, chat.id, userId, text, now, false)]
    ensures var replies := old(store.GetAutoReplies(chat.accountId));
            (|store.messages| == |old(store.messages)| + 2 <==> exists j :: 0 <= j < |replies| && Fires(replies[j], text))
    ensures var replies := old(store.GetAutoReplies(chat.accountId));
            |store.messages| == |old(store.messages)| + 2 ==>
              exists j :: 0 <= j < |replies| && Fires(replies[j], text) &&
                (forall i :: 0 <= i < j ==> !Fires(replies[i], text)) &&
                store.messages[|old(store.messages)| + 1] ==
                  Models.Message(|old(store.messages)| + 2, chat.id, chat.contactId, replies[j].replyText, later, false) &&
                store.chats == Models.Touch(Models.Touch(old(store.chats), chat.id, userId, text),
                                            chat.id, chat.contactId, replies[j].replyText) &&
                store.statistics == Models.Record(Models.Record(old(store.statistics), chat.accountId, today, 1, 0).0,
                                                  chat.accountId, today, 0, 1).0
    ensures |store.messages| == |old(store.messages)| + 1 ==>
              store.chats == Models.Touch(old(store.chats), chat.id, userId, text) &&
              store.statistics == Models.Record(old(store.statistics), chat.accountId, today, 1, 0).0
    ensures store.users == old(store.users) && store.accounts == old(store.accounts)
    ensures store.contacts == old(store.contacts) && store.autoReplies == old(store.autoReplies)
    ensures store.massSendings == old(store.massSendings)
  {
    ghost var before := store.messages;
    var replies := store.GetAutoReplies(chat.accountId);
    messageId := store.SaveMessage(chat.id, userId, text, now);
    var _ := store.UpdateStatistics(chat.accountId, today, 1, 0);
    ghost var sent := store.messages;
    var found := FirstAutoReply(replies, text);
    if found.Some? {
      var reply := replies[found.value];
      var replyId := store.SaveMessage(chat.id, chat.contactId, reply.replyText, later);
      var _ := store.UpdateStatistics(chat.accountId, today, 0, 1);
      assert store.messages == sent + [Models.Message(replyId, chat.id, chat.contactId, reply.replyText, later, false)];
      assert store.messages[..|before| + 1] == sent;
    } else {
      assert store.messages[..|before| + 1] == sent;
    }
  }

  // ---- the CORS preflight ----

  /**
   * handle_options: the Access-Control-Allow-Origin value. `configured` is
   * CORS_ORIGINS (['*'] when unset), `header` the request's Origin ('*' when absent).
   */
  function PreflightOrigin(configured: Option<seq<string>>, header: Option<string>): (r: string)
    ensures var allowed := if configured.Some? then configured.value else ["*"];
            var origin := if header.Some? then header.value else "*";
            && ((origin in allowed || "*" in allowed) ==> r == origin)
            && (!(origin in allowed || "*" in allowed) && allowed != [] ==> r == allowed[0])
            && (!(origin in allowed || "*" in allowed) && allowed == [] ==> r == "*")
  {
    var allowed := if configured.Some? then configured.value else ["*"];
    var origin := if header.Some? then header.value else "*";
    if origin in allowed || "*" in allowed then origin
    else if allowed != [] then allowed[0]
    else "*"
  }

  /** Only an allowed origin comes back, unless every origin is allowed or the list is empty. */
  lemma PreflightNeverWidens(configured: Option<seq<string>>, header: Option<string>)
    requires configured.Some? && configured.value != [] && "*" !in configured.value
    ensures PreflightOrigin(configured, header) in configured.value
  {
  }

  // ---- serve_react ----

  datatype Page = NotFound | File(name: string)

  /**
   * serve_react: what the single-page app serves for a path, `fileExists`
   * standing for the file test in the build directory.
   */
  function ServeReact(path: string, fileExists: string -> bool): (r: Page)
    ensures "api/" <= path ==> r == NotFound
    ensures !("api/" <= path) && path == "register" ==> r == File("register.html")
    ensures !("api/" <= path) && path != "register" && "dashboard" <= path ==> r == File("dashboard/index.html")
    ensures !("api/" <= path) && path != "register" && !("dashboard" <= path) && path != [] && fileExists(path) ==>
              r == File(path)
    ensures !("api/" <= path) && path != "register" && !("dashboard" <= path) && !(path != [] && fileExists(path)) ==>
              r == File("index.html")
  {
    if "api/" <= path then NotFound
    else if path == "register" then File("register.html")
    else if "dashboard" <= path then File("dashboard/index.html")
    else if path != [] && fileExists(path) then File(path)
    else File("index.html")
  }

  /** Only API paths get a 404, and the app never serves a file under api/. */
  lemma ServeReactPages(path: string, fileExists: string -> bool)
    ensures ServeReact(path, fileExists).NotFound? <==> "api/" <= path
    ensures ServeReact(path, fileExists).File? ==> !("api/" <= ServeReact(path, fileExists).name)
  {
    assert "register.html"[0] != 'a' && "dashboard/index.html"[0] != 'a' && "index.html"[0] != 'a';
  }
}
