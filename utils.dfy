/**
 * The helpers of backend/utils.py: phone and e-mail validation by regular
 * expression, splitting a long message into fixed-size parts, and the two
 * HTML entity helpers, each a sequence of str.replace calls.
 */
module Utils {
  import opened Wrappers
  import opened Text

  // ---------------------------------------------------------------------
  // Regular-expression validation
  // ---------------------------------------------------------------------

  /**
   * re.match anchors at the start; `$` matches at the end of the string or
   * just before one newline that ends it, so a single final "\n" is ignored.
   */
  function DropFinalNewline(s: string): string {
    if |s| > 0 && s[|s| - 1] == '\n' then s[..|s| - 1] else s
  }

  predicate AllDigits(s: string) {
    forall i :: 0 <= i < |s| ==> IsDigit(s[i])
  }

  /** validate_phone: the pattern ^\+[0-9]{10,15}$ . */
  function ValidatePhone(phone: string): bool {
    var core := DropFinalNewline(phone);
    11 <= |core| <= 16 && core[0] == '+' && AllDigits(core[1..])
  }

  /** The language of the phone pattern, written independently of the matcher. */
  ghost predicate PhoneForm(phone: string) {
    exists digits: string :: 10 <= |digits| <= 15 && AllDigits(digits) &&
      (phone == "+" + digits || phone == "+" + digits + "\n")
  }

  lemma ValidatePhoneMatches(phone: string)
    ensures ValidatePhone(phone) <==> PhoneForm(phone)
  {
    var core := DropFinalNewline(phone);
    if ValidatePhone(phone) {
      var digits := core[1..];
      assert core == "+" + digits;
      assert phone == "+" + digits || phone == "+" + digits + "\n";
    }
    if PhoneForm(phone) {
      var digits: string :| 10 <= |digits| <= 15 && AllDigits(digits) &&
        (phone == "+" + digits || phone == "+" + digits + "\n");
      var bare := "+" + digits;
      assert bare[|bare| - 1] == digits[|digits| - 1];
      if phone == bare + "\n" {
        assert phone[..|phone| - 1] == bare;
      }
      assert core == bare;
      assert core[1..] == digits;
    }
  }

  predicate IsAlnum(c: char) {
    ('a' <= c <= 'z') || ('A' <= c <= 'Z') || IsDigit(c)
  }

  /** [a-zA-Z0-9_.+-] */
  predicate LocalChar(c: char) {
    IsAlnum(c) || c == '_' || c == '.' || c == '+' || c == '-'
  }

  /** [a-zA-Z0-9-] */
  predicate DomainChar(c: char) {
    IsAlnum(c) || c == '-'
  }

  /** [a-zA-Z0-9-.] */
  predicate TldChar(c: char) {
    IsAlnum(c) || c == '-' || c == '.'
  }

  predicate LocalPart(s: string) { |s| > 0 && forall i :: 0 <= i < |s| ==> LocalChar(s[i]) }
  predicate DomainPart(s: string) { |s| > 0 && forall i :: 0 <= i < |s| ==> DomainChar(s[i]) }
  predicate TldPart(s: string) { |s| > 0 && forall i :: 0 <= i < |s| ==> TldChar(s[i]) }

  /** One way of cutting an address into the three groups of the pattern. */
  predicate EmailParts(local: string, domain: string, tld: string) {
    LocalPart(local) && DomainPart(domain) && TldPart(tld)
  }

  /**
   * validate_email: the pattern ^[a-zA-Z0-9_.+-]+@[a-zA-Z0-9-]+\.[a-zA-Z0-9-.]+$ .
   * No group admits '@', so the '@' is the first one; the domain group admits
   * no '.', so the dot after it is the first dot after the '@'.
   */
  function ValidateEmail(email: string): bool {
    var core := DropFinalNewline(email);
    match IndexOf(core, '@')
    case None => false
    case Some(a) =>
      var rest := core[a + 1..];
      match IndexOf(rest, '.')
      case None => false
      case Some(b) => EmailParts(core[..a], rest[..b], rest[b + 1..])
  }

  /** The address the three groups make with their separators. */
  function Address(local: string, domain: string, tld: string): string {
    local + ['@'] + (domain + ['.'] + tld)
  }

  /** The language of the e-mail pattern. */
  ghost predicate EmailForm(email: string) {
    exists local, domain, tld :: EmailParts(local, domain, tld) &&
      (email == Address(local, domain, tld) || email == Address(local, domain, tld) + "\n")
  }

  /** The two separators of an address are found where the groups end. */
  lemma AddressSplits(local: string, domain: string, tld: string)
    requires EmailParts(local, domain, tld)
    ensures IndexOf(Address(local, domain, tld), '@') == Some(|local|)
    ensures Address(local, domain, tld)[..|local|] == local
    ensures Address(local, domain, tld)[|local| + 1..] == domain + ['.'] + tld
    ensures IndexOf(domain + ['.'] + tld, '.') == Some(|domain|)
    ensures (domain + ['.'] + tld)[..|domain|] == domain && (domain + ['.'] + tld)[|domain| + 1..] == tld
  {
    assert forall j :: 0 <= j < |local| ==> local[j] != '@' by {
      assert forall j :: 0 <= j < |local| ==> LocalChar(local[j]);
    }
    IndexOfAfter(local, '@', domain + ['.'] + tld);
    assert forall j :: 0 <= j < |domain| ==> domain[j] != '.' by {
      assert forall j :: 0 <= j < |domain| ==> DomainChar(domain[j]);
    }
    IndexOfAfter(domain, '.', tld);
  }

  /** A string that does not end in a newline is its own core, with or without one added. */
  lemma DropNewlineOf(core: string, s: string)
    requires core != [] && core[|core| - 1] != '\n'
    requires s == core || s == core + "\n"
    ensures DropFinalNewline(s) == core
  {
    if s == core + "\n" {
      assert s[..|s| - 1] == core;
    }
  }

  lemma EmailFormValid(local: string, domain: string, tld: string, email: string)
    requires EmailParts(local, domain, tld)
    requires email == Address(local, domain, tld) || email == Address(local, domain, tld) + "\n"
    ensures ValidateEmail(email)
  {
    var core := Address(local, domain, tld);
    assert core[|core| - 1] == tld[|tld| - 1];
    DropNewlineOf(core, email);
    AddressSplits(local, domain, tld);
  }

  lemma ValidateEmailMatches(email: string)
    ensures ValidateEmail(email) <==> EmailForm(email)
  {
    if ValidateEmail(email) {
      var core := DropFinalNewline(email);
      var a := IndexOf(core, '@').value;
      var rest := core[a + 1..];
      var b := IndexOf(rest, '.').value;
      var local, domain, tld := core[..a], rest[..b], rest[b + 1..];
      assert rest == domain + ['.'] + tld;
      assert core == local + ['@'] + rest;
      assert email == core || email == core + "\n";
      assert EmailParts(local, domain, tld);
    }
    if EmailForm(email) {
      var local, domain, tld :| EmailParts(local, domain, tld) &&
        (email == Address(local, domain, tld) || email == Address(local, domain, tld) + "\n");
      EmailFormValid(local, domain, tld, email);
    }
  }

  // ---------------------------------------------------------------------
  // split_message_by_length
  // ---------------------------------------------------------------------

  /** The string the parts make when put back together. */
  function Concat(parts: seq<string>): string {
    if parts == [] then [] else parts[0] + Concat(parts[1..])
  }

  /** The slices message[i:i+n] for i in range(0, len(message), n). */
  function Chunks(message: string, n: nat): seq<string>
    requires n > 0
    decreases |message|
  {
    if message == [] then []
    else if |message| <= n then [message]
    else [message[..n]] + Chunks(message[n..], n)
  }

  /** range() with a step of zero raises ValueError. */
  datatype SplitError = ZeroStep

  /**
   * split_message_by_length(message, max_length): a message that fits is
   * one part; otherwise the slices taken every max_length characters.
   */
  method SplitMessageByLength(message: string, maxLength: int) returns (r: Result<seq<string>, SplitError>)
    ensures |message| <= maxLength ==> r == Ok([message])
    ensures |message| > maxLength && maxLength == 0 ==> r == Err(ZeroStep)
    ensures |message| > maxLength && maxLength < 0 ==> r == Ok([])
    ensures |message| > maxLength > 0 ==> r == Ok(Chunks(message, maxLength))
  {
    if |message| <= maxLength {
      return Ok([message]);
    }
    if maxLength == 0 {
      return Err(ZeroStep);
    }
    if maxLength < 0 {
      // range(0, len, negative step) is empty
      return Ok([]);
    }
    var n: nat := maxLength;
    var parts: seq<string> := [];
    var i := 0;
    while i < |message|
      invariant 0 <= i <= |message|
      invariant parts + Chunks(message[i..], n) == Chunks(message, n)
      decreases |message| - i
    {
      var j := if i + n <= |message| then i + n else |message|;
      ChunksStep(message, i, j, n);
      parts := parts + [message[i..j]];
      i := j;
    }
    assert message[i..] == [];
    assert Chunks(message[i..], n) == [];
    assert parts + [] == parts;
    r := Ok(parts);
  }

  lemma {:induction false} ChunksConcat(message: string, n: nat)
    requires n > 0
    ensures Concat(Chunks(message, n)) == message
    decreases |message|
  {
    if |message| > n {
      ChunksConcat(message[n..], n);
      assert message == message[..n] + message[n..];
    } else if message != [] {
      assert Concat([message]) == message + Concat([]);
    }
  }

  /** Every part is non-empty and at most n long; all but the last are exactly n. */
  lemma {:induction false} ChunksSizes(message: string, n: nat)
    requires n > 0
    ensures forall k :: 0 <= k < |Chunks(message, n)| ==> 0 < |Chunks(message, n)[k]| <= n
    ensures forall k :: 0 <= k < |Chunks(message, n)| - 1 ==> |Chunks(message, n)[k]| == n
    decreases |message|
  {
    if |message| > n {
      ChunksSizes(message[n..], n);
    }
  }

  /** One slice message[i:i+n], clamped at the end, comes off the front. */
  lemma ChunksStep(message: string, i: nat, j: nat, n: nat)
    requires n > 0 && i < |message| && j == (if i + n <= |message| then i + n else |message|)
    ensures Chunks(message[i..], n) == [message[i..j]] + Chunks(message[j..], n)
  {
    var t := message[i..];
    if |t| <= n {
      assert t == message[i..j];
      assert message[j..] == [];
    } else {
      assert t[..n] == message[i..j];
      assert t[n..] == message[j..];
    }
  }

  /** There are ceil(len / n) parts: the least count whose parts of n cover the message. */
  lemma {:induction false} ChunksCount(message: string, n: nat)
    requires n > 0
    ensures message == [] ==> |Chunks(message, n)| == 0
    ensures message != [] ==> (|Chunks(message, n)| - 1) * n < |message| <= |Chunks(message, n)| * n
    decreases |message|
  {
    if |message| > n {
      var rest := message[n..];
      ChunksCount(rest, n);
      var k := |Chunks(rest, n)|;
      assert |Chunks(message, n)| == k + 1;
      assert (k + 1) * n == k * n + n;
    }
  }

  /** What split_message_by_length promises about a message longer than the limit. */
  lemma SplitParts(message: string, n: nat)
    requires 0 < n < |message|
    ensures Concat(Chunks(message, n)) == message
    ensures |Chunks(message, n)| >= 2
    ensures (|Chunks(message, n)| - 1) * n < |message| <= |Chunks(message, n)| * n
    ensures forall k :: 0 <= k < |Chunks(message, n)| ==> 0 < |Chunks(message, n)[k]| <= n
    ensures forall k :: 0 <= k < |Chunks(message, n)| - 1 ==> |Chunks(message, n)[k]| == n
  {
    ChunksConcat(message, n);
    ChunksSizes(message, n);
    ChunksCount(message, n);
    assert Chunks(message, n) == [message[..n]] + Chunks(message[n..], n);
  }

  // ---------------------------------------------------------------------
  // escape_html and parse_html_entities, as written
  // ---------------------------------------------------------------------

  /** A replacement table: each entry is one str.replace(fst, snd). */
  predicate Patterns(table: seq<(string, string)>) {
    forall k :: 0 <= k < |table| ==> |table[k].0| > 0
  }

  /** The replacements applied one after the other, in table order. */
  function ReplaceAll(s: string, table: seq<(string, string)>): string
    requires Patterns(table)
  {
    if table == [] then s
    else
      var last := table[|table| - 1];
      Replace(ReplaceAll(s, table[..|table| - 1]), last.0, last.1)
  }

  lemma ReplaceAllSnoc(s: string, table: seq<(string, string)>, k: nat)
    requires Patterns(table) && k < |table|
    ensures ReplaceAll(s, table[..k + 1]) == Replace(ReplaceAll(s, table[..k]), table[k].0, table[k].1)
  {
    assert table[..k + 1][..k] == table[..k];
  }

  /** The dictionary of escape_html, in its iteration order. */
  const EscapeTable: seq<(string, string)> :=
    [("<", "&lt;"), (">", "&gt;"), ("&", "&amp;"), ("\"", "&quot;"), ("'", "&#39;")]

  /** The dictionary of parse_html_entities, in its iteration order. */
  const EntityTable: seq<(string, string)> :=
    [("&lt;", "<"), ("&gt;", ">"), ("&amp;", "&"), ("&quot;", "\""), ("&#39;", "'")]

  /** The loop over a replacement dictionary that both helpers share. */
  method ReplaceEach(text: string, table: seq<(string, string)>) returns (r: string)
    requires Patterns(table)
    ensures r == ReplaceAll(text, table)
  {
    r := text;
    for i := 0 to |table|
      invariant r == ReplaceAll(text, table[..i])
    {
      ReplaceAllSnoc(text, table, i);
      r := Replace(r, table[i].0, table[i].1);
    }
    assert table[..|table|] == table;
  }

  /** escape_html */
  method EscapeHtml(text: string) returns (r: string)
    ensures r == ReplaceAll(text, EscapeTable)
  {
    r := ReplaceEach(text, EscapeTable);
  }

  /** parse_html_entities */
  method ParseHtmlEntities(text: string) returns (r: string)
    ensures r == ReplaceAll(text, EntityTable)
  {
    r := ReplaceEach(text, EntityTable);
  }

  /** The escape passes written out one at a time. */
  lemma EscapeSteps(text: string)
    ensures ReplaceAll(text, EscapeTable) ==
      Replace(Replace(Replace(Replace(Replace(text, "<", "&lt;"), ">", "&gt;"), "&", "&amp;"), "\"", "&quot;"), "'", "&#39;")
  {
    var t := EscapeTable;
    ReplaceAllSnoc(text, t, 0);
    ReplaceAllSnoc(text, t, 1);
    ReplaceAllSnoc(text, t, 2);
    ReplaceAllSnoc(text, t, 3);
    ReplaceAllSnoc(text, t, 4);
    assert t[..5] == t;
  }

  lemma EntitySteps(text: string)
    ensures ReplaceAll(text, EntityTable) ==
      Replace(Replace(Replace(Replace(Replace(text, "&lt;", "<"), "&gt;", ">"), "&amp;", "&"), "&quot;", "\""), "&#39;", "'")
  {
    var t := EntityTable;
    ReplaceAllSnoc(text, t, 0);
    ReplaceAllSnoc(text, t, 1);
    ReplaceAllSnoc(text, t, 2);
    ReplaceAllSnoc(text, t, 3);
    ReplaceAllSnoc(text, t, 4);
    assert t[..5] == t;
  }

  /** escape_html leaves no '<', '>', '"' or "'" in its output. */
  lemma EscapeRemovesSpecials(text: string)
    ensures '<' !in ReplaceAll(text, EscapeTable)
    ensures '>' !in ReplaceAll(text, EscapeTable)
    ensures '"' !in ReplaceAll(text, EscapeTable)
    ensures '\'' !in ReplaceAll(text, EscapeTable)
  {
    EscapeSteps(text);
    var s1 := Replace(text, "<", "&lt;");
    ReplaceRemovesChar(text, '<', "&lt;");
    var s2 := Replace(s1, ">", "&gt;");
    ReplaceRemovesChar(s1, '>', "&gt;");
    ReplaceKeepsAbsent(s1, ">", "&gt;", '<');
    var s3 := Replace(s2, "&", "&amp;");
    ReplaceKeepsAbsent(s2, "&", "&amp;", '<');
    ReplaceKeepsAbsent(s2, "&", "&amp;", '>');
    var s4 := Replace(s3, "\"", "&quot;");
    ReplaceRemovesChar(s3, '"', "&quot;");
    ReplaceKeepsAbsent(s3, "\"", "&quot;", '<');
    ReplaceKeepsAbsent(s3, "\"", "&quot;", '>');
    ReplaceRemovesChar(s4, '\'', "&#39;");
    ReplaceKeepsAbsent(s4, "'", "&#39;", '<');
    ReplaceKeepsAbsent(s4, "'", "&#39;", '>');
    ReplaceKeepsAbsent(s4, "'", "&#39;", '"');
  }

  /** Text with none of the five special characters is returned unchanged. */
  lemma EscapePlainUnchanged(text: string)
    requires '<' !in text && '>' !in text && '&' !in text && '"' !in text && '\'' !in text
    ensures ReplaceAll(text, EscapeTable) == text
  {
    EscapeSteps(text);
    ReplaceNoHead(text, "<", "&lt;");
    ReplaceNoHead(text, ">", "&gt;");
    ReplaceNoHead(text, "&", "&amp;");
    ReplaceNoHead(text, "\"", "&quot;");
    ReplaceNoHead(text, "'", "&#39;");
  }

  /** Text without '&' holds no entity and is returned unchanged. */
  lemma EntityPlainUnchanged(text: string)
    requires '&' !in text
    ensures ReplaceAll(text, EntityTable) == text
  {
    EntitySteps(text);
    ReplaceNoHead(text, "&lt;", "<");
    ReplaceNoHead(text, "&gt;", ">");
    ReplaceNoHead(text, "&amp;", "&");
    ReplaceNoHead(text, "&quot;", "\"");
    ReplaceNoHead(text, "&#39;", "'");
  }

  /**
   * Because '&' is escaped after '<', a '<' comes out escaped twice: with
   * rest == [], escape_html("<") is "&amp;lt;" rather than "&lt;".
   */
  lemma EscapeChain(s0: string, s1: string, s2: string, s3: string, s4: string, s5: string)
    requires s1 == Replace(s0, "<", "&lt;") && s2 == Replace(s1, ">", "&gt;") && s3 == Replace(s2, "&", "&amp;")
    requires s4 == Replace(s3, "\"", "&quot;") && s5 == Replace(s4, "'", "&#39;")
    ensures ReplaceAll(s0, EscapeTable) == s5
  {
    EscapeSteps(s0);
  }

  /** The entity texts of the two findings, split after their leading '&' or "&amp;". */
  lemma EntityShapes(rest: string)
    ensures "&lt;" + rest == "&" + ("lt;" + rest)
    ensures "&amp;" + ("lt;" + rest) == "&amp;lt;" + rest
    ensures "&amp;quot;" + rest == "&amp;" + ("quot;" + rest)
    ensures "&" + ("quot;" + rest) == "&quot;" + rest
  {
    assert "&lt;" + rest == "&" + ("lt;" + rest);
    assert "&amp;" + ("lt;" + rest) == "&amp;lt;" + rest;
    assert "&amp;quot;" + rest == "&amp;" + ("quot;" + rest);
    assert "&" + ("quot;" + rest) == "&quot;" + rest;
  }

  lemma EscapeDoublesLessThan(rest: string)
    requires '<' !in rest && '>' !in rest && '&' !in rest && '"' !in rest && '\'' !in rest
    ensures ReplaceAll("<" + rest, EscapeTable) == "&amp;lt;" + rest
  {
    assert Replace("<" + rest, "<", "&lt;") == "&lt;" + rest by {
      ReplaceHeadOnly("<", rest, "&lt;");
    }
    ReplaceNoHead("&lt;" + rest, ">", "&gt;");
    assert Replace("&lt;" + rest, "&", "&amp;") == "&amp;lt;" + rest by {
      EntityShapes(rest);
      ReplaceHeadOnly("&", "lt;" + rest, "&amp;");
    }
    ReplaceNoHead("&amp;lt;" + rest, "\"", "&quot;");
    ReplaceNoHead("&amp;lt;" + rest, "'", "&#39;");
    EscapeChain("<" + rest, "&lt;" + rest, "&lt;" + rest, "&amp;lt;" + rest, "&amp;lt;" + rest, "&amp;lt;" + rest);
  }

  /**
   * Because "&amp;" is decoded before "&quot;", an escaped entity is decoded
   * twice: with rest == [], parse_html_entities("&amp;quot;") is "\"" rather
   * than "&quot;".
   */
  lemma EntityDecodesTwice(rest: string)
    requires '&' !in rest
    ensures ReplaceAll("&amp;quot;" + rest, EntityTable) == "\"" + rest
  {
    NoEntityAfterAmp(rest, "&lt;", "<");
    NoEntityAfterAmp(rest, "&gt;", ">");
    assert Replace("&amp;quot;" + rest, "&amp;", "&") == "&quot;" + rest by {
      EntityShapes(rest);
      ReplaceHeadOnly("&amp;", "quot;" + rest, "&");
    }
    assert Replace("&quot;" + rest, "&quot;", "\"") == "\"" + rest by {
      ReplaceHeadOnly("&quot;", rest, "\"");
    }
    ReplaceNoHead("\"" + rest, "&#39;", "'");
    EntityChain("&amp;quot;" + rest, "&amp;quot;" + rest, "&amp;quot;" + rest, "&quot;" + rest, "\"" + rest, "\"" + rest);
  }

  lemma EntityChain(s0: string, s1: string, s2: string, s3: string, s4: string, s5: string)
    requires s1 == Replace(s0, "&lt;", "<") && s2 == Replace(s1, "&gt;", ">") && s3 == Replace(s2, "&amp;", "&")
    requires s4 == Replace(s3, "&quot;", "\"") && s5 == Replace(s4, "&#39;", "'")
    ensures ReplaceAll(s0, EntityTable) == s5
  {
    EntitySteps(s0);
  }

  /** In "&amp;quot;" + rest, the only '&' starts "&amp", so no other four-character entity occurs. */
  lemma NoEntityAfterAmp(rest: string, pat: string, rep: string)
    requires '&' !in rest && |pat| == 4 && pat[0] == '&' && pat[1] != 'a'
    ensures Replace("&amp;quot;" + rest, pat, rep) == "&amp;quot;" + rest
  {
    var s := "&amp;quot;" + rest;
    assert !(pat <= s) by { assert s[1] != pat[1]; }
    ReplaceSkip(s, pat, rep);
    assert s[1..] == "amp;quot;" + rest;
    ReplaceNoHead(s[1..], pat, rep);
    assert s == [s[0]] + s[1..];
  }

  // ---------------------------------------------------------------------
  // The evidently intended helpers: one pass over the text
  // ---------------------------------------------------------------------

  /** The entity that stands for a special character, or the character itself. */
  function EscapeChar(c: char): string {
    if c == '<' then "&lt;"
    else if c == '>' then "&gt;"
    else if c == '&' then "&amp;"
    else if c == '"' then "&quot;"
    else if c == '\'' then "&#39;"
    else [c]
  }

  /** Escaping each character of the text exactly once. */
  function EscapeChars(text: string): string {
    if text == [] then [] else EscapeChar(text[0]) + EscapeChars(text[1..])
  }

  /** The entity the text starts with, as the character and the entity's length. */
  function EntityAt(s: string): Option<(char, nat)> {
    if "&lt;" <= s then Some(('<', 4))
    else if "&gt;" <= s then Some(('>', 4))
    else if "&amp;" <= s then Some(('&', 5))
    else if "&quot;" <= s then Some(('"', 6))
    else if "&#39;" <= s then Some(('\'', 5))
    else None
  }

  /** Decoding each entity of the text exactly once, left to right. */
  function DecodeEntities(s: string): string
    decreases |s|
  {
    if s == [] then []
    else
      match EntityAt(s)
      case Some((c, k)) => if k <= |s| then [c] + DecodeEntities(s[k..]) else s
      case None => [s[0]] + DecodeEntities(s[1..])
  }

  lemma EntityPrefix(e: string, rest: string)
    requires |e| > 0
    ensures e <= e + rest && (e + rest)[|e|..] == rest
  {
  }

  /** Decoding the escape of one character gives that character back. */
  lemma DecodeEscapedChar(c: char, rest: string)
    ensures DecodeEntities(EscapeChar(c) + rest) == [c] + DecodeEntities(rest)
  {
    var e := EscapeChar(c);
    var s := e + rest;
    if c == '<' || c == '>' || c == '&' || c == '"' || c == '\'' {
      EntityPrefix(e, rest);
      assert s[..|e|] == e;
      assert s[1] == e[1] && s[2] == e[2];
      assert EntityAt(s) == Some((c, |e|));
    } else {
      assert s[0] == c && s[1..] == rest;
      assert EntityAt(s) == None by { assert c != '&'; }
    }
  }

  /** The intended round trip: decoding what was escaped gives the text back. */
  lemma {:induction false} DecodeEscapeRoundTrip(text: string)
    ensures DecodeEntities(EscapeChars(text)) == text
    decreases |text|
  {
    if text != [] {
      DecodeEscapeRoundTrip(text[1..]);
      DecodeEscapedChar(text[0], EscapeChars(text[1..]));
      assert text == [text[0]] + text[1..];
    }
  }

  /** The single pass escapes '<' once, where the sequence of replacements escaped it twice. */
  lemma EscapeCharsLessThan()
    ensures EscapeChars("<") == "&lt;"
  {
    assert EscapeChars("<") == "&lt;" + EscapeChars([]);
  }

  /** Text without '&' holds no entity and decodes to itself. */
  lemma {:induction false} DecodePlain(s: string)
    requires '&' !in s
    ensures DecodeEntities(s) == s
    decreases |s|
  {
    if s != [] {
      assert s[0] != '&';
      assert EntityAt(s) == None;
      DecodePlain(s[1..]);
      assert s == [s[0]] + s[1..];
    }
  }

  /**
   * The single pass decodes "&amp;" to '&' and leaves what follows alone, so
   * with rest == "quot;" the text "&amp;quot;" gives "&quot;".
   */
  lemma DecodeOnce(rest: string)
    requires '&' !in rest
    ensures DecodeEntities("&amp;" + rest) == "&" + rest
  {
    DecodeEscapedChar('&', rest);
    DecodePlain(rest);
  }

  lemma EscapeCharClean(c: char)
    ensures '<' !in EscapeChar(c) && '>' !in EscapeChar(c)
    ensures '"' !in EscapeChar(c) && '\'' !in EscapeChar(c)
  {
  }

  /** The single pass leaves no special character except the '&' of its entities. */
  lemma {:induction false} EscapeCharsRemovesSpecials(text: string)
    ensures '<' !in EscapeChars(text) && '>' !in EscapeChars(text)
    ensures '"' !in EscapeChars(text) && '\'' !in EscapeChars(text)
    decreases |text|
  {
    if text != [] {
      EscapeCharsRemovesSpecials(text[1..]);
      EscapeCharClean(text[0]);
    }
  }
}
