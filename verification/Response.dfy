/** Three printers of c/src/response.c, and that json_get_string reads back what they print. */
module Response {
  import opened CString
  import opened Ctype
  import opened Decimal
  import opened Json
  import opened Wrappers

  const ESC_SIZE: nat := 512
  const ESC_PTYPE_SIZE: nat := 1024

  /** Text that json_escape leaves alone. */
  predicate Clean(s: string) {
    forall i :: 0 <= i < |s| ==> s[i] !in "\"\\\n\r\t"
  }

  // The fields of tse_transaction_t, and the buffers error messages come from
  const FIELD_SIZE: nat := 256
  const PTYPE_SIZE: nat := 512

  /** What a char array of that size can hold as a C string. */
  predicate Holds(v: string, size: nat) {
    '\0' !in v && |v| < size
  }

  lemma {:induction false} EscapeClean(s: string)
    requires Clean(s)
    ensures Escape(s) == s
  {
    if s != "" {
      assert s[0] !in "\"\\\n\r\t";
      assert forall i :: 0 <= i < |s[1..]| ==> s[1..][i] == s[i + 1];
      EscapeClean(s[1..]);
    }
  }

  lemma EscapeCharHasNoNul(c: char)
    requires c != '\0'
    ensures '\0' !in EscapeChar(c)
  {
  }

  lemma {:induction false} EscapeHasNoNul(v: string)
    requires '\0' !in v
    ensures '\0' !in Escape(v)
  {
    hide EscapeChar;
    if v != "" {
      assert v[0] in v && forall c :: c in v[1..] ==> c in v;
      EscapeCharHasNoNul(v[0]);
      EscapeHasNoNul(v[1..]);
    }
  }

  /** json_escape into a local buffer twice the size, which never fails, read back as a C string. */
  method Escaped(v: string, size: nat) returns (esc: string)
    requires '\0' !in v && 2 * |v| < size
    ensures esc == Escape(v)
  {
    EscapeAtMostDoubles(v);
    var buf := new char[size];
    var rc := JsonEscape(v, buf);
    EscapeHasNoNul(v);
    assert buf[..][|Escape(v)|] == '\0';
    var n := StrLen(buf);
    Terminator(buf[..], Escape(v), n);
    esc := buf[..n];
  }

  // ----- Errors -----

  function TxErrorText(code: string, message: string): string {
    "{\"code\":\"" + code + "\",\"message\":\"" + Escape(message) + "\"}"
  }

  function ErrorText(error: string, description: string): string {
    "{\"error\":\"" + error + "\",\"error_description\":\"" + Escape(description)
    + "\",\"message\":\"" + Escape(description) + "\"}"
  }

  /** response_tx_error_json: complete, or refused when it does not fit. */
  method TxErrorJson(code: string, message: string, out: array<char>) returns (rc: int)
    requires Holds(message, FIELD_SIZE)
    modifies out
    ensures var text := TxErrorText(code, message);
            && rc == (if |text| < out.Length then 0 else -1)
            && (rc == 0 ==> out[..|text|] == text && out[|text|] == '\0')
  {
    var esc := Escaped(message, ESC_SIZE);
    assert out[..0] == "";
    var n := Snprintf(out, 0, "{\"code\":\"" + code + "\",\"message\":\"" + esc + "\"}");
    rc := if n < out.Length then 0 else -1;
  }

  /** response_error_json */
  method ErrorJson(error: string, description: string, out: array<char>) returns (rc: int)
    requires Holds(description, FIELD_SIZE)
    modifies out
    ensures var text := ErrorText(error, description);
            && rc == (if |text| < out.Length then 0 else -1)
            && (rc == 0 ==> out[..|text|] == text && out[|text|] == '\0')
  {
    var esc := Escaped(description, ESC_SIZE);
    assert out[..0] == "";
    var n := Snprintf(out, 0, "{\"error\":\"" + error + "\",\"error_description\":\"" + esc
                              + "\",\"message\":\"" + esc + "\"}");
    rc := if n < out.Length then 0 else -1;
  }

  function TxErrorFields(code: string, message: string): seq<Field> {
    [Field("code", code), Field("message", message)]
  }

  function ErrorFields(error: string, description: string): seq<Field> {
    [Field("error", error), Field("error_description", description), Field("message", description)]
  }

  /** "name":" */
  function Opening(name: string): string {
    "\"" + name + "\":\""
  }

  lemma TextPair(f: Field, doc: seq<Token>)
    ensures Text([Key(f.name)] + ([Str(f.value)] + doc)) == Opening(f.name) + Escape(f.value) + "\"" + Text(doc)
  {
    TextCons(Str(f.value), doc);
    TextCons(Key(f.name), [Str(f.value)] + doc);
    assert Opening(f.name) == Spell(Key(f.name)) + "\"";
    Requote(Spell(Key(f.name)), "\"", Escape(f.value), Text(doc));
  }

  lemma Requote(a: string, q: string, b: string, d: string)
    ensures a + ((q + b + q) + d) == (a + q) + b + q + d
  {
  }

  lemma NoText()
    ensures Text([]) == ""
  {
  }

  lemma TextAfter(fs: seq<Field>)
    requires fs != []
    ensures Text(AfterFirst(fs)) == if |fs| == 1 then "}" else "," + Text(Members(fs[1..]))
  {
    hide Text, Members;
    NoText();
    if |fs| == 1 {
      TextCons(Raw("}"), []);
      assert [Raw("}")] + [] == [Raw("}")];
    } else {
      TextCons(Raw(","), Members(fs[1..]));
    }
  }

  lemma TextMembers(fs: seq<Field>)
    requires fs != []
    ensures Text(Members(fs)) == Opening(fs[0].name) + Escape(fs[0].value) + "\"" +
            if |fs| == 1 then "}" else "," + Text(Members(fs[1..]))
  {
    hide Text, Members, Opening, Escape, AfterFirst;
    MembersSplit(fs);
    TextPair(fs[0], AfterFirst(fs));
    TextAfter(fs);
  }

  lemma TextObject(fs: seq<Field>)
    ensures Text(Object(fs)) == "{" + Text(Members(fs))
  {
    TextCons(Raw("{"), Members(fs));
  }

  /** The text of an object of two fields. */
  lemma TextOfTwo(f: Field, g: Field)
    ensures Text(Object([f, g])) ==
            "{" + (Opening(f.name) + Escape(f.value) + "\"" + ("," + (Opening(g.name) + Escape(g.value) + "\"" + "}")))
  {
    TextObject([f, g]);
    TextMembers([f, g]);
    assert [f, g][1..] == [g];
    TextMembers([g]);
  }

  lemma TextOfThree(f: Field, g: Field, h: Field)
    ensures Text(Object([f, g, h])) ==
            "{" + (Opening(f.name) + Escape(f.value) + "\"" + ("," + (Opening(g.name) + Escape(g.value) + "\"" +
            ("," + (Opening(h.name) + Escape(h.value) + "\"" + "}")))))
  {
    TextObject([f, g, h]);
    TextMembers([f, g, h]);
    assert [f, g, h][1..] == [g, h];
    TextMembers([g, h]);
    assert [g, h][1..] == [h];
    TextMembers([h]);
  }

  /** The same text, cut as the format string cuts it and as the tokens do. */
  lemma Regroup(o: string, k: string, v: string, q: string, s: string, l: string, w: string, b: string)
    ensures (o + k) + v + ((q + s) + l) + w + (q + b) == o + (k + v + q + (s + (l + w + q + b)))
  {
  }

  lemma RegroupMore(o: string, k: string, v: string, q: string, s: string, l: string, w: string, m: string,
                    x: string, b: string)
    ensures (o + k) + v + ((q + s) + l) + w + ((q + s) + m) + x + (q + b)
            == o + (k + v + q + (s + (l + w + q + (s + (m + x + q + b)))))
  {
    var tail := s + (m + x + q + b);
    assert ((q + s) + m) + x + (q + b) == q + tail;
    Regroup(o, k, v, q, s, l, w, tail);
    var front := (o + k) + v + ((q + s) + l) + w;
    assert front + ((q + s) + m) + x + (q + b) == front + (((q + s) + m) + x + (q + b));
    assert l + w + q + tail == l + w + q + (s + (m + x + q + b));
  }

  /** The printed error is the flat object of its two fields. */
  lemma TxErrorIsObject(code: string, message: string)
    requires Clean(code)
    ensures TxErrorText(code, message) == Text(Object(TxErrorFields(code, message)))
  {
    EscapeClean(code);
    TextOfTwo(Field("code", code), Field("message", message));
    assert "{\"code\":\"" == "{" + Opening("code");
    assert "\",\"message\":\"" == ("\"" + ",") + Opening("message");
    assert "\"}" == "\"" + "}";
    hide Text, Escape, Opening;
    Regroup("{", Opening("code"), code, "\"", ",", Opening("message"), Escape(message), "}");
  }

  lemma ErrorLiterals()
    ensures "{\"error\":\"" == "{" + Opening("error")
    ensures "\",\"message\":\"" == ("\"" + ",") + Opening("message")
    ensures "\"}" == "\"" + "}"
  {
  }

  lemma DescriptionLiteral()
    ensures "\",\"error_description\":\"" == ("\"" + ",") + Opening("error_description")
  {
  }

  lemma ErrorIsObject(error: string, description: string)
    requires Clean(error)
    ensures ErrorText(error, description) == Text(Object(ErrorFields(error, description)))
  {
    EscapeClean(error);
    var d := Escape(description);
    TextOfThree(Field("error", error), Field("error_description", description), Field("message", description));
    ErrorLiterals();
    DescriptionLiteral();
    hide Text, Escape, Opening;
    RegroupMore("{", Opening("error"), error, "\"", ",", Opening("error_description"), d, Opening("message"), d, "}");
  }

  predicate CleanKey(key: string) {
    Plain(key) && |key| <= 125
  }

  lemma NamesArePlain()
    ensures Plain("code") && Plain("message") && Plain("error") && Plain("error_description")
  {
    assert forall i :: 0 <= i < 17 ==> IsWord("error_description"[i]);
  }

  lemma FirstCons(f: Field, fs: seq<Field>, key: string)
    ensures FirstField([f] + fs, key) == if f.name == key then Some(f.value) else FirstField(fs, key)
  {
    assert ([f] + fs)[1..] == fs;
  }

  /** Reading a printed error back: the message comes back (line breaks and tabs apart), whatever it
      contains, and no other key is found. */
  lemma TxErrorReadsBack(code: string, message: string, key: string, outlen: nat)
    requires Clean(code) && CleanKey(key) && outlen > 0
    ensures GetString(TxErrorText(code, message), key, outlen) ==
            if key == "code" then Some(Take(Reread(code), outlen - 1))
            else if key == "message" then Some(Take(Reread(message), outlen - 1))
            else None
  {
    hide GetString, Text, TxErrorText, Take, Reread, Object, FirstField, Plain;
    var f, g := Field("code", code), Field("message", message);
    TxErrorIsObject(code, message);
    NamesArePlain();
    FlatLookup([f, g], key, outlen);
    NoField(key);
    FirstCons(g, [], key);
    FirstCons(f, [g], key);
    assert [g] + [] == [g] && [f] + [g] == [f, g];
  }

  lemma NoField(key: string)
    ensures FirstField([], key) == None
  {
  }

  lemma ErrorReadsBack(error: string, description: string, key: string, outlen: nat)
    requires Clean(error) && CleanKey(key) && outlen > 0
    ensures GetString(ErrorText(error, description), key, outlen) ==
            if key == "error" then Some(Take(Reread(error), outlen - 1))
            else if key == "error_description" || key == "message" then Some(Take(Reread(description), outlen - 1))
            else None
  {
    hide GetString, Text, ErrorText, Take, Reread, Object, FirstField, Plain;
    var f, g, h := Field("error", error), Field("error_description", description), Field("message", description);
    ErrorIsObject(error, description);
    NamesArePlain();
    FlatLookup([f, g, h], key, outlen);
    NoField(key);
    FirstCons(h, [], key);
    FirstCons(g, [h], key);
    FirstCons(f, [g, h], key);
    assert [h] + [] == [h] && [g] + [h] == [g, h] && [f] + [g, h] == [f, g, h];
  }

  // ----- The list of open transactions -----

  datatype OpenTx = OpenTx(number: nat, clientId: string, externalId: string, processType: string, startTime: string)

  predicate Printable(tx: OpenTx) {
    && Holds(tx.clientId, FIELD_SIZE) && Holds(tx.externalId, FIELD_SIZE) && Holds(tx.processType, PTYPE_SIZE)
    && Clean(tx.startTime)
  }

  /** The three lines of the format string. */
  function ItemBody(tx: OpenTx): string {
    ("{\"transactionNumber\":\"" + Print(tx.number) + "\",\"clientId\":\"" + Escape(tx.clientId) + "\",")
    + ("\"externalTransactionId\":\"" + Escape(tx.externalId) + "\",\"processType\":\"" + Escape(tx.processType)
       + "\",")
    + ("\"startTime\":\"" + tx.startTime + "\"}")
  }

  function ItemText(tx: OpenTx, first: bool): string {
    (if first then "" else ",") + ItemBody(tx)
  }

  function ItemsText(txs: seq<OpenTx>): string {
    if txs == [] then ""
    else ItemsText(txs[..|txs| - 1]) + ItemText(txs[|txs| - 1], |txs| == 1)
  }

  const OPEN_HEAD: string := "{\"openTransactions\":["

  function OpenTail(count: nat): string {
    "],\"count\":" + Print(count) + "}"
  }

  function OpenText(txs: seq<OpenTx>): string {
    OPEN_HEAD + ItemsText(txs) + OpenTail(|txs|)
  }

  lemma {:induction false} ItemsGrow(txs: seq<OpenTx>, i: nat)
    requires i <= |txs|
    ensures |ItemsText(txs[..i])| <= |ItemsText(txs)|
    decreases |txs|
  {
    if i == |txs| {
      assert txs[..i] == txs;
    } else {
      var n := |txs| - 1;
      ItemsGrow(txs[..n], i);
      assert txs[..n][..i] == txs[..i];
    }
  }

  lemma NextItem(txs: seq<OpenTx>, i: nat)
    requires i < |txs|
    ensures ItemsText(txs[..i + 1]) == ItemsText(txs[..i]) + ItemText(txs[i], i == 0)
    ensures |ItemsText(txs[..i + 1])| <= |ItemsText(txs)|
  {
    assert txs[..i + 1][..i] == txs[..i];
    ItemsGrow(txs, i + 1);
  }

  /** The text printed for one transaction. */
  method FormatItem(tx: OpenTx, first: bool) returns (text: string)
    requires Printable(tx)
    ensures text == ItemText(tx, first)
  {
    hide Escape, Print;
    var escClient := Escaped(tx.clientId, ESC_SIZE);
    var escExt := Escaped(tx.externalId, ESC_SIZE);
    var escPtype := Escaped(tx.processType, ESC_PTYPE_SIZE);
    text := ("{\"transactionNumber\":\"" + Print(tx.number) + "\",\"clientId\":\"" + escClient + "\",")
            + ("\"externalTransactionId\":\"" + escExt + "\",\"processType\":\"" + escPtype + "\",")
            + ("\"startTime\":\"" + tx.startTime + "\"}");
    text := (if first then "" else ",") + text;
  }

  /** response_open_transactions_json: all of it, or refused when it does not fit. */
  method OpenTransactionsJson(txs: seq<OpenTx>, out: array<char>) returns (rc: int)
    requires forall tx :: tx in txs ==> Printable(tx)
    modifies out
    ensures var text := OpenText(txs);
            && rc == (if |text| < out.Length then 0 else -1)
            && (rc == 0 ==> out[..|text|] == text && out[|text|] == '\0')
  {
    hide ItemsText, ItemText, OpenTail;
    var pos: nat := 0;
    assert out[..0] == "";
    var n := Snprintf(out, pos, OPEN_HEAD);
    if n >= out.Length - pos {
      return -1;
    }
    pos := pos + n;
    NoItems(txs);
    for i := 0 to |txs|
      invariant pos < out.Length && out[..pos] == OPEN_HEAD + ItemsText(txs[..i])
    {
      NextItem(txs, i);
      var item := FormatItem(txs[i], i == 0);
      n := Snprintf(out, pos, item);
      if n >= out.Length - pos {
        return -1;
      }
      pos := pos + n;
      assert out[..pos] == OPEN_HEAD + ItemsText(txs[..i + 1]);
    }
    assert txs[..|txs|] == txs;
    n := Snprintf(out, pos, OpenTail(|txs|));
    if n >= out.Length - pos {
      return -1;
    }
    return 0;
  }

  lemma NoItems(txs: seq<OpenTx>)
    ensures ItemsText(txs[..0]) == ""
  {
  }

  // ----- The list as a document -----

  function ItemFields(tx: OpenTx): seq<Field> {
    [Field("transactionNumber", Print(tx.number)), Field("clientId", tx.clientId),
     Field("externalTransactionId", tx.externalId), Field("processType", tx.processType),
     Field("startTime", tx.startTime)]
  }

  lemma TextOfFive(f: Field, g: Field, h: Field, i: Field, j: Field)
    ensures Text(Object([f, g, h, i, j])) ==
            "{" + (Opening(f.name) + Escape(f.value) + "\"" + ("," + (Opening(g.name) + Escape(g.value) + "\"" +
            ("," + (Opening(h.name) + Escape(h.value) + "\"" + ("," + (Opening(i.name) + Escape(i.value) + "\"" +
            ("," + (Opening(j.name) + Escape(j.value) + "\"" + "}")))))))))
  {
    hide Text, Members;
    TextObject([f, g, h, i, j]);
    TextMembers([f, g, h, i, j]);
    assert [f, g, h, i, j][1..] == [g, h, i, j];
    TextMembers([g, h, i, j]);
    assert [g, h, i, j][1..] == [h, i, j];
    TextMembers([h, i, j]);
    assert [h, i, j][1..] == [i, j];
    TextMembers([i, j]);
    assert [i, j][1..] == [j];
    TextMembers([j]);
  }

  /** Two fields of the object and what follows them. */
  function TwoFields(k: string, v: string, l: string, w: string): string {
    k + v + ("\"," + l) + w + "\","
  }

  lemma TwoThen(k: string, v: string, l: string, w: string, rest: string)
    ensures k + v + "\"" + ("," + (l + w + "\"" + ("," + rest))) == TwoFields(k, v, l, w) + rest
  {
    assert "\"," == "\"" + ",";
    Cut(k + v, l + w, "\"", ",", l, w, rest);
  }

  lemma Cut(a: string, b: string, q: string, s: string, l: string, w: string, rest: string)
    requires b == l + w
    ensures a + q + (s + (b + q + (s + rest))) == a + ((q + s) + l) + w + (q + s) + rest
  {
  }

  lemma NumberLiteral()
    ensures "{\"transactionNumber\":\"" == "{" + Opening("transactionNumber")
  {
  }

  lemma ItemLiterals()
    ensures "\",\"clientId\":\"" == "\"," + Opening("clientId")
    ensures "\",\"processType\":\"" == "\"," + Opening("processType")
  {
  }

  lemma MoreItemLiterals()
    ensures "\"externalTransactionId\":\"" == Opening("externalTransactionId")
    ensures "\"startTime\":\"" == Opening("startTime")
    ensures "\"}" == "\"" + "}"
  {
  }

  lemma FirstLine(v: string, w: string)
    ensures "{\"transactionNumber\":\"" + v + "\",\"clientId\":\"" + w + "\","
            == "{" + TwoFields(Opening("transactionNumber"), v, Opening("clientId"), w)
  {
    NumberLiteral();
    ItemLiterals();
    hide Opening;
  }

  lemma SecondLine(v: string, w: string)
    ensures "\"externalTransactionId\":\"" + v + "\",\"processType\":\"" + w + "\","
            == TwoFields(Opening("externalTransactionId"), v, Opening("processType"), w)
  {
    ItemLiterals();
    MoreItemLiterals();
    hide Opening;
  }

  lemma ThirdLine(v: string)
    ensures "\"startTime\":\"" + v + "\"}" == Opening("startTime") + v + "\"" + "}"
  {
    MoreItemLiterals();
    hide Opening;
  }

  lemma JoinLines(o: string, a: string, b: string, c: string)
    ensures (o + a) + b + c == o + (a + (b + c))
  {
  }

  lemma PrintIsClean(n: nat)
    ensures Clean(Print(n))
  {
  }

  /** One printed transaction is a flat object. */
  lemma ItemIsObject(tx: OpenTx)
    requires Clean(tx.startTime)
    ensures ItemBody(tx) == Text(Object(ItemFields(tx)))
  {
    PrintIsClean(tx.number);
    EscapeClean(Print(tx.number));
    EscapeClean(tx.startTime);
    hide Text, Escape, Opening, Print, Object, TwoFields;
    var fs := ItemFields(tx);
    TextOfFive(fs[0], fs[1], fs[2], fs[3], fs[4]);
    var n, c, x, p := Print(tx.number), Escape(tx.clientId), Escape(tx.externalId), Escape(tx.processType);
    FirstLine(n, c);
    SecondLine(x, p);
    ThirdLine(tx.startTime);
    var last := Opening("startTime") + tx.startTime + "\"" + "}";
    var second := TwoFields(Opening("externalTransactionId"), x, Opening("processType"), p);
    TwoThen(Opening("externalTransactionId"), x, Opening("processType"), p, last);
    TwoThen(Opening("transactionNumber"), n, Opening("clientId"), c, second + last);
    JoinLines("{", TwoFields(Opening("transactionNumber"), n, Opening("clientId"), c), second, last);
  }

  function ItemDoc(tx: OpenTx, first: bool): seq<Token> {
    (if first then [] else [Raw(",")]) + Object(ItemFields(tx))
  }

  function ItemsDoc(txs: seq<OpenTx>): seq<Token> {
    if txs == [] then [] else ItemsDoc(txs[..|txs| - 1]) + ItemDoc(txs[|txs| - 1], |txs| == 1)
  }

  function HeadDoc(): seq<Token> {
    [Raw("{"), Key("openTransactions"), Raw("[")]
  }

  function TailDoc(count: nat): seq<Token> {
    [Raw("],"), Key("count"), Raw(Print(count) + "}")]
  }

  function OpenDoc(txs: seq<OpenTx>): seq<Token> {
    HeadDoc() + (ItemsDoc(txs) + TailDoc(|txs|))
  }

  lemma ItemNamesArePlain()
    ensures Plain("transactionNumber") && Plain("clientId") && Plain("externalTransactionId")
    ensures Plain("processType") && Plain("startTime") && Plain("openTransactions") && Plain("count")
  {
    assert forall i :: 0 <= i < 21 ==> IsWord("externalTransactionId"[i]);
    assert forall i :: 0 <= i < 17 ==> IsWord("transactionNumber"[i]);
    assert forall i :: 0 <= i < 16 ==> IsWord("openTransactions"[i]);
  }

  lemma ItemIsDoc(tx: OpenTx, first: bool)
    requires Clean(tx.startTime)
    ensures Doc(ItemDoc(tx, first)) && Text(ItemDoc(tx, first)) == ItemText(tx, first)
  {
    hide Text, Members, Plain, Doc;
    var fs := ItemFields(tx);
    ItemNamesArePlain();
    assert forall f :: f in fs ==> Plain(f.name);
    MembersAreDoc(fs);
    DocCons(Raw("{"), Members(fs));
    ItemIsObject(tx);
    if first {
      assert [] + Object(fs) == Object(fs);
    } else {
      DocCons(Raw(","), Object(fs));
      TextCons(Raw(","), Object(fs));
    }
  }

  /** The names of the fields of a printed transaction. */
  predicate ItemKey(key: string) {
    || key == "transactionNumber" || key == "clientId" || key == "externalTransactionId"
    || key == "processType" || key == "startTime"
  }

  /** The text under a key of a printed transaction. */
  function ItemValue(tx: OpenTx, key: string): string {
    if key == "transactionNumber" then Print(tx.number)
    else if key == "clientId" then tx.clientId
    else if key == "externalTransactionId" then tx.externalId
    else if key == "processType" then tx.processType
    else tx.startTime
  }

  lemma ItemField(tx: OpenTx, key: string)
    ensures FirstField(ItemFields(tx), key) == if ItemKey(key) then Some(ItemValue(tx, key)) else None
  {
    hide FirstField, Print;
    var fs := ItemFields(tx);
    NoField(key);
    FirstCons(fs[4], [], key);
    FirstCons(fs[3], fs[4..], key);
    FirstCons(fs[2], fs[3..], key);
    FirstCons(fs[1], fs[2..], key);
    FirstCons(fs[0], fs[1..], key);
    assert [fs[4]] + [] == fs[4..] && [fs[3]] + fs[4..] == fs[3..] && [fs[2]] + fs[3..] == fs[2..];
    assert [fs[1]] + fs[2..] == fs[1..] && [fs[0]] + fs[1..] == fs;
  }

  lemma ItemLookup(tx: OpenTx, first: bool, key: string)
    ensures var r := Lookup(ItemDoc(tx, first), key);
            && (r.Some? <==> ItemKey(key))
            && (r.Some? ==> r.value != [] && r.value[0] == Str(ItemValue(tx, key)))
  {
    ItemField(tx, key);
    hide Lookup, Members, FirstField, ItemKey, ItemValue;
    var fs := ItemFields(tx);
    LookupMembers(fs, key);
    LookupCons(Raw("{"), Members(fs), key);
    if first {
      assert [] + Object(fs) == Object(fs);
    } else {
      LookupCons(Raw(","), Object(fs), key);
    }
  }

  lemma {:induction false} ItemsAreDoc(txs: seq<OpenTx>)
    requires forall tx :: tx in txs ==> Clean(tx.startTime)
    ensures Doc(ItemsDoc(txs)) && Text(ItemsDoc(txs)) == ItemsText(txs)
  {
    hide ItemDoc, ItemText, Clean;
    if txs != [] {
      var n := |txs| - 1;
      ItemsAreDoc(txs[..n]);
      ItemIsDoc(txs[n], n == 0);
      DocJoin(ItemsDoc(txs[..n]), ItemDoc(txs[n], n == 0));
      TextJoin(ItemsDoc(txs[..n]), ItemDoc(txs[n], n == 0));
    }
  }

  /** A key of the transactions is found in the first of them. */
  lemma {:induction false} ItemsLookup(txs: seq<OpenTx>, key: string)
    ensures var r := Lookup(ItemsDoc(txs), key);
            && (r.Some? <==> ItemKey(key) && txs != [])
            && (r.Some? ==> r.value != [] && r.value[0] == Str(ItemValue(txs[0], key)))
  {
    hide ItemDoc, ItemKey, ItemValue;
    if txs != [] {
      var n := |txs| - 1;
      var front, item := ItemsDoc(txs[..n]), ItemDoc(txs[n], n == 0);
      ItemsLookup(txs[..n], key);
      ItemLookup(txs[n], n == 0, key);
      if Lookup(front, key).Some? {
        LookupFound(front, item, key);
      } else {
        LookupJoin(front, item, key);
      }
    }
  }

  /** Three tokens: no string, a key, no string. */
  lemma ThreeTokens(a: string, k: string, b: string, key: string)
    requires Plain(k) && '"' !in a && '"' !in b
    ensures var d := [Raw(a), Key(k), Raw(b)];
            && Doc(d) && Text(d) == a + (("\"" + k + "\":") + b)
            && Lookup(d, key) == if key == k then Some([Raw(b)]) else None
  {
    assert [Raw(b)] + [] == [Raw(b)] && [Key(k)] + [Raw(b)] == [Key(k), Raw(b)];
    assert [Raw(a)] + [Key(k), Raw(b)] == [Raw(a), Key(k), Raw(b)];
    DocCons(Raw(b), []);
    DocCons(Key(k), [Raw(b)]);
    DocCons(Raw(a), [Key(k), Raw(b)]);
    TextCons(Raw(b), []);
    TextCons(Key(k), [Raw(b)]);
    TextCons(Raw(a), [Key(k), Raw(b)]);
    LookupCons(Raw(b), [], key);
    LookupCons(Key(k), [Raw(b)], key);
    LookupCons(Raw(a), [Key(k), Raw(b)], key);
    hide Plain;
  }

  lemma HeadText(key: string)
    ensures Text(HeadDoc()) == OPEN_HEAD && Doc(HeadDoc())
    ensures Lookup(HeadDoc(), key) == if key == "openTransactions" then Some([Raw("[")]) else None
  {
    ItemNamesArePlain();
    hide Plain, Doc, Text, Lookup;
    ThreeTokens("{", "openTransactions", "[", key);
    assert OPEN_HEAD == "{" + (("\"" + "openTransactions" + "\":") + "[");
  }

  lemma TailText(count: nat, key: string)
    ensures Text(TailDoc(count)) == OpenTail(count) && Doc(TailDoc(count))
    ensures Lookup(TailDoc(count), key) == if key == "count" then Some([Raw(Print(count) + "}")]) else None
  {
    ItemNamesArePlain();
    hide Plain, Doc, Text, Lookup;
    var t := Print(count) + "}";
    NoQuoteIn(t);
    ThreeTokens("],", "count", t, key);
    assert "],\"count\":" == "]," + ("\"" + "count" + "\":");
    hide Print;
    assert OpenTail(count) == "]," + (("\"" + "count" + "\":") + t);
  }

  lemma NoQuoteIn(t: string)
    requires forall i :: 0 <= i < |t| ==> IsDigit(t[i]) || t[i] == '}'
    ensures '"' !in t
  {
  }

  /** The printed list is a document in the sense of the reader. */
  lemma OpenIsDoc(txs: seq<OpenTx>)
    requires forall tx :: tx in txs ==> Clean(tx.startTime)
    ensures Doc(OpenDoc(txs)) && Text(OpenDoc(txs)) == OpenText(txs)
  {
    hide Doc, Text, HeadDoc, TailDoc, ItemsDoc, ItemsText, OpenTail, Clean;
    ItemsAreDoc(txs);
    HeadText("");
    TailText(|txs|, "");
    DocJoin(ItemsDoc(txs), TailDoc(|txs|));
    TextJoin(ItemsDoc(txs), TailDoc(|txs|));
    DocJoin(HeadDoc(), ItemsDoc(txs) + TailDoc(|txs|));
    TextJoin(HeadDoc(), ItemsDoc(txs) + TailDoc(|txs|));
  }

  /** What follows a key in the printed list. */
  lemma OpenLookup(txs: seq<OpenTx>, key: string)
    ensures var r := Lookup(OpenDoc(txs), key);
            if key == "openTransactions" then r == Some([Raw("[")] + (ItemsDoc(txs) + TailDoc(|txs|)))
            else if ItemKey(key) && txs != [] then
              r.Some? && r.value != [] && r.value[0] == Str(ItemValue(txs[0], key))
            else if key == "count" then r == Some([Raw(Print(|txs|) + "}")])
            else r == None
  {
    hide Lookup, HeadDoc, TailDoc, ItemsDoc, ItemValue, Print;
    HeadText(key);
    TailText(|txs|, key);
    ItemsLookup(txs, key);
    var rest := ItemsDoc(txs) + TailDoc(|txs|);
    if key == "openTransactions" {
      LookupFound(HeadDoc(), rest, key);
    } else {
      LookupJoin(HeadDoc(), rest, key);
      if ItemKey(key) && txs != [] {
        LookupFound(ItemsDoc(txs), TailDoc(|txs|), key);
      } else {
        LookupJoin(ItemsDoc(txs), TailDoc(|txs|), key);
      }
    }
  }

  lemma DigitsAreBare(n: nat)
    ensures forall i :: 0 <= i < |Print(n)| ==> !EndsBare(Print(n)[i]) && Print(n)[i] !in "n\"" && !IsSpace(Print(n)[i])
  {
  }

  lemma ReadsCount(count: nat, outlen: nat)
    requires outlen > 0
    ensures ValueOf(Text([Raw(Print(count) + "}")]), outlen) == BareValue(Print(count), outlen)
  {
    var t := Print(count) + "}";
    assert [Raw(t)] == [Raw(t)] + [];
    TextCons(Raw(t), []);
    NoText();
    assert t + "" == t;
    DigitsAreBare(count);
    hide Print, Text, ValueOf, BareValue;
    ReadsBare(t, Print(count), "}", outlen);
  }

  /** The list begins with its first transaction. */
  lemma {:induction false} ItemsStart(txs: seq<OpenTx>) returns (rest: string)
    requires txs != []
    ensures ItemsText(txs) == ItemBody(txs[0]) + rest
  {
    hide ItemBody;
    var n := |txs| - 1;
    if n == 0 {
      rest := "";
      assert ItemsText(txs[..0]) == "" && "" + ItemBody(txs[0]) == ItemBody(txs[0]) + "";
    } else {
      var r := ItemsStart(txs[..n]);
      rest := r + ItemText(txs[n], false);
    }
  }

  /** What the reader takes for the value of "openTransactions": the list up to its first comma, or
      up to its end when it is empty. */
  function ListStart(txs: seq<OpenTx>): string {
    if txs == [] then "[" else "[{\"transactionNumber\":\"" + Print(txs[0].number) + "\""
  }

  lemma ListStartIsBare(txs: seq<OpenTx>)
    ensures forall i :: 0 <= i < |ListStart(txs)| ==> !EndsBare(ListStart(txs)[i])
  {
    if txs != [] {
      var a, b := "[{\"transactionNumber\":\"", Print(txs[0].number);
      assert forall i :: 0 <= i < |a| ==> !EndsBare(a[i]);
      DigitsAreBare(txs[0].number);
      hide Print, EndsBare;
      assert !EndsBare('"') by { SignsAreBare(); }
      assert forall i :: 0 <= i < |a + b + "\""| ==>
        (a + b + "\"")[i] == if i < |a| then a[i] else if i < |a| + |b| then b[i - |a|] else '"';
    } else {
      SignsAreBare();
    }
  }

  lemma SignsAreBare()
    ensures !EndsBare('"') && !EndsBare('[') && EndsBare(',') && EndsBare(']') && EndsBare('}')
  {
  }

  lemma StartPieces(o: string, l: string, n: string, q: string, s: string, m: string, c: string, z: string,
                    b: string, d: string)
    ensures o + ((l + n + (q + (s + m)) + c + z) + b + d) == ((o + l) + n + q) + (s + (m + c + z + b + d))
  {
  }

  lemma StartLiterals()
    ensures "\",\"clientId\":\"" == "\"" + ("," + "\"clientId\":\"")
    ensures "[{\"transactionNumber\":\"" == "[" + "{\"transactionNumber\":\""
  {
  }

  lemma ItemBodyStart(tx: OpenTx) returns (rest: string)
    ensures "[" + ItemBody(tx) == ListStart([tx]) + ("," + rest)
  {
    hide Print, Escape;
    var b := "\"externalTransactionId\":\"" + Escape(tx.externalId) + "\",\"processType\":\"" + Escape(tx.processType)
             + "\",";
    var d := "\"startTime\":\"" + tx.startTime + "\"}";
    rest := "\"clientId\":\"" + Escape(tx.clientId) + "\"," + b + d;
    StartLiterals();
    StartPieces("[", "{\"transactionNumber\":\"", Print(tx.number), "\"", ",", "\"clientId\":\"", Escape(tx.clientId),
                "\",", b, d);
  }

  /** The list after its key: ListStart, and then what ends a bare value. */
  lemma ListParts(txs: seq<OpenTx>) returns (tail: string)
    ensures "[" + (ItemsText(txs) + OpenTail(|txs|)) == ListStart(txs) + tail
    ensures tail != "" && EndsBare(tail[0])
  {
    hide Print, ItemBody;
    SignsAreBare();
    if txs == [] {
      tail := OpenTail(0);
      assert "" + tail == tail;
    } else {
      hide ItemsText, OpenTail, EndsBare;
      var r := ItemsStart(txs);
      var b := ItemBodyStart(txs[0]);
      assert ListStart(txs) == ListStart([txs[0]]);
      hide ListStart;
      tail := "," + b + r + OpenTail(|txs|);
      Prefix("[", ItemBody(txs[0]), r, OpenTail(|txs|), ListStart(txs), b);
    }
  }

  lemma Prefix(o: string, body: string, r: string, t: string, start: string, b: string)
    requires o + body == start + ("," + b)
    ensures o + ((body + r) + t) == start + ("," + b + r + t)
  {
    assert o + ((body + r) + t) == (o + body) + r + t;
  }

  lemma ReadsList(txs: seq<OpenTx>, outlen: nat)
    requires outlen > 0
    ensures ValueOf("[" + (ItemsText(txs) + OpenTail(|txs|)), outlen) == BareValue(ListStart(txs), outlen)
  {
    hide ValueOf, BareValue, EndsBare, ItemsText, OpenTail, Print;
    var tail := ListParts(txs);
    ListStartIsBare(txs);
    ReadsBare("[" + (ItemsText(txs) + OpenTail(|txs|)), ListStart(txs), tail, outlen);
  }

  lemma ReadsAnyKey(txs: seq<OpenTx>, key: string, outlen: nat)
    requires forall tx :: tx in txs ==> Clean(tx.startTime)
    requires CleanKey(key) && outlen > 0
    ensures GetString(OpenText(txs), key, outlen) ==
            if key == "count" then BareValue(Print(|txs|), outlen)
            else if key == "openTransactions" then BareValue(ListStart(txs), outlen)
            else if ItemKey(key) && txs != [] then Some(Take(Reread(ItemValue(txs[0], key)), outlen - 1))
            else None
  {
    hide GetString, OpenText, BareValue, ListStart, Print, Take, Reread, ItemValue, ItemKey, Clean;
    if ItemKey(key) && txs != [] {
      ItemKeysApart(key);
      ReadsItem(txs, key, outlen);
    } else {
      ReadsOther(txs, key, outlen);
    }
  }

  /** What a reader gets for a key of a transaction. */
  ghost predicate ReadsAs(r: Option<string>, tx: OpenTx, key: string, outlen: nat)
    requires outlen > 0
  {
    && (key == "transactionNumber" ==> r == Some(Take(Print(tx.number), outlen - 1)))
    && (key == "clientId" ==> r == Some(Take(Reread(tx.clientId), outlen - 1)))
    && (key == "externalTransactionId" ==> r == Some(Take(Reread(tx.externalId), outlen - 1)))
    && (key == "processType" ==> r == Some(Take(Reread(tx.processType), outlen - 1)))
    && (key == "startTime" ==> r == Some(Take(Reread(tx.startTime), outlen - 1)))
  }

  lemma ValueReadsAs(tx: OpenTx, key: string, outlen: nat)
    requires outlen > 0 && ItemKey(key)
    ensures ReadsAs(Some(Take(Reread(ItemValue(tx, key)), outlen - 1)), tx, key, outlen)
  {
    hide Take, Reread, Print;
    PrintRereads(tx.number);
  }

  lemma PrintRereads(n: nat)
    ensures Reread(Print(n)) == Print(n)
  {
    hide Print, Reread;
    RereadIsSame(Print(n));
  }

  /** Whatever the client ids, external ids and process types contain, every key reads back from the
      printed list as what it stands for: "count" as the number of transactions, a key of the
      transactions as the first one's value, "openTransactions" as the beginning of the list, and no
      other key is found. */
  lemma OpenListReadsBack(txs: seq<OpenTx>, key: string, outlen: nat)
    requires forall tx :: tx in txs ==> Clean(tx.startTime)
    requires CleanKey(key) && outlen > 0
    ensures var r := GetString(OpenText(txs), key, outlen);
            && (key == "count" ==> r == BareValue(Print(|txs|), outlen))
            && (key == "openTransactions" ==> r == BareValue(ListStart(txs), outlen))
            && (txs != [] ==> ReadsAs(r, txs[0], key, outlen))
            && (key !in ["count", "openTransactions"] && (txs == [] || !ItemKey(key)) ==> r == None)
  {
    hide GetString, OpenText, BareValue, ListStart, Print, Take, Reread, ItemValue, ItemKey, Clean, ReadsAs;
    ReadsAnyKey(txs, key, outlen);
    if ItemKey(key) {
      ItemKeysApart(key);
      if txs != [] {
        ValueReadsAs(txs[0], key, outlen);
      }
    } else if txs != [] {
      NoItemKey(GetString(OpenText(txs), key, outlen), txs[0], key, outlen);
    }
  }

  lemma NoItemKey(r: Option<string>, tx: OpenTx, key: string, outlen: nat)
    requires outlen > 0 && !ItemKey(key)
    ensures ReadsAs(r, tx, key, outlen)
  {
  }

  /** So does every transaction of the list by itself. */
  lemma ItemReadsBack(tx: OpenTx, key: string, outlen: nat)
    requires Clean(tx.startTime) && CleanKey(key) && outlen > 0
    ensures var r := GetString(ItemBody(tx), key, outlen);
            ReadsAs(r, tx, key, outlen) && (!ItemKey(key) ==> r == None)
  {
    hide GetString, ItemBody, ItemFields, Text, Object, FirstField, Take, Reread, ItemValue, ItemKey, Clean, ReadsAs;
    hide Plain;
    ItemIsObject(tx);
    ItemFieldsArePlain(tx);
    FlatLookup(ItemFields(tx), key, outlen);
    ItemField(tx, key);
    if ItemKey(key) {
      ValueReadsAs(tx, key, outlen);
    } else {
      NoItemKey(GetString(ItemBody(tx), key, outlen), tx, key, outlen);
    }
  }

  lemma ItemFieldsArePlain(tx: OpenTx)
    ensures forall f :: f in ItemFields(tx) ==> Plain(f.name)
  {
    hide Plain, Print;
    ItemNamesArePlain();
  }

  /** The texts with a comma between each two. */
  function Comma(ts: seq<string>): string {
    if ts == [] then ""
    else if |ts| == 1 then ts[0]
    else Comma(ts[..|ts| - 1]) + "," + ts[|ts| - 1]
  }

  lemma {:induction false} ItemsAreJoined(txs: seq<OpenTx>, ts: seq<string>)
    requires |ts| == |txs| && forall i :: 0 <= i < |txs| ==> ts[i] == ItemBody(txs[i])
    ensures ItemsText(txs) == Comma(ts)
  {
    hide ItemBody;
    if |txs| == 1 {
      assert ItemsText(txs[..0]) == "";
      assert ItemsText(txs) == "" + ("" + ts[0]);
    } else if txs != [] {
      var n := |txs| - 1;
      ItemsAreJoined(txs[..n], ts[..n]);
      assert ItemsText(txs) == Comma(ts[..n]) + ("," + ts[n]);
    }
  }

  /** The list holds every transaction in order, and their number. */
  lemma OpenListIs(txs: seq<OpenTx>, ts: seq<string>)
    requires |ts| == |txs| && forall i :: 0 <= i < |txs| ==> ts[i] == ItemBody(txs[i])
    ensures OpenText(txs) == "{\"openTransactions\":[" + Comma(ts) + "],\"count\":" + Print(|txs|) + "}"
  {
    hide ItemBody, ItemsText, Comma, Print;
    ItemsAreJoined(txs, ts);
    assert OpenText(txs) == OPEN_HEAD + Comma(ts) + OpenTail(|txs|);
    Reassociated(OPEN_HEAD + Comma(ts), "],\"count\":", Print(|txs|), "}");
  }

  lemma Reassociated(a: string, b: string, c: string, d: string)
    ensures a + (b + c + d) == a + b + c + d
  {
  }

  lemma ItemKeysApart(key: string)
    requires ItemKey(key)
    ensures key != "count" && key != "openTransactions"
  {
  }

  /** The keys of the items. */
  lemma ReadsItem(txs: seq<OpenTx>, key: string, outlen: nat)
    requires forall tx :: tx in txs ==> Clean(tx.startTime)
    requires CleanKey(key) && outlen > 0 && ItemKey(key) && txs != []
    ensures GetString(OpenText(txs), key, outlen) == Some(Take(Reread(ItemValue(txs[0], key)), outlen - 1))
  {
    hide Doc, Text, Lookup, OpenDoc, OpenText, Clean, ItemValue, Take, Reread, GetString;
    OpenIsDoc(txs);
    OpenLookup(txs, key);
    ReadsString(OpenDoc(txs), key, outlen);
  }

  /** The keys around them. */
  lemma ReadsOther(txs: seq<OpenTx>, key: string, outlen: nat)
    requires forall tx :: tx in txs ==> Clean(tx.startTime)
    requires CleanKey(key) && outlen > 0 && !(ItemKey(key) && txs != [])
    ensures GetString(OpenText(txs), key, outlen) ==
            if key == "count" then BareValue(Print(|txs|), outlen)
            else if key == "openTransactions" then BareValue(ListStart(txs), outlen)
            else None
  {
    hide Doc, Text, Lookup, OpenDoc, OpenText, Print, Clean, ValueOf, Find, TailDoc, ItemsDoc, BareValue, ListStart,
         ItemKey, ItemValue;
    OpenIsDoc(txs);
    OpenLookup(txs, key);
    FindIsLookup(OpenDoc(txs), key);
    if key == "count" {
      ReadsCount(|txs|, outlen);
    } else if key == "openTransactions" {
      ListText(txs);
      ReadsList(txs, outlen);
    }
  }

  lemma ListText(txs: seq<OpenTx>)
    requires forall tx :: tx in txs ==> Clean(tx.startTime)
    ensures Text([Raw("[")] + (ItemsDoc(txs) + TailDoc(|txs|))) == "[" + (ItemsText(txs) + OpenTail(|txs|))
  {
    hide Text, ItemsDoc, TailDoc, ItemsText, OpenTail, Clean;
    TextCons(Raw("["), ItemsDoc(txs) + TailDoc(|txs|));
    TextJoin(ItemsDoc(txs), TailDoc(|txs|));
    ItemsAreDoc(txs);
    TailText(|txs|, "");
  }
}
