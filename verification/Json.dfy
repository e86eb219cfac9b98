/** The JSON reader and the escaper of c/src/json.c.

    The reader finds a key with strstr and a look at the next character.  That this is a correct
    lookup on everything the printers emit is shown token by token. */
module Json {
  import opened CString
  import opened Ctype
  import opened Wrappers

  // ----- Escaping -----

  function EscapeChar(c: char): string {
    match c
    case '"' => "\\\""
    case '\\' => "\\\\"
    case '\n' => "\\n"
    case '\r' => "\\r"
    case '\t' => "\\t"
    case _ => [c]
  }

  function Escape(v: string): string {
    if v == "" then "" else EscapeChar(v[0]) + Escape(v[1..])
  }

  /** Escaping at most doubles a text. */
  lemma {:induction false} EscapeAtMostDoubles(v: string)
    ensures |Escape(v)| <= 2 * |v|
  {
    if v != "" {
      EscapeAtMostDoubles(v[1..]);
    }
  }

  // ----- Finding a key -----

  /** The pattern buffer of find_key has 128 bytes. */
  function Pattern(key: string): string {
    var p := "\"" + key + "\"";
    if |p| <= 127 then p else p[..127]
  }

  predicate ColonNext(t: string) {
    var u := SkipWhite(t);
    u != "" && u[0] == ':'
  }

  /** The pattern is at the front, and a colon comes next. */
  predicate Hit(s: string, pattern: string) {
    pattern <= s && ColonNext(s[|pattern|..])
  }

  /** What follows the colon of the first hit. */
  function Find(s: string, pattern: string): Option<string> {
    if s == "" then None
    else if Hit(s, pattern) then Some(SkipWhite(s[|pattern|..])[1..])
    else Find(s[1..], pattern)
  }

  // ----- Reading a value -----

  /** The string up to the next bare quote, with at most outlen - 1 characters. */
  function Unquote(s: string, outlen: nat): string {
    if s == "" || s[0] == '"' || outlen <= 1 then ""
    else if s[0] == '\\' && |s| > 1 then [s[1]] + Unquote(s[2..], outlen - 1)
    else [s[0]] + Unquote(s[1..], outlen - 1)
  }

  predicate EndsBare(c: char) {
    c == ',' || c == '}' || c == ']' || IsSpace(c)
  }

  function Bare(s: string, outlen: nat): string {
    if s == "" || EndsBare(s[0]) || outlen <= 1 then "" else [s[0]] + Bare(s[1..], outlen - 1)
  }

  function ValueOf(after: string, outlen: nat): Option<string> {
    var s := SkipWhite(after);
    if s != "" && s[0] == '"' then Some(Unquote(s[1..], outlen))
    else if "null" <= s then Some("")
    else if Bare(s, outlen) != "" then Some(Bare(s, outlen))
    else None
  }

  /** json_get_string: what it leaves in an out of outlen bytes, None when it fails. */
  function GetString(json: string, key: string, outlen: nat): Option<string> {
    var after := Find(json, Pattern(key));
    if outlen == 0 || after.None? then None else ValueOf(after.value, outlen)
  }

  // ----- Documents as tokens -----

  /** Key(k) is "k": with the colon, Str(v) an escaped string with its quotes, Raw anything else. */
  datatype Token = Key(name: string) | Str(value: string) | Raw(text: string)

  predicate Plain(key: string) {
    forall c :: c in key ==> IsWord(c)
  }

  function Spell(t: Token): string {
    match t
    case Key(k) => "\"" + k + "\":"
    case Str(v) => "\"" + Escape(v) + "\""
    case Raw(text) => text
  }

  function Text(doc: seq<Token>): string {
    if doc == [] then "" else Spell(doc[0]) + Text(doc[1..])
  }

  /** A string value is followed by a comma or a closing bracket. */
  predicate Closes(doc: seq<Token>) {
    doc != [] && doc[0].Raw? && doc[0].text != "" && doc[0].text[0] in ",}]"
  }

  predicate Doc(doc: seq<Token>) {
    doc == [] ||
    (&& (match doc[0]
         case Key(k) => Plain(k)
         case Str(_) => Closes(doc[1..])
         case Raw(text) => '"' !in text)
     && Doc(doc[1..]))
  }

  /** The tokens after the first key with this name. */
  function Lookup(doc: seq<Token>, key: string): Option<seq<Token>> {
    if doc == [] then None
    else if doc[0] == Key(key) then Some(doc[1..])
    else Lookup(doc[1..], key)
  }

  // ----- No false hits -----

  /** Every quote follows a backslash. */
  predicate Guarded(x: string) {
    forall i :: 0 <= i < |x| && x[i] == '"' ==> i > 0 && x[i - 1] == '\\'
  }

  lemma {:induction false} EscapeIsGuarded(v: string)
    ensures Guarded(Escape(v))
  {
    if v != "" {
      EscapeIsGuarded(v[1..]);
      var e, r := EscapeChar(v[0]), Escape(v[1..]);
      forall i | 0 <= i < |e + r| && (e + r)[i] == '"'
        ensures i > 0 && (e + r)[i - 1] == '\\'
      {
        if i >= |e| {
          assert r[i - |e|] == '"';
        }
      }
    }
  }

  lemma PlainHasNoQuote(key: string)
    requires Plain(key)
    ensures forall i :: 0 <= i < |key| ==> key[i] != '"' && key[i] != '\\'
  {
    assert forall i :: 0 <= i < |key| ==> key[i] in key;
  }

  /** Escaped text has no raw line breaks or tabs, and every quote in it follows a backslash. */
  lemma {:induction false} EscapedIsClean(v: string)
    ensures forall c :: c in Escape(v) ==> c != '\n' && c != '\r' && c != '\t'
    ensures Guarded(Escape(v))
  {
    EscapeIsGuarded(v);
    if v != "" {
      EscapedIsClean(v[1..]);
    }
  }

  /** Text that starts like a key has no bare quote right after that part. */
  lemma QuoteIn(x: string, key: string, n: nat)
    requires Guarded(x) && n < |x| && n <= |key| && x[..n] == key[..n]
    requires forall i :: 0 <= i < |key| ==> key[i] != '"' && key[i] != '\\'
    ensures x[n] != '"'
  {
    if n > 0 {
      assert x[n - 1] == x[..n][n - 1] == key[n - 1];
    }
  }

  /** A quoted key at the front of a quoted text is that text. */
  lemma SameQuoted(s: string, x: string, follow: string, key: string)
    requires s == "\"" + x + "\"" + follow && Guarded(x) && Plain(key)
    requires "\"" + key + "\"" <= s
    ensures x == key
  {
    PlainHasNoQuote(key);
    var p := "\"" + key + "\"";
    assert forall i :: 0 <= i < |p| ==> s[i] == p[i];
    assert forall i :: 0 <= i < |key| ==> s[1 + i] == key[i];
    assert forall i :: 0 <= i < |x| ==> s[1 + i] == x[i];
    assert s[1 + |key|] == '"' && s[1 + |x|] == '"';
    if |key| < |x| {
      QuoteIn(x, key, |key|);
    }
  }

  /** A quote, text whose quotes are guarded, a quote, and no colon next: no hit at the front. */
  lemma NoHitAtString(s: string, x: string, follow: string, key: string)
    requires s == "\"" + x + "\"" + follow && Guarded(x) && !ColonNext(follow) && Plain(key)
    ensures !Hit(s, "\"" + key + "\"")
  {
    var p := "\"" + key + "\"";
    if p <= s {
      SameQuoted(s, x, follow, key);
      assert s[|p|..] == follow;
    }
  }

  /** A quote followed by something that is neither a quote nor part of a plain key. */
  lemma NoHitAtQuote(s: string, key: string)
    requires |s| >= 2 && s[0] == '"' && s[1] != '"' && !IsWord(s[1]) && Plain(key)
    ensures !Hit(s, "\"" + key + "\"")
  {
    var p := "\"" + key + "\"";
    if key != "" {
      assert key[0] in key;
    }
    assert p[1] == '"' || IsWord(p[1]);
  }

  lemma NoHitAtOther(s: string, key: string)
    requires s != "" && s[0] != '"'
    ensures !Hit(s, "\"" + key + "\"")
  {
    assert ("\"" + key + "\"")[0] == '"';
  }

  /** Positions without a hit do not matter. */
  lemma {:induction false} SkipHitless(a: string, b: string, pattern: string)
    requires forall i :: 0 <= i < |a| ==> !Hit((a + b)[i..], pattern)
    ensures Find(a + b, pattern) == Find(b, pattern)
  {
    if a == "" {
      assert a + b == b;
    } else {
      var s := a + b;
      assert s[0..] == s;
      assert s[1..] == a[1..] + b;
      forall i | 0 <= i < |a| - 1
        ensures !Hit((a[1..] + b)[i..], pattern)
      {
        assert (a[1..] + b)[i..] == s[i + 1..];
      }
      SkipHitless(a[1..], b, pattern);
    }
  }

  lemma NoHitInRaw(text: string, rest: string, key: string)
    requires '"' !in text
    ensures Find(text + rest, "\"" + key + "\"") == Find(rest, "\"" + key + "\"")
  {
    forall i | 0 <= i < |text|
      ensures !Hit((text + rest)[i..], "\"" + key + "\"")
    {
      assert (text + rest)[i] == text[i];
      NoHitAtOther((text + rest)[i..], key);
    }
    SkipHitless(text, rest, "\"" + key + "\"");
  }

  /** No hit inside a string value, wherever in it the scan stands. */
  lemma NoHitInValue(e: string, follow: string, i: nat, key: string)
    requires Guarded(e) && !ColonNext(follow) && Plain(key) && i < |e|
    ensures !Hit((e + "\"" + follow)[i..], "\"" + key + "\"")
  {
    var s := (e + "\"" + follow)[i..];
    if e[i] == '"' {
      var x := e[i + 1..];
      assert s == "\"" + x + "\"" + follow;
      forall j | 0 <= j < |x| && x[j] == '"'
        ensures j > 0 && x[j - 1] == '\\'
      {
        assert e[i + 1 + j] == '"';
      }
      NoHitAtString(s, x, follow, key);
    } else {
      NoHitAtOther(s, key);
    }
  }

  /** The places of a quoted value, one by one. */
  lemma NoHitInString(e: string, follow: string, i: nat, key: string)
    requires Guarded(e) && !ColonNext(follow) && Plain(key) && i < |e| + 2
    requires follow != "" && follow[0] != '"' && !IsWord(follow[0])
    ensures !Hit(("\"" + e + "\"" + follow)[i..], "\"" + key + "\"")
  {
    hide Guarded, ColonNext, Plain, IsWord, Hit;
    var s := "\"" + e + "\"" + follow;
    if i == 0 {
      assert s[0..] == s;
      NoHitAtString(s, e, follow, key);
    } else if i <= |e| {
      assert s[i..] == (e + "\"" + follow)[i - 1..];
      NoHitInValue(e, follow, i - 1, key);
    } else {
      assert s[i..] == "\"" + follow;
      NoHitAtQuote(s[i..], key);
    }
  }

  /** The scan passes a whole string value, quotes and all. */
  lemma PassesString(v: string, follow: string, key: string)
    requires Plain(key) && follow != "" && follow[0] in ",}]"
    ensures Find(Spell(Str(v)) + follow, "\"" + key + "\"") == Find(follow, "\"" + key + "\"")
  {
    var e := Escape(v);
    EscapeIsGuarded(v);
    assert !ColonNext(follow);
    assert Spell(Str(v)) + follow == "\"" + e + "\"" + follow;
    hide Escape, ColonNext, Guarded, Plain, Hit, Find;
    forall i | 0 <= i < |e| + 2
      ensures !Hit((Spell(Str(v)) + follow)[i..], "\"" + key + "\"")
    {
      NoHitInString(e, follow, i, key);
    }
    SkipHitless(Spell(Str(v)), follow, "\"" + key + "\"");
  }

  /** The scan passes another key. */
  lemma PassesKey(k: string, rest: string, key: string)
    requires Plain(key) && Plain(k) && k != key
    ensures Find(Spell(Key(k)) + rest, "\"" + key + "\"") == Find(rest, "\"" + key + "\"")
  {
    var pattern := "\"" + key + "\"";
    var s := Spell(Key(k)) + rest;
    PlainHasNoQuote(k);
    forall i | 0 <= i < |k| + 3
      ensures !Hit(s[i..], pattern)
    {
      if i == 0 {
        assert s[0..] == "\"" + k + "\"" + (":" + rest);
        if pattern <= s[0..] {
          SameQuoted(s[0..], k, ":" + rest, key);
        }
      } else if i <= |k| {
        assert s[i] == k[i - 1];
        NoHitAtOther(s[i..], key);
      } else if i == |k| + 1 {
        assert s[i..] == "\"" + (":" + rest);
        NoHitAtQuote(s[i..], key);
      } else {
        assert s[i] == ':';
        NoHitAtOther(s[i..], key);
      }
    }
    SkipHitless(Spell(Key(k)), rest, pattern);
  }

  lemma HitsKey(rest: string, key: string)
    ensures Find(Spell(Key(key)) + rest, "\"" + key + "\"") == Some(rest)
  {
    var pattern := "\"" + key + "\"";
    var s := Spell(Key(key)) + rest;
    assert s[..|pattern|] == pattern;
    assert s[|pattern|..] == ":" + rest;
    assert SkipWhite(":" + rest) == ":" + rest;
    assert (":" + rest)[1..] == rest;
  }

  /** find_key is a correct lookup on a document: it finds the first key with that name, and
      nothing else, whatever the string values contain. */
  lemma {:induction false} FindIsLookup(doc: seq<Token>, key: string)
    requires Doc(doc) && Plain(key) && |key| <= 125
    ensures var r := Lookup(doc, key);
            Find(Text(doc), Pattern(key)) == if r.Some? then Some(Text(r.value)) else None
  {
    if doc != [] {
      FindIsLookup(doc[1..], key);
      match doc[0]
      case Raw(text) => NoHitInRaw(text, Text(doc[1..]), key);
      case Str(v) =>
        assert Text(doc[1..])[0] == doc[1].text[0];
        PassesString(v, Text(doc[1..]), key);
      case Key(k) =>
        if k == key {
          HitsKey(Text(doc[1..]), key);
        } else {
          PassesKey(k, Text(doc[1..]), key);
        }
    }
  }

  // ----- What is read back -----

  function RereadChar(c: char): char {
    if c == '\n' then 'n' else if c == '\r' then 'r' else if c == '\t' then 't' else c
  }

  /** Line breaks and tabs lose their meaning: they come back as n, r and t. */
  function Reread(v: string): (r: string)
    ensures |r| == |v|
  {
    if v == "" then "" else [RereadChar(v[0])] + Reread(v[1..])
  }

  function Take(s: string, n: nat): string {
    if |s| <= n then s else s[..n]
  }

  /** A value comes back unchanged if and only if it has no line breaks and no tabs. */
  lemma {:induction false} RereadIsSame(v: string)
    ensures Reread(v) == v <==> '\n' !in v && '\r' !in v && '\t' !in v
  {
    if v != "" {
      var c, t := v[0], v[1..];
      RereadIsSame(t);
      assert v == [c] + t && Reread(v) == [RereadChar(c)] + Reread(t);
      assert Reread(v)[0] == RereadChar(c) && Reread(v)[1..] == Reread(t);
      assert forall d :: d in v <==> d == c || d in t;
    }
  }

  /** Escaping changes nothing if and only if there is nothing to escape. */
  lemma {:induction false} EscapeIsSame(v: string)
    ensures Escape(v) == v <==> forall i :: 0 <= i < |v| ==> v[i] !in "\"\\\n\r\t"
  {
    if v != "" {
      var c, t := v[0], v[1..];
      EscapeIsSame(t);
      NeverShorter(t);
      assert v == [c] + t && Escape(v) == EscapeChar(c) + Escape(t);
      assert forall i :: 0 <= i < |t| ==> v[i + 1] == t[i];
      if c in "\"\\\n\r\t" {
        assert |Escape(v)| > |v|;
        assert v[0] in "\"\\\n\r\t";
      } else {
        assert Escape(v)[1..] == Escape(t);
        if forall i :: 0 <= i < |v| ==> v[i] !in "\"\\\n\r\t" {
          assert forall i :: 0 <= i < |t| ==> t[i] == v[i + 1];
        }
      }
    }
  }

  lemma {:induction false} NeverShorter(v: string)
    ensures |Escape(v)| >= |v|
  {
    if v != "" {
      NeverShorter(v[1..]);
    }
  }

  /** A line break or a tab is escaped, and comes back as a letter. */
  lemma LineBreakIsLost(outlen: nat)
    requires outlen > 1
    ensures Escape("\n") == "\\n" && Unquote(Escape("\n") + "\"", outlen) == "n"
    ensures Escape("\r") == "\\r" && Unquote(Escape("\r") + "\"", outlen) == "r"
    ensures Escape("\t") == "\\t" && Unquote(Escape("\t") + "\"", outlen) == "t"
  {
    OneIsLost('\n', outlen);
    OneIsLost('\r', outlen);
    OneIsLost('\t', outlen);
  }

  lemma OneIsLost(c: char, outlen: nat)
    requires outlen > 1
    ensures Escape([c]) == EscapeChar(c) && Unquote(Escape([c]) + "\"", outlen) == [RereadChar(c)]
  {
    assert Escape([c]) == EscapeChar(c) + Escape("");
    UnquoteEscape([c], "", outlen);
    assert Escape([c]) + "\"" + "" == Escape([c]) + "\"";
    assert Reread([c]) == [RereadChar(c)] + Reread("");
  }

  /** Reading an escaped value gives the original, line breaks and tabs apart, cut to the buffer. */
  lemma {:induction false} UnquoteEscape(v: string, follow: string, outlen: nat)
    requires outlen > 0
    ensures Unquote(Escape(v) + "\"" + follow, outlen) == Take(Reread(v), outlen - 1)
  {
    if v != "" && outlen > 1 {
      var r := Escape(v[1..]) + "\"" + follow;
      assert Escape(v) + "\"" + follow == EscapeChar(v[0]) + r;
      UnquoteChar(v[0], r, outlen);
      UnquoteEscape(v[1..], follow, outlen - 1);
      TakeCons(RereadChar(v[0]), Reread(v[1..]), outlen - 1);
    }
  }

  lemma UnquoteChar(c: char, r: string, outlen: nat)
    requires outlen > 1
    ensures Unquote(EscapeChar(c) + r, outlen) == [RereadChar(c)] + Unquote(r, outlen - 1)
  {
    var e := EscapeChar(c);
    if |e| == 2 {
      assert (e + r)[2..] == r;
    } else {
      assert (e + r)[1..] == r;
    }
  }

  lemma TakeCons(c: char, s: string, n: nat)
    requires n > 0
    ensures Take([c] + s, n) == [c] + Take(s, n - 1)
  {
  }

  lemma ReadsQuoted(s: string, v: string, follow: string, outlen: nat)
    requires outlen > 0 && s == "\"" + Escape(v) + "\"" + follow
    ensures ValueOf(s, outlen) == Some(Take(Reread(v), outlen - 1))
  {
    UnquoteEscape(v, follow, outlen);
    assert s[1..] == Escape(v) + "\"" + follow;
    hide Unquote, Escape, Reread;
  }

  /** json_get_string on a document whose key is followed by a string. */
  lemma ReadsString(doc: seq<Token>, key: string, outlen: nat)
    requires Doc(doc) && Plain(key) && |key| <= 125 && outlen > 0
    requires Lookup(doc, key).Some? ==> Lookup(doc, key).value != [] && Lookup(doc, key).value[0].Str?
    ensures GetString(Text(doc), key, outlen) ==
            match Lookup(doc, key)
            case None => None
            case Some(rest) => Some(Take(Reread(rest[0].value), outlen - 1))
  {
    FindIsLookup(doc, key);
    if Lookup(doc, key).Some? {
      var rest := Lookup(doc, key).value;
      ReadsQuoted(Text(rest), rest[0].value, Text(rest[1..]), outlen);
    }
    hide Find, Lookup, Escape, Reread, Doc, ValueOf;
  }

  /** A bare value is read up to what ends it, cut to the buffer. */
  lemma {:induction false} BareUpTo(t: string, rest: string, outlen: nat)
    requires (forall i :: 0 <= i < |t| ==> !EndsBare(t[i])) && outlen > 0
    requires rest != "" && EndsBare(rest[0])
    ensures Bare(t + rest, outlen) == Take(t, outlen - 1)
  {
    if t == "" {
      assert t + rest == rest;
    } else if outlen > 1 {
      assert (t + rest)[1..] == t[1..] + rest;
      BareUpTo(t[1..], rest, outlen - 1);
      TakeCons(t[0], t[1..], outlen - 1);
    }
  }

  /** What json_get_string makes of a bare value. */
  function BareValue(t: string, outlen: nat): Option<string> {
    if outlen <= 1 then None else Some(Take(t, outlen - 1))
  }

  lemma ReadsBare(s: string, t: string, rest: string, outlen: nat)
    requires s == t + rest && t != "" && t[0] !in "n\"" && !IsSpace(t[0]) && outlen > 0
    requires (forall i :: 0 <= i < |t| ==> !EndsBare(t[i])) && rest != "" && EndsBare(rest[0])
    ensures ValueOf(s, outlen) == BareValue(t, outlen)
  {
    assert s[0] == t[0];
    BareUpTo(t, rest, outlen);
    hide Bare;
  }

  // ----- Flat objects -----

  datatype Field = Field(name: string, value: string)

  function Members(fs: seq<Field>): seq<Token> {
    if fs == [] then [Raw("}")]
    else [Key(fs[0].name), Str(fs[0].value)] + (if |fs| == 1 then [Raw("}")] else [Raw(",")] + Members(fs[1..]))
  }

  function Object(fs: seq<Field>): seq<Token> {
    [Raw("{")] + Members(fs)
  }

  function FirstField(fs: seq<Field>, key: string): Option<string> {
    if fs == [] then None else if fs[0].name == key then Some(fs[0].value) else FirstField(fs[1..], key)
  }

  lemma DocCons(t: Token, doc: seq<Token>)
    requires Doc(doc)
    requires match t
             case Key(k) => Plain(k)
             case Str(_) => Closes(doc)
             case Raw(text) => '"' !in text
    ensures Doc([t] + doc)
  {
    assert ([t] + doc)[1..] == doc;
  }

  lemma LookupCons(t: Token, doc: seq<Token>, key: string)
    ensures Lookup([t] + doc, key) == if t == Key(key) then Some(doc) else Lookup(doc, key)
  {
    assert ([t] + doc)[1..] == doc;
  }

  lemma TextCons(t: Token, doc: seq<Token>)
    ensures Text([t] + doc) == Spell(t) + Text(doc)
  {
    assert ([t] + doc)[1..] == doc;
  }

  lemma {:induction false} TextJoin(a: seq<Token>, b: seq<Token>)
    ensures Text(a + b) == Text(a) + Text(b)
  {
    if a == [] {
      assert a + b == b;
    } else {
      assert a + b == [a[0]] + (a[1..] + b);
      TextCons(a[0], a[1..] + b);
      TextJoin(a[1..], b);
    }
  }

  lemma {:induction false} DocJoin(a: seq<Token>, b: seq<Token>)
    requires Doc(a) && Doc(b)
    ensures Doc(a + b)
  {
    if a == [] {
      assert a + b == b;
    } else {
      assert a + b == [a[0]] + (a[1..] + b);
      DocJoin(a[1..], b);
      DocCons(a[0], a[1..] + b);
    }
  }

  /** Lookup in a document whose first part does not have the key. */
  lemma {:induction false} LookupJoin(a: seq<Token>, b: seq<Token>, key: string)
    requires Lookup(a, key).None?
    ensures Lookup(a + b, key) == Lookup(b, key)
  {
    if a == [] {
      assert a + b == b;
    } else {
      assert a + b == [a[0]] + (a[1..] + b);
      LookupCons(a[0], a[1..] + b, key);
      LookupJoin(a[1..], b, key);
    }
  }

  lemma {:induction false} LookupFound(a: seq<Token>, b: seq<Token>, key: string)
    requires Lookup(a, key).Some?
    ensures Lookup(a + b, key) == Some(Lookup(a, key).value + b)
  {
    assert a + b == [a[0]] + (a[1..] + b);
    LookupCons(a[0], a[1..] + b, key);
    if a[0] != Key(key) {
      LookupFound(a[1..], b, key);
    }
  }

  /** What follows the value of the first field. */
  function AfterFirst(fs: seq<Field>): seq<Token>
    requires fs != []
  {
    if |fs| == 1 then [Raw("}")] else [Raw(",")] + Members(fs[1..])
  }

  lemma MembersSplit(fs: seq<Field>)
    requires fs != []
    ensures Members(fs) == [Key(fs[0].name)] + ([Str(fs[0].value)] + AfterFirst(fs))
    ensures Closes(AfterFirst(fs))
  {
  }

  lemma {:induction false} MembersAreDoc(fs: seq<Field>)
    requires forall f :: f in fs ==> Plain(f.name)
    ensures Doc(Members(fs))
  {
    assert [Raw("}")] == [Raw("}")] + [];
    DocCons(Raw("}"), []);
    if fs != [] {
      if |fs| > 1 {
        MembersAreDoc(fs[1..]);
        DocCons(Raw(","), Members(fs[1..]));
      }
      MembersSplit(fs);
      DocCons(Str(fs[0].value), AfterFirst(fs));
      DocCons(Key(fs[0].name), [Str(fs[0].value)] + AfterFirst(fs));
    }
  }

  lemma {:induction false} LookupMembers(fs: seq<Field>, key: string)
    ensures var r := Lookup(Members(fs), key); var f := FirstField(fs, key);
            && (r.Some? <==> f.Some?)
            && (r.Some? ==> r.value != [] && r.value[0] == Str(f.value))
  {
    assert [Raw("}")] == [Raw("}")] + [];
    LookupCons(Raw("}"), [], key);
    if fs != [] {
      if |fs| > 1 {
        LookupMembers(fs[1..], key);
        LookupCons(Raw(","), Members(fs[1..]), key);
      } else {
        assert FirstField(fs[1..], key) == None;
      }
      MembersSplit(fs);
      LookupCons(Str(fs[0].value), AfterFirst(fs), key);
      LookupCons(Key(fs[0].name), [Str(fs[0].value)] + AfterFirst(fs), key);
    }
  }

  /** On every flat object of escaped string values json_get_string is the lookup of the field: it
      finds the field with that key and fails exactly when there is none. */
  lemma FlatLookup(fs: seq<Field>, key: string, outlen: nat)
    requires (forall f :: f in fs ==> Plain(f.name)) && Plain(key) && |key| <= 125 && outlen > 0
    ensures GetString(Text(Object(fs)), key, outlen) ==
            match FirstField(fs, key)
            case None => None
            case Some(v) => Some(Take(Reread(v), outlen - 1))
  {
    MembersAreDoc(fs);
    LookupMembers(fs, key);
    var doc := Object(fs);
    assert doc[1..] == Members(fs);
    assert Doc(doc) && Lookup(doc, key) == Lookup(Members(fs), key);
    ReadsString(doc, key, outlen);
    hide Members, Doc, Lookup, GetString, Text;
  }

  // ----- The C functions -----

  lemma {:induction false} EscapeJoins(a: string, b: string)
    ensures Escape(a + b) == Escape(a) + Escape(b)
  {
    if a == "" {
      assert a + b == b;
    } else {
      assert (a + b)[1..] == a[1..] + b;
      EscapeJoins(a[1..], b);
    }
  }

  lemma EscapePrefix(v: string, i: nat)
    requires i < |v|
    ensures Escape(v[..i + 1]) == Escape(v[..i]) + EscapeChar(v[i])
    ensures |Escape(v[..i + 1])| <= |Escape(v)|
  {
    assert v[..i + 1] == v[..i] + [v[i]] && v == v[..i + 1] + v[i + 1..];
    EscapeJoins(v[..i], [v[i]]);
    EscapeJoins(v[..i + 1], v[i + 1..]);
    assert Escape([v[i]]) == EscapeChar(v[i]) + Escape([]);
  }

  /** json_escape: succeeds if and only if the escaped text and its NUL fit. */
  method JsonEscape(v: string, out: array<char>) returns (rc: int)
    modifies out
    ensures rc == if |Escape(v)| + 1 <= out.Length then 0 else -1
    ensures rc == 0 ==> out[..|Escape(v)|] == Escape(v) && out[|Escape(v)|] == '\0'
  {
    hide Escape, EscapeChar;
    var o: nat := 0;
    EscapeNothing();
    for i := 0 to |v|
      invariant o <= out.Length && out[..o] == Escape(v[..i])
      invariant o < out.Length || i == 0
    {
      EscapePrefix(v, i);
      var esc := EscapeChar(v[i]);
      if o + |esc| >= out.Length {
        return -1;
      }
      PutText(out, o, esc);
      o := o + |esc|;
    }
    assert v[..|v|] == v;
    if o >= out.Length {
      return -1;
    }
    out[o] := '\0';
    return 0;
  }

  lemma EscapeNothing()
    ensures Escape("") == ""
  {
  }

  /** while (isspace(*p)) p++ */
  method SkipSpace(json: string, p0: nat) returns (p: nat)
    requires p0 <= |json|
    ensures p0 <= p <= |json| && json[p..] == SkipWhite(json[p0..])
  {
    p := p0;
    while p < |json| && IsSpace(json[p])
      invariant p0 <= p <= |json| && SkipWhite(json[p..]) == SkipWhite(json[p0..])
    {
      assert json[p..][1..] == json[p + 1..];
      p := p + 1;
    }
  }

  lemma Differs(s: string, pattern: string, j: nat)
    requires j < |pattern| && (j >= |s| || s[j] != pattern[j])
    ensures !(pattern <= s)
  {
  }

  /** strncmp(json + p, pattern, |pattern|) == 0 */
  method StartsWith(json: string, p: nat, pattern: string) returns (r: bool)
    requires p <= |json|
    ensures r == (pattern <= json[p..])
  {
    var j: nat := 0;
    while j < |pattern|
      invariant j <= |pattern| && p + j <= |json| && json[p..p + j] == pattern[..j]
    {
      if p + j >= |json| || json[p + j] != pattern[j] {
        Differs(json[p..], pattern, j);
        return false;
      }
      assert json[p..p + j + 1] == json[p..p + j] + [json[p + j]];
      assert pattern[..j + 1] == pattern[..j] + [pattern[j]];
      j := j + 1;
    }
    assert json[p..][..j] == json[p..p + j];
    return true;
  }

  /** find_key: where the value after the key's colon starts. */
  method FindKey(json: string, key: string) returns (r: Option<nat>)
    ensures match r
            case None => Find(json, Pattern(key)) == None
            case Some(q) => q <= |json| && Find(json, Pattern(key)) == Some(json[q..])
  {
    hide SkipWhite;
    var pattern := Pattern(key);
    var p: nat := 0;
    assert json[0..] == json;
    while p < |json|
      invariant p <= |json| && Find(json[p..], pattern) == Find(json, pattern)
    {
      var here := StartsWith(json, p, pattern);
      if here {
        assert json[p..][|pattern|..] == json[p + |pattern|..];
        var after := SkipSpace(json, p + |pattern|);
        if after < |json| && json[after] == ':' {
          assert json[after..][1..] == json[after + 1..];
          return Some(after + 1);
        }
      }
      assert json[p..][1..] == json[p + 1..];
      p := p + 1;
    }
    return None;
  }

  /** One turn of the loop over a quoted string; the character read stands at q. */
  lemma UnquoteNext(json: string, val: nat, q: nat, outlen: nat)
    requires val < |json| && json[val] != '"' && outlen > 1
    requires q == if json[val] == '\\' && val + 1 < |json| then val + 1 else val
    ensures Unquote(json[val..], outlen) == [json[q]] + Unquote(json[q + 1..], outlen - 1)
  {
    assert json[val..][q + 1 - val..] == json[q + 1..];
  }

  lemma UnquoteEnds(json: string, val: nat, outlen: nat)
    requires val <= |json| && (val == |json| || json[val] == '"' || outlen <= 1)
    ensures Unquote(json[val..], outlen) == ""
  {
  }

  /** The quoted-string branch of json_get_string. */
  method ReadQuoted(json: string, start: nat, out: array<char>) returns (o: nat)
    requires start <= |json| && out.Length > 0
    modifies out
    ensures o < out.Length && out[..o] == Unquote(json[start..], out.Length) && out[o] == '\0'
  {
    hide Unquote;
    var val := start;
    o := 0;
    ghost var rest := Unquote(json[val..], out.Length);
    while val < |json| && json[val] != '"' && o + 1 < out.Length
      invariant start <= val <= |json| && o < out.Length
      invariant rest == Unquote(json[val..], out.Length - o)
      invariant out[..o] + rest == Unquote(json[start..], out.Length)
      decreases |json| - val
    {
      ghost var first := val;
      if json[val] == '\\' && val + 1 < |json| {
        val := val + 1;
      }
      UnquoteNext(json, first, val, out.Length - o);
      ghost var before := out[..o];
      out[o] := json[val];
      assert out[..o + 1] == before + [json[val]];
      o := o + 1;
      val := val + 1;
      ghost var tail := Unquote(json[val..], out.Length - o);
      assert before + rest == out[..o] + tail;
      rest := tail;
    }
    UnquoteEnds(json, val, out.Length - o);
    out[o] := '\0';
  }

  /** The branch of json_get_string for values without quotes. */
  method ReadBare(json: string, start: nat, out: array<char>) returns (o: nat)
    requires start <= |json| && out.Length > 0
    modifies out
    ensures o < out.Length && out[..o] == Bare(json[start..], out.Length) && out[o] == '\0'
  {
    var val := start;
    o := 0;
    while val < |json| && !EndsBare(json[val]) && o + 1 < out.Length
      invariant start <= val <= |json| && o < out.Length
      invariant out[..o] + Bare(json[val..], out.Length - o) == Bare(json[start..], out.Length)
    {
      assert json[val..][1..] == json[val + 1..];
      ghost var before := out[..o];
      out[o] := json[val];
      assert out[..o + 1] == before + [json[val]];
      o := o + 1;
      val := val + 1;
    }
    out[o] := '\0';
  }

  /** The part of json_get_string after the key was found. */
  method ReadValue(json: string, start: nat, out: array<char>) returns (rc: int, o: nat)
    requires start <= |json| && out.Length > 0
    modifies out
    ensures rc == if ValueOf(json[start..], out.Length).Some? then 0 else -1
    ensures rc == 0 ==> o < out.Length && out[o] == '\0' && ValueOf(json[start..], out.Length) == Some(out[..o])
  {
    hide Unquote, Bare, SkipWhite;
    var val := SkipSpace(json, start);
    if val < |json| && json[val] == '"' {
      assert json[val..][1..] == json[val + 1..];
      o := ReadQuoted(json, val + 1, out);
      return 0, o;
    }
    var isNull := StartsWith(json, val, "null");
    if isNull {
      out[0] := '\0';
      assert out[..0] == "";
      return 0, 0;
    }
    o := ReadBare(json, val, out);
    return if o > 0 then 0 else -1, o;
  }

  /** json_get_string */
  method JsonGetString(json: string, key: string, out: array<char>) returns (rc: int, o: nat)
    modifies out
    ensures rc == if GetString(json, key, out.Length).Some? then 0 else -1
    ensures rc == 0 ==> o < out.Length && out[o] == '\0' && GetString(json, key, out.Length) == Some(out[..o])
  {
    if out.Length == 0 {
      return -1, 0;
    }
    var val := FindKey(json, key);
    if val.None? {
      return -1, 0;
    }
    rc, o := ReadValue(json, val.value, out);
  }
}
