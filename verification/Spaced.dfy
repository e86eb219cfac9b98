/** json_get_string of c/src/json.c on flat objects as any JSON writer prints them: white space around
    every colon, comma and bracket (section 2 of RFC 8259), string values with any escapes, and bare
    values. */
module Spaced {
  import opened Ctype
  import opened Json
  import opened Wrappers

  /** One character of a string value, as it is or behind a backslash. */
  datatype Unit = Same(c: char) | Slashed(c: char)

  datatype Value = Quoted(units: seq<Unit>) | Word(text: string)

  /** A member with the white space before its name, before and after its colon, and after its value. */
  datatype Member = Member(before: string, name: string, gap: string, after: string, value: Value, last: string)

  function UnitText(u: Unit): string {
    match u
    case Same(c) => [c]
    case Slashed(c) => ['\\', c]
  }

  function UnitsText(units: seq<Unit>): string {
    if units == [] then "" else UnitText(units[0]) + UnitsText(units[1..])
  }

  function ValueText(v: Value): string {
    match v
    case Quoted(units) => "\"" + UnitsText(units) + "\""
    case Word(text) => text
  }

  /** The members and the closing bracket. */
  function MembersText(ms: seq<Member>): string
    requires ms != []
    decreases |ms|, 1
  {
    var m := ms[0];
    m.before + ("\"" + m.name + "\"" + (m.gap + ":" + (m.after + ValueText(m.value) + (m.last + Tail(ms)))))
  }

  function Tail(ms: seq<Member>): string
    requires ms != []
    decreases |ms|, 0
  {
    if |ms| == 1 then "}" else "," + MembersText(ms[1..])
  }

  /** An object that is not empty. */
  function ObjectText(before: string, ms: seq<Member>): string
    requires ms != []
  {
    before + "{" + MembersText(ms)
  }

  // ----- What may stand in it -----

  predicate White(t: string) {
    forall i :: 0 <= i < |t| ==> t[i] == ' ' || t[i] == '\t' || t[i] == '\n' || t[i] == '\r'
  }

  predicate GoodUnit(u: Unit) {
    u.Same? ==> u.c != '"' && u.c != '\\'
  }

  /** A bare value goes on up to a comma, a closing bracket or white space. */
  predicate WordChar(c: char) {
    c != '"' && c != ',' && c != '}' && c != ']' && c != ' ' && !('\t' <= c <= '\r')
  }

  predicate GoodValue(v: Value) {
    match v
    case Quoted(units) => forall i :: 0 <= i < |units| ==> GoodUnit(units[i])
    case Word(text) => text != "" && forall i :: 0 <= i < |text| ==> WordChar(text[i])
  }

  /** A name is made of letters, digits and underscores. */
  predicate GoodName(name: string) {
    forall i :: 0 <= i < |name| ==>
                  'a' <= name[i] <= 'z' || 'A' <= name[i] <= 'Z' || '0' <= name[i] <= '9' || name[i] == '_'
  }

  predicate GoodMember(m: Member) {
    && White(m.before) && White(m.gap) && White(m.after) && White(m.last) && GoodName(m.name) && GoodValue(m.value)
  }

  predicate GoodMembers(ms: seq<Member>) {
    forall i :: 0 <= i < |ms| ==> GoodMember(ms[i])
  }

  // ----- What is read -----

  function Read(units: seq<Unit>): (r: string)
    ensures |r| == |units|
  {
    seq(|units|, i requires 0 <= i < |units| => units[i].c)
  }

  /** What json_get_string answers for a value: the text of a string, nothing for null, and a bare value as
      it is, cut to the buffer. */
  function Answer(v: Value, outlen: nat): Option<string>
    requires outlen > 0
  {
    match v
    case Quoted(units) => Some(Take(Read(units), outlen - 1))
    case Word(text) =>
      if |text| >= 4 && text[..4] == "null" then Some("")
      else if outlen == 1 then None
      else Some(Take(text, outlen - 1))
  }

  function FirstMember(ms: seq<Member>, key: string): Option<Value> {
    if ms == [] then None else if ms[0].name == key then Some(ms[0].value) else FirstMember(ms[1..], key)
  }

  // ----- Passing over the parts -----

  lemma NameIsPlain(name: string)
    requires GoodName(name)
    ensures Plain(name)
  {
  }

  lemma WhiteIsSpace(t: string)
    requires White(t)
    ensures (forall i :: 0 <= i < |t| ==> IsSpace(t[i])) && '"' !in t
  {
  }

  lemma {:induction false} SkipsWhite(w: string, t: string)
    requires (forall i :: 0 <= i < |w| ==> IsSpace(w[i])) && (t == "" || !IsSpace(t[0]))
    ensures SkipWhite(w + t) == t
  {
    if w == "" {
      assert w + t == t;
    } else {
      assert (w + t)[1..] == w[1..] + t;
      SkipsWhite(w[1..], t);
    }
  }

  lemma {:induction false} UnitsAreGuarded(units: seq<Unit>)
    requires forall i :: 0 <= i < |units| ==> GoodUnit(units[i])
    ensures Guarded(UnitsText(units))
  {
    if units != [] {
      UnitsAreGuarded(units[1..]);
      var e, r := UnitText(units[0]), UnitsText(units[1..]);
      assert GoodUnit(units[0]);
      forall i | 0 <= i < |e + r| && (e + r)[i] == '"'
        ensures i > 0 && (e + r)[i - 1] == '\\'
      {
        if i >= |e| {
          assert r[i - |e|] == '"';
        }
      }
    }
  }

  /** What follows a value: white space, then a comma or the closing bracket. */
  ghost predicate Follows(t: string) {
    exists w, u :: White(w) && t == w + u && u != "" && (u[0] == ',' || u[0] == '}')
  }

  lemma FollowsIsNoColon(t: string)
    requires Follows(t)
    ensures t != "" && t[0] != '"' && !IsWord(t[0]) && !ColonNext(t)
    ensures t[0] == ',' || t[0] == '}' || IsSpace(t[0])
  {
    var w, u :| White(w) && t == w + u && u != "" && (u[0] == ',' || u[0] == '}');
    WhiteIsSpace(w);
    SkipsWhite(w, u);
    if w != "" {
      assert t[0] == w[0];
    }
  }

  lemma LastFollows(m: Member, ms: seq<Member>)
    requires ms != [] && White(m.last)
    ensures Follows(m.last + Tail(ms))
  {
    hide MembersText;
    assert Tail(ms)[0] == ',' || Tail(ms)[0] == '}';
  }

  lemma PassesWhite(w: string, rest: string, key: string)
    requires White(w)
    ensures Find(w + rest, "\"" + key + "\"") == Find(rest, "\"" + key + "\"")
  {
    WhiteIsSpace(w);
    NoHitInRaw(w, rest, key);
  }

  lemma PassesQuoted(units: seq<Unit>, follow: string, key: string)
    requires (forall i :: 0 <= i < |units| ==> GoodUnit(units[i])) && Plain(key) && Follows(follow)
    ensures Find(ValueText(Quoted(units)) + follow, "\"" + key + "\"") == Find(follow, "\"" + key + "\"")
  {
    hide UnitsText, Guarded, ColonNext, Plain, IsWord, Hit, Find, Follows, GoodUnit;
    var e := UnitsText(units);
    var t := "\"" + e + "\"";
    UnitsAreGuarded(units);
    FollowsIsNoColon(follow);
    forall i | 0 <= i < |t|
      ensures !Hit((t + follow)[i..], "\"" + key + "\"")
    {
      NoHitInString(e, follow, i, key);
    }
    SkipHitless(t, follow, "\"" + key + "\"");
  }

  lemma PassesValue(v: Value, follow: string, key: string)
    requires GoodValue(v) && Plain(key) && Follows(follow)
    ensures Find(ValueText(v) + follow, "\"" + key + "\"") == Find(follow, "\"" + key + "\"")
  {
    match v
    case Quoted(units) => PassesQuoted(units, follow, key);
    case Word(text) =>
      assert '"' !in text;
      NoHitInRaw(text, follow, key);
  }

  /** The places of a key with white space before its colon. */
  lemma NoHitInName(k: string, rest: string, i: nat, key: string)
    requires Plain(key) && Plain(k) && k != key && i < |k| + 2
    requires rest != "" && rest[0] != '"' && !IsWord(rest[0])
    ensures !Hit(("\"" + k + "\"" + rest)[i..], "\"" + key + "\"")
  {
    var s := "\"" + k + "\"" + rest;
    PlainHasNoQuote(k);
    hide IsWord, ColonNext;
    if i == 0 {
      assert s[0..] == s;
      if "\"" + key + "\"" <= s {
        SameQuoted(s, k, rest, key);
      }
    } else if i <= |k| {
      assert s[i] == k[i - 1];
      NoHitAtOther(s[i..], key);
    } else {
      assert s[i..] == "\"" + rest;
      NoHitAtQuote(s[i..], key);
    }
  }

  lemma PassesName(k: string, rest: string, key: string)
    requires Plain(key) && Plain(k) && k != key && rest != "" && rest[0] != '"' && !IsWord(rest[0])
    ensures Find("\"" + k + "\"" + rest, "\"" + key + "\"") == Find(rest, "\"" + key + "\"")
  {
    hide Hit, Find, Plain, IsWord;
    var t := "\"" + k + "\"";
    forall i | 0 <= i < |t|
      ensures !Hit((t + rest)[i..], "\"" + key + "\"")
    {
      NoHitInName(k, rest, i, key);
    }
    SkipHitless(t, rest, "\"" + key + "\"");
  }

  lemma HitsName(key: string, gap: string, rest: string)
    requires White(gap)
    ensures Find("\"" + key + "\"" + (gap + ":" + rest), "\"" + key + "\"") == Some(rest)
  {
    var pattern := "\"" + key + "\"";
    var u := gap + ":" + rest;
    var s := pattern + u;
    WhiteIsSpace(gap);
    assert u == gap + (":" + rest);
    SkipsWhite(gap, ":" + rest);
    assert s[..|pattern|] == pattern && s[|pattern|..] == u;
    assert (":" + rest)[1..] == rest;
  }

  lemma AfterName(gap: string, rest: string)
    requires White(gap)
    ensures var t := gap + ":" + rest; t != "" && t[0] != '"' && !IsWord(t[0])
  {
    var t := gap + ":" + rest;
    assert t[0] == if gap == "" then ':' else gap[0];
  }

  lemma PassesColon(gap: string, rest: string, key: string)
    requires White(gap)
    ensures Find(gap + ":" + rest, "\"" + key + "\"") == Find(rest, "\"" + key + "\"")
  {
    WhiteIsSpace(gap);
    assert '"' !in gap + ":";
    NoHitInRaw(gap + ":", rest, key);
  }

  // ----- The first member of that name -----

  /** What stands behind the colon of the first member of that name, if there is one. */
  function AfterColon(ms: seq<Member>, key: string): Option<string> {
    if ms == [] then None
    else if ms[0].name == key then Some(ms[0].after + ValueText(ms[0].value) + (ms[0].last + Tail(ms)))
    else AfterColon(ms[1..], key)
  }

  lemma PassesMember(ms: seq<Member>, key: string)
    requires ms != [] && GoodMember(ms[0]) && Plain(key) && ms[0].name != key
    ensures Find(MembersText(ms), "\"" + key + "\"") == Find(Tail(ms), "\"" + key + "\"")
  {
    hide Find, Plain, ValueText, Tail, White, GoodValue, GoodName, Follows, IsWord;
    var m := ms[0];
    var d := m.last + Tail(ms);
    var c := m.after + ValueText(m.value) + d;
    var b := m.gap + ":" + c;
    NameIsPlain(m.name);
    PassesWhite(m.before, "\"" + m.name + "\"" + b, key);
    AfterName(m.gap, c);
    PassesName(m.name, b, key);
    PassesColon(m.gap, c, key);
    assert c == m.after + (ValueText(m.value) + d);
    PassesWhite(m.after, ValueText(m.value) + d, key);
    LastFollows(m, ms);
    PassesValue(m.value, d, key);
    PassesWhite(m.last, Tail(ms), key);
  }

  lemma HitsMember(ms: seq<Member>, key: string)
    requires ms != [] && GoodMember(ms[0]) && ms[0].name == key
    ensures Find(MembersText(ms), "\"" + key + "\"") == AfterColon(ms, key)
  {
    hide Find, ValueText, Tail, White;
    var m := ms[0];
    var c := m.after + ValueText(m.value) + (m.last + Tail(ms));
    PassesWhite(m.before, "\"" + m.name + "\"" + (m.gap + ":" + c), key);
    HitsName(key, m.gap, c);
  }

  lemma PassesTail(ms: seq<Member>, key: string)
    requires ms != []
    ensures Find(Tail(ms), "\"" + key + "\"") ==
            if |ms| == 1 then None else Find(MembersText(ms[1..]), "\"" + key + "\"")
  {
    hide MembersText;
    if |ms| == 1 {
      NoHitInRaw("}", "", key);
      assert "}" + "" == "}";
    } else {
      NoHitInRaw(",", MembersText(ms[1..]), key);
    }
  }

  lemma {:induction false} FindsMember(ms: seq<Member>, key: string)
    requires ms != [] && GoodMembers(ms) && Plain(key)
    ensures Find(MembersText(ms), "\"" + key + "\"") == AfterColon(ms, key)
    decreases |ms|
  {
    hide Find, MembersText, Tail, GoodMember;
    if ms[0].name == key {
      HitsMember(ms, key);
    } else {
      PassesMember(ms, key);
      PassesTail(ms, key);
      if |ms| > 1 {
        assert GoodMembers(ms[1..]);
        FindsMember(ms[1..], key);
      } else {
        assert ms[1..] == [];
      }
    }
  }

  // ----- Its value -----

  lemma {:induction false} UnquoteUnits(units: seq<Unit>, follow: string, outlen: nat)
    requires (forall i :: 0 <= i < |units| ==> GoodUnit(units[i])) && outlen > 0
    ensures Unquote(UnitsText(units) + "\"" + follow, outlen) == Take(Read(units), outlen - 1)
  {
    if units == [] {
      assert UnitsText(units) + "\"" + follow == "\"" + follow;
    } else if outlen > 1 {
      var u := units[0];
      var r := UnitsText(units[1..]) + "\"" + follow;
      var t := UnitText(u) + r;
      assert UnitsText(units) + "\"" + follow == t;
      assert GoodUnit(u);
      assert t[|UnitText(u)|..] == r;
      UnquoteUnits(units[1..], follow, outlen - 1);
      assert Read(units) == [u.c] + Read(units[1..]);
      TakeCons(u.c, Read(units[1..]), outlen - 1);
    }
  }

  lemma ReadsUnits(after: string, units: seq<Unit>, follow: string, outlen: nat)
    requires White(after) && (forall i :: 0 <= i < |units| ==> GoodUnit(units[i])) && outlen > 0
    ensures ValueOf(after + ("\"" + UnitsText(units) + "\"" + follow), outlen) == Some(Take(Read(units), outlen - 1))
  {
    hide UnitsText, Unquote, Read, Take, GoodUnit, SkipWhite, ValueOf;
    var s := "\"" + UnitsText(units) + "\"" + follow;
    WhiteIsSpace(after);
    SkipsWhite(after, s);
    QuotedValue(after + s, s, outlen);
    assert s[1..] == UnitsText(units) + "\"" + follow;
    UnquoteUnits(units, follow, outlen);
  }

  lemma QuotedValue(t: string, s: string, outlen: nat)
    requires SkipWhite(t) == s && s != "" && s[0] == '"'
    ensures ValueOf(t, outlen) == Some(Unquote(s[1..], outlen))
  {
    hide SkipWhite, Unquote, Bare;
  }

  lemma WordCharIsRead(c: char)
    ensures WordChar(c) ==> !EndsBare(c) && c != '"' && !IsSpace(c)
  {
  }

  lemma NullFirst(text: string, follow: string)
    requires follow != "" && EndsBare(follow[0])
    ensures "null" <= text + follow <==> |text| >= 4 && text[..4] == "null"
  {
    var s := text + follow;
    if |text| >= 4 {
      assert s[..4] == text[..4];
    } else {
      assert s[|text|] == follow[0] && !EndsBare("null"[|text|]);
      Differs(s, "null", |text|);
    }
  }

  lemma ReadsWord(after: string, text: string, follow: string, outlen: nat)
    requires White(after) && GoodValue(Word(text)) && outlen > 0 && follow != "" && EndsBare(follow[0])
    ensures ValueOf(after + (text + follow), outlen) == Answer(Word(text), outlen)
  {
    hide Bare, EndsBare, WordChar, Take;
    var s := text + follow;
    forall i | 0 <= i < |text|
      ensures !EndsBare(text[i])
    {
      WordCharIsRead(text[i]);
    }
    WordCharIsRead(text[0]);
    assert s[0] == text[0];
    WhiteIsSpace(after);
    SkipsWhite(after, s);
    NullFirst(text, follow);
    BareUpTo(text, follow, outlen);
    TakeIsEmpty(text, outlen - 1);
  }

  lemma TakeIsEmpty(t: string, n: nat)
    requires t != ""
    ensures Take(t, n) == "" <==> n == 0
  {
  }

  lemma ReadsValue(after: string, v: Value, follow: string, outlen: nat)
    requires White(after) && GoodValue(v) && Follows(follow) && outlen > 0
    ensures ValueOf(after + ValueText(v) + follow, outlen) == Answer(v, outlen)
  {
    hide ValueOf, Follows, White, Unquote, Take, Read, UnitsText;
    FollowsIsNoColon(follow);
    match v
    case Quoted(units) =>
      assert after + ValueText(v) + follow == after + ("\"" + UnitsText(units) + "\"" + follow);
      ReadsUnits(after, units, follow, outlen);
    case Word(text) =>
      assert after + ValueText(v) + follow == after + (text + follow);
      ReadsWord(after, text, follow, outlen);
  }

  lemma {:induction false} ReadsMember(ms: seq<Member>, key: string, outlen: nat)
    requires GoodMembers(ms) && outlen > 0
    ensures var t := AfterColon(ms, key); var v := FirstMember(ms, key);
            && (t.Some? <==> v.Some?)
            && (t.Some? ==> ValueOf(t.value, outlen) == Answer(v.value, outlen))
  {
    hide ValueOf, Answer, ValueText, Tail;
    if ms != [] {
      if ms[0].name == key {
        assert GoodMember(ms[0]);
        LastFollows(ms[0], ms);
        ReadsValue(ms[0].after, ms[0].value, ms[0].last + Tail(ms), outlen);
      } else {
        assert GoodMembers(ms[1..]);
        ReadsMember(ms[1..], key, outlen);
      }
    }
  }

  /** On every flat object json_get_string is the lookup of the first member with that name, whatever white
      space stands around the names, colons, values, commas and brackets. */
  lemma SpacedLookup(before: string, ms: seq<Member>, key: string, outlen: nat)
    requires White(before) && ms != [] && GoodMembers(ms) && GoodName(key) && |key| <= 125 && outlen > 0
    ensures GetString(ObjectText(before, ms), key, outlen) ==
            match FirstMember(ms, key)
            case None => None
            case Some(v) => Answer(v, outlen)
  {
    hide Find, MembersText, GoodMembers, GoodName, ValueOf, Answer, AfterColon, FirstMember;
    NameIsPlain(key);
    FindsMember(ms, key);
    ReadsMember(ms, key, outlen);
    BeforeObject(before);
    NoHitInRaw(before + "{", MembersText(ms), key);
  }

  lemma BeforeObject(before: string)
    requires White(before)
    ensures '"' !in before + "{"
  {
  }
}
