/**
 * The JSON text of a user profile, as `JSON.stringify` writes it into the `auth_user`
 * key and `JSON.parse` reads it back. A profile is an object whose members are strings;
 * the decoder reads back every text this encoder writes, and only those texts.
 */
module Json {
  import opened Wrappers

  /** A user profile: the members of a JSON object, in order. */
  datatype User = User(fields: seq<(string, string)>)

  /** The characters `"` and `\` are escaped with a backslash; every other character stands for itself. */
  function EscapeChar(c: char): string
  {
    if c == '"' || c == '\\' then ['\\', c] else [c]
  }

  function Escape(s: string): string
  {
    if s == [] then [] else EscapeChar(s[0]) + Escape(s[1..])
  }

  /** A string literal. */
  function Quote(s: string): string
  {
    "\"" + Escape(s) + "\""
  }

  function Member(f: (string, string)): string
  {
    Quote(f.0) + ":" + Quote(f.1)
  }

  /** The members of a non-empty object followed by its closing brace. */
  function MembersClose(fs: seq<(string, string)>): string
    requires fs != []
  {
    if |fs| == 1 then Member(fs[0]) + "}" else (Member(fs[0]) + ",") + MembersClose(fs[1..])
  }

  /** `JSON.stringify(user)`. */
  function EncodeUser(u: User): (r: string)
    ensures |r| >= 2 && r[0] == '{'
  {
    if u.fields == [] then "{}" else "{" + MembersClose(u.fields)
  }

  /** Reads the body of a string literal up to its closing quote; returns the string and what follows. */
  function ParseChars(s: string): (r: Option<(string, string)>)
    ensures r.Some? ==> |r.value.1| < |s|
    decreases |s|
  {
    if |s| == 0 then None
    else if s[0] == '"' then Some(("", s[1..]))
    else if s[0] == '\\' then
      if |s| >= 2 && (s[1] == '"' || s[1] == '\\') then
        match ParseChars(s[2..])
        case None => None
        case Some(p) => Some(([s[1]] + p.0, p.1))
      else None
    else
      match ParseChars(s[1..])
      case None => None
      case Some(p) => Some(([s[0]] + p.0, p.1))
  }

  function ParseString(s: string): (r: Option<(string, string)>)
    ensures r.Some? ==> |r.value.1| < |s|
  {
    if |s| > 0 && s[0] == '"' then ParseChars(s[1..]) else None
  }

  /** Reads `"k":"v"` members separated by commas up to the closing brace of the object. */
  function ParseMembers(s: string): (r: Option<(seq<(string, string)>, string)>)
    ensures r.Some? ==> |r.value.1| < |s|
    decreases |s|
  {
    match ParseString(s)
    case None => None
    case Some(key) =>
      var r1 := key.1;
      if |r1| == 0 || r1[0] != ':' then None
      else
        match ParseString(r1[1..])
        case None => None
        case Some(val) =>
          var r2 := val.1;
          if |r2| == 0 then None
          else if r2[0] == '}' then Some(([(key.0, val.0)], r2[1..]))
          else if r2[0] == ',' then
            match ParseMembers(r2[1..])
            case None => None
            case Some(more) => Some(([(key.0, val.0)] + more.0, more.1))
          else None
  }

  /** `JSON.parse(text)` for a user profile; `None` when the text is not one (the parse throws). */
  function DecodeUser(text: string): (r: Option<User>)
    ensures r.Some? ==> EncodeUser(r.value) == text
  {
    if |text| == 0 || text[0] != '{' then None
    else if text[1..] == "}" then
      assert text == "{}";
      Some(User([]))
    else
      match ParseMembers(text[1..])
      case None => None
      case Some(p) =>
        ParseMembersPrints(text[1..]);
        assert text == [text[0]] + text[1..];
        if p.1 == "" then Some(User(p.0)) else None
  }

  /** A proof hint about concatenation, not a property of the model. */
  lemma Associative(a: string, b: string, c: string)
    ensures (a + b) + c == a + (b + c)
  {
  }

  lemma {:induction false} ParseCharsEscape(x: string, rest: string)
    ensures ParseChars(Escape(x) + "\"" + rest) == Some((x, rest))
    decreases |x|
  {
    var s := Escape(x) + "\"" + rest;
    if x == [] {
      assert s == "\"" + rest;
    } else {
      var head := EscapeChar(x[0]);
      var tail := Escape(x[1..]) + "\"" + rest;
      Associative(head, Escape(x[1..]), "\"");
      Associative(head, Escape(x[1..]) + "\"", rest);
      assert s == head + tail;
      ParseCharsEscape(x[1..], rest);
      if x[0] == '"' || x[0] == '\\' {
        assert s[2..] == tail;
      } else {
        assert s[1..] == tail;
      }
      assert [x[0]] + x[1..] == x;
    }
  }

  lemma ParseStringQuote(x: string, rest: string)
    ensures ParseString(Quote(x) + rest) == Some((x, rest))
  {
    var s := Quote(x) + rest;
    assert s[1..] == Escape(x) + "\"" + rest;
    ParseCharsEscape(x, rest);
  }

  /** One member followed by `tail` reads as its key, then a colon, then its value and `tail`. */
  lemma ParseMember(k: string, v: string, tail: string)
    ensures ParseString(Member((k, v)) + tail) == Some((k, ":" + Quote(v) + tail))
    ensures ParseString((":" + Quote(v) + tail)[1..]) == Some((v, tail))
  {
    assert Member((k, v)) + tail == Quote(k) + (":" + Quote(v) + tail);
    ParseStringQuote(k, ":" + Quote(v) + tail);
    assert (":" + Quote(v) + tail)[1..] == Quote(v) + tail;
    ParseStringQuote(v, tail);
  }

  /** One member, then a closing brace or a comma and the members after it. */
  lemma ParseMembersStep(k: string, v: string, tail: string)
    requires |tail| > 0 && (tail[0] == '}' || tail[0] == ',')
    ensures ParseMembers(Member((k, v)) + tail) ==
      if tail[0] == '}' then Some(([(k, v)], tail[1..]))
      else
        match ParseMembers(tail[1..])
        case None => None
        case Some(more) => Some(([(k, v)] + more.0, more.1))
  {
    ParseMember(k, v, tail);
  }

  lemma MembersCloseShape(fs: seq<(string, string)>, rest: string)
    requires fs != []
    ensures MembersClose(fs) + rest ==
      Member(fs[0]) + (if |fs| == 1 then "}" + rest else "," + (MembersClose(fs[1..]) + rest))
  {
    if |fs| == 1 {
      Associative(Member(fs[0]), "}", rest);
    } else {
      Associative(Member(fs[0]), ",", MembersClose(fs[1..]));
      Associative(Member(fs[0]) + ",", MembersClose(fs[1..]), rest);
      Associative(Member(fs[0]), ",", MembersClose(fs[1..]) + rest);
    }
  }

  /** A string literal that reads is the quoted form of what it reads as. */
  lemma {:induction false} ParseCharsPrints(s: string)
    ensures ParseChars(s).Some? ==> s == Escape(ParseChars(s).value.0) + "\"" + ParseChars(s).value.1
    decreases |s|
  {
    if |s| > 0 && s[0] != '"' && ParseChars(s).Some? {
      var skip := if s[0] == '\\' then 2 else 1;
      var c := s[skip - 1];
      ParseCharsPrints(s[skip..]);
      var p := ParseChars(s[skip..]).value;
      var x := [c] + p.0;
      assert x[0] == c && x[1..] == p.0;
      assert Escape(x) == EscapeChar(c) + Escape(p.0);
      assert s[..skip] == EscapeChar(c);
      Associative(EscapeChar(c), Escape(p.0), "\"");
      Associative(EscapeChar(c), Escape(p.0) + "\"", p.1);
      assert s == s[..skip] + s[skip..];
    }
  }

  /** A member that reads is the member text the encoder writes for it. */
  lemma MemberPrints(s: string)
    requires ParseString(s).Some?
    requires var r1 := ParseString(s).value.1; |r1| > 0 && r1[0] == ':' && ParseString(r1[1..]).Some?
    ensures var key := ParseString(s).value;
      var val := ParseString(key.1[1..]).value;
      s == Member((key.0, val.0)) + val.1
  {
    var key := ParseString(s).value;
    var r1 := key.1;
    var val := ParseString(r1[1..]).value;
    var r2 := val.1;
    ParseCharsPrints(s[1..]);
    ParseCharsPrints(r1[2..]);
    assert s == [s[0]] + s[1..];
    assert s == Quote(key.0) + r1;
    assert r1[1..] == [r1[1]] + r1[2..];
    assert r1[1..] == Quote(val.0) + r2;
    assert r1 == [r1[0]] + r1[1..];
    Associative(Quote(key.0), ":", Quote(val.0));
    Associative(Quote(key.0) + ":", Quote(val.0), r2);
    Associative(Quote(key.0), ":", Quote(val.0) + r2);
  }

  /** Members that read are the members and closing brace the encoder writes for them. */
  lemma {:induction false} ParseMembersPrints(s: string)
    ensures ParseMembers(s).Some? ==>
      ParseMembers(s).value.0 != [] && s == MembersClose(ParseMembers(s).value.0) + ParseMembers(s).value.1
    decreases |s|
  {
    if ParseMembers(s).Some? {
      var key := ParseString(s).value;
      var val := ParseString(key.1[1..]).value;
      var r2 := val.1;
      MemberPrints(s);
      var fs := ParseMembers(s).value.0;
      var rest := ParseMembers(s).value.1;
      assert fs[0] == (key.0, val.0);
      MembersCloseShape(fs, rest);
      if r2[0] == '}' {
        assert r2 == [r2[0]] + r2[1..];
      } else {
        ParseMembersPrints(r2[1..]);
        assert fs[1..] == ParseMembers(r2[1..]).value.0;
        assert r2 == [r2[0]] + r2[1..];
      }
    }
  }

  lemma {:induction false} ParseMembersClose(fs: seq<(string, string)>, rest: string)
    requires fs != []
    ensures ParseMembers(MembersClose(fs) + rest) == Some((fs, rest))
    decreases |fs|
  {
    var k, v := fs[0].0, fs[0].1;
    var tail := if |fs| == 1 then "}" + rest else "," + (MembersClose(fs[1..]) + rest);
    MembersCloseShape(fs, rest);
    assert fs[0] == (k, v);
    ParseMembersStep(k, v, tail);
    if |fs| == 1 {
      assert tail[1..] == rest;
      assert fs == [(k, v)];
    } else {
      assert tail[1..] == MembersClose(fs[1..]) + rest;
      ParseMembersClose(fs[1..], rest);
      assert [(k, v)] + fs[1..] == fs;
    }
  }

  /** Reading back what `JSON.stringify` wrote gives the same profile. */
  lemma DecodeEncodeUser(u: User)
    ensures DecodeUser(EncodeUser(u)) == Some(u)
  {
    if u.fields != [] {
      var text := EncodeUser(u);
      assert text[1..] == MembersClose(u.fields) + "";
      ParseMembersClose(u.fields, "");
      assert MembersClose(u.fields)[0] == '"';
    }
  }

  /** Different profiles are written as different texts. */
  lemma EncodeUserInjective(u: User, w: User)
    requires EncodeUser(u) == EncodeUser(w)
    ensures u == w
  {
    DecodeEncodeUser(u);
    DecodeEncodeUser(w);
  }

  /** A text reads as a profile exactly when it is that profile's encoding. */
  lemma DecodeUserExactly(text: string, u: User)
    ensures DecodeUser(text) == Some(u) <==> EncodeUser(u) == text
  {
    if EncodeUser(u) == text {
      DecodeEncodeUser(u);
    }
  }

  /** A text that is not a profile object reads as no profile. */
  lemma MalformedUserText()
    ensures DecodeUser("") == None
    ensures DecodeUser("not json") == None
    ensures DecodeUser("{\"name\":") == None
  {
  }
}
