/**
 * The JSON text that the cache adapter writes with `JSON.stringify` and reads
 * back with `JSON.parse`, for the values this service puts in the cache:
 * null, booleans, integral numbers, strings, arrays and objects whose members
 * keep their insertion order. `Serialize` writes the compact form
 * `JSON.stringify` produces (no white space, the same string escapes);
 * `Parse` accepts that form, with JSON's integer grammar, and fails, as
 * `JSON.parse` throws, on text that is not one value. An object whose text
 * repeats a member name keeps every member here; `JSON.parse` keeps the last.
 */
module Json {
  import opened Wrappers
  import opened Digits

  datatype Json =
    | Null
    | Bool(b: bool)
    | Number(n: int)
    | String(s: string)
    | Array(items: seq<Json>)
    | Object(members: seq<Member>)

  datatype Member = Member(key: string, value: Json)

  // ---------------------------------------------------------------- writing

  /** How `JSON.stringify` writes one character inside a string literal. */
  function EscapeChar(c: char): string {
    if c == 8 as char then "\\b"
    else if c == '\t' then "\\t"
    else if c == '\n' then "\\n"
    else if c == 12 as char then "\\f"
    else if c == '\r' then "\\r"
    else if c == '"' then "\\\""
    else if c == '\\' then "\\\\"
    else if c < ' ' then "\\u00" + [HexDigit(c as int / 16), HexDigit(c as int % 16)]
    else [c]
  }

  function Escape(s: string): string {
    if s == [] then [] else EscapeChar(s[0]) + Escape(s[1..])
  }

  function Quote(s: string): string {
    "\"" + Escape(s) + "\""
  }

  function Serialize(v: Json): string
    decreases v
  {
    match v
    case Null => "null"
    case Bool(b) => if b then "true" else "false"
    case Number(n) => IntToString(n)
    case String(s) => Quote(s)
    case Array(items) => "[" + SerializeItems(items) + "]"
    case Object(members) => "{" + SerializeMembers(members) + "}"
  }

  /** The elements of an array, separated by commas. */
  function SerializeItems(items: seq<Json>): string
    decreases items
  {
    if items == [] then ""
    else if |items| == 1 then Serialize(items[0])
    else Serialize(items[0]) + "," + SerializeItems(items[1..])
  }

  /** The members of an object, `"key":value`, separated by commas. */
  function SerializeMembers(members: seq<Member>): string
    decreases members
  {
    if members == [] then ""
    else if |members| == 1 then SerializeMember(members[0])
    else SerializeMember(members[0]) + "," + SerializeMembers(members[1..])
  }

  function SerializeMember(m: Member): string
    decreases m
  {
    Quote(m.key) + ":" + Serialize(m.value)
  }

  // ---------------------------------------------------------------- reading

  /** The character a `\uXXXX` escape stands for, if it is one Dafny can hold. */
  function CodeUnit(t: string): (r: Option<char>)
    requires |t| == 4
  {
    if IsHexDigit(t[0]) && IsHexDigit(t[1]) && IsHexDigit(t[2]) && IsHexDigit(t[3]) then
      var v := ((HexValue(t[0]) * 16 + HexValue(t[1])) * 16 + HexValue(t[2])) * 16 + HexValue(t[3]);
      if 0xD800 <= v < 0xE000 then None else Some(v as char)
    else None
  }

  /** Reads the escape that follows a backslash: the character and the rest. */
  function ParseEscape(t: string): (r: Option<(char, string)>)
    ensures r.Some? ==> |r.value.1| < |t|
  {
    if t == [] then None
    else if t[0] == '"' then Some(('"', t[1..]))
    else if t[0] == '\\' then Some(('\\', t[1..]))
    else if t[0] == '/' then Some(('/', t[1..]))
    else if t[0] == 'b' then Some((8 as char, t[1..]))
    else if t[0] == 'f' then Some((12 as char, t[1..]))
    else if t[0] == 'n' then Some(('\n', t[1..]))
    else if t[0] == 'r' then Some(('\r', t[1..]))
    else if t[0] == 't' then Some(('\t', t[1..]))
    else if t[0] == 'u' && |t| >= 5 then
      match CodeUnit(t[1..5])
      case None => None
      case Some(c) => Some((c, t[5..]))
    else None
  }

  /** Reads the body of a string literal up to and including its closing quote. */
  function ParseStringBody(s: string): (r: Option<(string, string)>)
    ensures r.Some? ==> |r.value.1| < |s|
    decreases |s|
  {
    if s == [] then None
    else if s[0] == '"' then Some(([], s[1..]))
    else if s[0] == '\\' then
      match ParseEscape(s[1..])
      case None => None
      case Some((c, t)) =>
        match ParseStringBody(t)
        case None => None
        case Some((body, rest)) => Some(([c] + body, rest))
    else if s[0] < ' ' then None
    else
      match ParseStringBody(s[1..])
      case None => None
      case Some((body, rest)) => Some(([s[0]] + body, rest))
  }

  function ParseLiteral(s: string, word: string, v: Json): (r: Option<(Json, string)>)
    requires |word| > 0
    ensures r.Some? ==> |r.value.1| < |s|
  {
    if |word| <= |s| && s[..|word|] == word then Some((v, s[|word|..])) else None
  }

  /** JSON's integer grammar: `0` alone, or digits that do not start with `0`. */
  predicate LeadingZero(ds: string) {
    |ds| > 1 && ds[0] == '0'
  }

  function ParseNumber(s: string): (r: Option<(Json, string)>)
    ensures r.Some? ==> |r.value.1| < |s|
  {
    if s != [] && s[0] == '-' then
      var k := DigitSpan(s[1..]);
      if k == 0 || LeadingZero(s[1..][..k]) then None else Some((Number(-(DigitsValue(s[1..][..k]) as int)), s[1..][k..]))
    else
      var k := DigitSpan(s);
      if k == 0 || LeadingZero(s[..k]) then None else Some((Number(DigitsValue(s[..k])), s[k..]))
  }

  /** Reads one value from the front of `s`: the value and what follows it. */
  function ParseValue(s: string): (r: Option<(Json, string)>)
    ensures r.Some? ==> |r.value.1| < |s|
    decreases |s|, 1
  {
    if s == [] then None
    else if s[0] == 'n' then ParseLiteral(s, "null", Null)
    else if s[0] == 't' then ParseLiteral(s, "true", Bool(true))
    else if s[0] == 'f' then ParseLiteral(s, "false", Bool(false))
    else if s[0] == '"' then ParseString(s[1..])
    else if s[0] == '[' then ParseArray(s[1..])
    else if s[0] == '{' then ParseObject(s[1..])
    else ParseNumber(s)
  }

  /** Reads a string literal whose opening quote has been consumed. */
  function ParseString(t: string): (r: Option<(Json, string)>)
    ensures r.Some? ==> |r.value.1| < |t|
  {
    match ParseStringBody(t)
    case None => None
    case Some((str, rest)) => Some((String(str), rest))
  }

  /** Reads an array whose opening bracket has been consumed. */
  function ParseArray(t: string): (r: Option<(Json, string)>)
    ensures r.Some? ==> |r.value.1| < |t|
    decreases |t|, 3
  {
    if t != [] && t[0] == ']' then Some((Array([]), t[1..]))
    else
      match ParseItems(t)
      case None => None
      case Some((items, rest)) => Some((Array(items), rest))
  }

  /** Reads an object whose opening brace has been consumed. */
  function ParseObject(t: string): (r: Option<(Json, string)>)
    ensures r.Some? ==> |r.value.1| < |t|
    decreases |t|, 4
  {
    if t != [] && t[0] == '}' then Some((Object([]), t[1..]))
    else
      match ParseMembers(t)
      case None => None
      case Some((members, rest)) => Some((Object(members), rest))
  }

  /** Reads `value(,value)*]`: the elements of a non-empty array and its end. */
  function ParseItems(s: string): (r: Option<(seq<Json>, string)>)
    ensures r.Some? ==> |r.value.1| < |s|
    decreases |s|, 2
  {
    match ParseValue(s)
    case None => None
    case Some((v, t)) =>
      if t != [] && t[0] == ']' then Some(([v], t[1..]))
      else if t != [] && t[0] == ',' then
        match ParseItems(t[1..])
        case None => None
        case Some((vs, rest)) => Some(([v] + vs, rest))
      else None
  }

  /** Reads one member `"key":value`. */
  function ParseMember(s: string): (r: Option<(Member, string)>)
    ensures r.Some? ==> |r.value.1| < |s|
    decreases |s|, 2
  {
    if s == [] || s[0] != '"' then None
    else
      match ParseStringBody(s[1..])
      case None => None
      case Some((key, t)) =>
        if t == [] || t[0] != ':' then None
        else
          match ParseValue(t[1..])
          case None => None
          case Some((v, u)) => Some((Member(key, v), u))
  }

  /** Reads `"key":value(,"key":value)*}`: the members of a non-empty object. */
  function ParseMembers(s: string): (r: Option<(seq<Member>, string)>)
    ensures r.Some? ==> |r.value.1| < |s|
    decreases |s|, 3
  {
    match ParseMember(s)
    case None => None
    case Some((m, u)) =>
      if u != [] && u[0] == '}' then Some(([m], u[1..]))
      else if u != [] && u[0] == ',' then
        match ParseMembers(u[1..])
        case None => None
        case Some((ms, rest)) => Some(([m] + ms, rest))
      else None
  }

  /** `JSON.parse`: the text must be exactly one value. */
  function Parse(s: string): Option<Json> {
    match ParseValue(s)
    case Some((v, rest)) => if rest == [] then Some(v) else None
    case None => None
  }

  // ---------------------------------------------------------------- round trip

  /** What may follow a value inside a larger text. */
  predicate Delimited(rest: string) {
    rest == [] || rest[0] == ',' || rest[0] == ']' || rest[0] == '}'
  }

  lemma {:induction false} EscapeCharRoundTrip(c: char, rest: string, body: string, after: string)
    requires ParseStringBody(rest) == Some((body, after))
    ensures ParseStringBody(EscapeChar(c) + rest) == Some(([c] + body, after))
  {
    var s := EscapeChar(c) + rest;
    if c == 8 as char || c == '\t' || c == '\n' || c == 12 as char || c == '\r' || c == '"' || c == '\\' {
      assert s[0] == '\\' && s[1..][1..] == rest;
    } else if c < ' ' {
      ControlEscape(c);
      ControlEscapeRoundTrip(c, rest, body, after);
    } else {
      assert s[0] == c && s[1..] == rest;
    }
  }

  /** A control character without a short escape is written as `\u00XY`. */
  lemma ControlEscape(c: char)
    requires c < ' ' && c != 8 as char && c != '\t' && c != '\n' && c != 12 as char && c != '\r'
    ensures EscapeChar(c) == "\\u00" + [HexDigit(c as int / 16), HexDigit(c as int % 16)]
  {
  }

  lemma ControlEscapeRoundTrip(c: char, rest: string, body: string, after: string)
    requires c < ' '
    requires ParseStringBody(rest) == Some((body, after))
    ensures ParseStringBody("\\u00" + [HexDigit(c as int / 16), HexDigit(c as int % 16)] + rest) == Some(([c] + body, after))
  {
    var hi, lo := c as int / 16, c as int % 16;
    var s := "\\u00" + [HexDigit(hi), HexDigit(lo)] + rest;
    assert hi < 2;
    var t := s[1..];
    assert s[0] == '\\' && t[0] == 'u' && |t| >= 5;
    assert t[1..5] == ['0', '0', HexDigit(hi), HexDigit(lo)];
    assert HexValue(HexDigit(hi)) == hi && HexValue(HexDigit(lo)) == lo;
    assert HexValue('0') == 0;
    assert CodeUnit(t[1..5]) == Some(c);
    assert t[5..] == rest;
  }

  /** The body of a string literal written by `Quote` reads back as the string. */
  lemma {:induction false} StringRoundTrip(str: string, rest: string)
    ensures ParseStringBody(Escape(str) + "\"" + rest) == Some((str, rest))
    decreases |str|
  {
    if str == [] {
      assert Escape(str) + "\"" + rest == "\"" + rest;
      assert ("\"" + rest)[1..] == rest;
    } else {
      var tail := Escape(str[1..]) + "\"" + rest;
      assert Escape(str) + "\"" + rest == EscapeChar(str[0]) + tail;
      StringRoundTrip(str[1..], rest);
      EscapeCharRoundTrip(str[0], tail, str[1..], rest);
      assert [str[0]] + str[1..] == str;
    }
  }

  lemma {:induction false} NumberRoundTrip(n: int, rest: string)
    requires Delimited(rest)
    ensures ParseNumber(IntToString(n) + rest) == Some((Number(n), rest))
  {
    var s := IntToString(n) + rest;
    var m: nat := if n < 0 then -n else n;
    var ds := NatToString(m);
    NatRoundTrip(m, rest);
    if n < 0 {
      assert s == "-" + (ds + rest);
      assert s[1..] == ds + rest;
    } else {
      assert s == ds + rest;
    }
  }

  /** A number written with a leading zero, such as `012` or `-00`, is not JSON text. */
  lemma LeadingZeroRejected(ds: string, rest: string)
    requires AllDigits(ds) && LeadingZero(ds)
    requires rest == [] || !IsDigit(rest[0])
    ensures ParseNumber(ds + rest) == None && ParseNumber("-" + ds + rest) == None
    ensures Parse(ds + rest) == None && Parse("-" + ds + rest) == None
  {
    DigitSpanOf(ds, rest);
    assert (ds + rest)[..|ds|] == ds;
    assert ("-" + ds + rest)[1..] == ds + rest;
  }

  /** The digits of `n`, then a non-digit: the digit span is exactly `n`'s digits. */
  lemma NatRoundTrip(n: nat, rest: string)
    requires rest == [] || !IsDigit(rest[0])
    ensures var ds := NatToString(n);
      && DigitSpan(ds + rest) == |ds| && (ds + rest)[..|ds|] == ds && (ds + rest)[|ds|..] == rest
      && DigitsValue(ds) == n
  {
    var ds := NatToString(n);
    DigitSpanOf(ds, rest);
    NatToStringRoundTrip(n);
    assert (ds + rest)[..|ds|] == ds;
    assert (ds + rest)[|ds|..] == rest;
  }

  lemma FirstOfValue(v: Json, rest: string)
    ensures |Serialize(v)| > 0
    ensures (Serialize(v) + rest)[0] == Serialize(v)[0]
    ensures Serialize(v)[0] != ']' && Serialize(v)[0] != '}'
  {
    match v
    case Number(n) =>
      if n >= 0 { assert IsDigit(NatToString(n)[0]); }
    case _ =>
  }

  /** The elements of a non-empty array never start with its closing bracket. */
  lemma {:induction false} FirstOfItems(items: seq<Json>, rest: string)
    requires items != []
    ensures |SerializeItems(items) + rest| > 0
    ensures (SerializeItems(items) + rest)[0] != ']'
  {
    var t := if |items| == 1 then rest else "," + SerializeItems(items[1..]) + rest;
    assert SerializeItems(items) + rest == Serialize(items[0]) + t;
    FirstOfValue(items[0], t);
  }

  /** The members of a non-empty object start with the quote of the first key. */
  lemma {:induction false} FirstOfMembers(members: seq<Member>, rest: string)
    requires members != []
    ensures |SerializeMembers(members) + rest| > 0
    ensures (SerializeMembers(members) + rest)[0] == '"'
  {
    var first := SerializeMember(members[0]);
    assert first == "\"" + Escape(members[0].key) + "\"" + ":" + Serialize(members[0].value);
    assert first[0] == '"';
    var t := if |members| == 1 then rest else "," + SerializeMembers(members[1..]) + rest;
    assert SerializeMembers(members) + rest == first + t;
    assert (first + t)[0] == first[0];
  }

  lemma ArrayFraming(items: seq<Json>, rest: string)
    requires items != []
    requires ParseItems(SerializeItems(items) + "]" + rest) == Some((items, rest))
    ensures ParseValue(Serialize(Array(items)) + rest) == Some((Array(items), rest))
  {
    var inner := SerializeItems(items) + "]" + rest;
    assert Serialize(Array(items)) == "[" + SerializeItems(items) + "]";
    Wrap("[", SerializeItems(items), "]", rest);
    FirstOfItems(items, "]" + rest);
    SeqAssoc(SerializeItems(items), "]", rest);
    CloseAfterItems(inner, items, rest);
    OpenBracket(inner);
  }

  lemma CloseAfterItems(inner: string, items: seq<Json>, rest: string)
    requires inner != [] && inner[0] != ']'
    requires ParseItems(inner) == Some((items, rest))
    ensures ParseArray(inner) == Some((Array(items), rest))
  {
  }

  lemma OpenBracket(t: string)
    ensures ParseValue("[" + t) == ParseArray(t)
  {
    assert ("[" + t)[0] == '[' && ("[" + t)[1..] == t;
  }

  lemma ObjectFraming(members: seq<Member>, rest: string)
    requires members != []
    requires ParseMembers(SerializeMembers(members) + "}" + rest) == Some((members, rest))
    ensures ParseValue(Serialize(Object(members)) + rest) == Some((Object(members), rest))
  {
    var inner := SerializeMembers(members) + "}" + rest;
    assert Serialize(Object(members)) == "{" + SerializeMembers(members) + "}";
    Wrap("{", SerializeMembers(members), "}", rest);
    FirstOfMembers(members, "}" + rest);
    SeqAssoc(SerializeMembers(members), "}", rest);
    CloseAfterMembers(inner, members, rest);
    OpenBrace(inner);
  }

  lemma CloseAfterMembers(inner: string, members: seq<Member>, rest: string)
    requires inner != [] && inner[0] != '}'
    requires ParseMembers(inner) == Some((members, rest))
    ensures ParseObject(inner) == Some((Object(members), rest))
  {
  }

  lemma OpenBrace(t: string)
    ensures ParseValue("{" + t) == ParseObject(t)
  {
    assert ("{" + t)[0] == '{' && ("{" + t)[1..] == t;
  }

  lemma EmptyRoundTrip(v: Json, rest: string)
    requires v == Array([]) || v == Object([])
    ensures ParseValue(Serialize(v) + rest) == Some((v, rest))
  {
    var s := Serialize(v) + rest;
    assert s[1..][1..] == rest;
    if v.Array? {
      assert s[0] == '[' && s[1..][0] == ']';
    } else {
      assert s[0] == '{' && s[1..][0] == '}';
    }
  }

  lemma LiteralRoundTrip(v: Json, rest: string)
    requires v.Null? || v.Bool?
    ensures ParseValue(Serialize(v) + rest) == Some((v, rest))
  {
    var s := Serialize(v) + rest;
    var w := Serialize(v);
    assert s[..|w|] == w && s[|w|..] == rest;
  }

  lemma StringValueRoundTrip(str: string, rest: string)
    ensures ParseValue(Serialize(String(str)) + rest) == Some((String(str), rest))
  {
    var s := Serialize(String(str)) + rest;
    assert s[0] == '"';
    assert s[1..] == Escape(str) + "\"" + rest;
    StringRoundTrip(str, rest);
  }

  lemma NumberValueRoundTrip(n: int, rest: string)
    requires Delimited(rest)
    ensures ParseValue(Serialize(Number(n)) + rest) == Some((Number(n), rest))
  {
    NumberRoundTrip(n, rest);
    var s := Serialize(Number(n)) + rest;
    if n >= 0 {
      assert IsDigit(NatToString(n)[0]);
    }
    assert s[0] == IntToString(n)[0];
  }

  /** Reading back what `Serialize` wrote yields the same value and leaves what followed. */
  lemma {:induction false} ValueRoundTrip(v: Json, rest: string)
    requires Delimited(rest)
    ensures ParseValue(Serialize(v) + rest) == Some((v, rest))
    decreases v
  {
    match v
    case Null => LiteralRoundTrip(v, rest);
    case Bool(_) => LiteralRoundTrip(v, rest);
    case Number(n) => NumberValueRoundTrip(n, rest);
    case String(str) => StringValueRoundTrip(str, rest);
    case Array(items) =>
      if items == [] {
        EmptyRoundTrip(v, rest);
      } else {
        ItemsRoundTrip(items, rest);
        ArrayFraming(items, rest);
      }
    case Object(members) =>
      if members == [] {
        EmptyRoundTrip(v, rest);
      } else {
        MembersRoundTrip(members, rest);
        ObjectFraming(members, rest);
      }
  }

  lemma {:induction false} ItemsRoundTrip(items: seq<Json>, rest: string)
    requires items != [] && Delimited(rest)
    ensures ParseItems(SerializeItems(items) + "]" + rest) == Some((items, rest))
    decreases items
  {
    var head := Serialize(items[0]);
    if |items| == 1 {
      var t := "]" + rest;
      assert SerializeItems(items) == head;
      SeqAssoc(head, "]", rest);
      ValueRoundTrip(items[0], t);
      ItemsStep(head, t, items[0]);
      assert [items[0]] == items;
    } else {
      var tailText := SerializeItems(items[1..]);
      var t := "," + (tailText + "]" + rest);
      assert SerializeItems(items) == head + "," + tailText;
      AssocFour(head, ",", tailText, "]", rest);
      ValueRoundTrip(items[0], t);
      ItemsRoundTrip(items[1..], rest);
      ItemsStep(head, t, items[0]);
      assert t[1..] == tailText + "]" + rest;
      assert [items[0]] + items[1..] == items;
    }
  }

  lemma ItemsStep(head: string, t: string, v: Json)
    requires ParseValue(head + t) == Some((v, t))
    requires t != []
    ensures t[0] == ']' ==> ParseItems(head + t) == Some(([v], t[1..]))
    ensures t[0] == ',' ==> ParseItems(head + t) == match ParseItems(t[1..])
      case None => None
      case Some((vs, rest)) => Some(([v] + vs, rest))
  {
  }

  lemma SeqAssoc(a: string, b: string, c: string)
    ensures a + b + c == a + (b + c)
  {
  }

  lemma Wrap(a: string, b: string, c: string, d: string)
    ensures a + b + c + d == a + (b + c + d)
  {
  }

  lemma AssocFour(a: string, b: string, c: string, d: string, e: string)
    ensures a + b + c + d + e == a + (b + (c + d + e))
  {
  }

  /** One member `"key":value` reads back as itself and leaves what followed. */
  lemma {:induction false} MemberRoundTrip(m: Member, after: string)
    requires Delimited(after)
    ensures ParseMember(SerializeMember(m) + after) == Some((m, after))
    decreases m
  {
    var esc := Escape(m.key);
    var val := Serialize(m.value);
    var t := ":" + (val + after);
    var body := esc + "\"" + t;
    calc {
      SerializeMember(m) + after;
      ("\"" + esc + "\"") + ":" + val + after;
      { AssocFour("\"" + esc + "\"", ":", val, after, []); }
      "\"" + body;
    }
    StringRoundTrip(m.key, t);
    ValueRoundTrip(m.value, after);
    MemberStep(body, m.key, t, m.value, after);
  }

  lemma MemberStep(body: string, key: string, t: string, v: Json, after: string)
    requires ParseStringBody(body) == Some((key, t))
    requires t == ":" + (Serialize(v) + after)
    requires ParseValue(Serialize(v) + after) == Some((v, after))
    ensures ParseMember("\"" + body) == Some((Member(key, v), after))
  {
    assert ("\"" + body)[1..] == body;
    assert t[1..] == Serialize(v) + after;
  }

  lemma {:induction false} MembersRoundTrip(members: seq<Member>, rest: string)
    requires members != [] && Delimited(rest)
    ensures ParseMembers(SerializeMembers(members) + "}" + rest) == Some((members, rest))
    decreases members
  {
    var m := members[0];
    var head := SerializeMember(m);
    if |members| == 1 {
      var t := "}" + rest;
      assert SerializeMembers(members) == head;
      SeqAssoc(head, "}", rest);
      MemberRoundTrip(m, t);
      MembersStep(head, t, m);
      assert [m] == members;
    } else {
      var tailText := SerializeMembers(members[1..]);
      var t := "," + (tailText + "}" + rest);
      assert SerializeMembers(members) == head + "," + tailText;
      AssocFour(head, ",", tailText, "}", rest);
      MemberRoundTrip(m, t);
      MembersRoundTrip(members[1..], rest);
      MembersStep(head, t, m);
      assert t[1..] == tailText + "}" + rest;
      assert [m] + members[1..] == members;
    }
  }

  lemma MembersStep(head: string, t: string, m: Member)
    requires ParseMember(head + t) == Some((m, t))
    requires t != []
    ensures t[0] == '}' ==> ParseMembers(head + t) == Some(([m], t[1..]))
    ensures t[0] == ',' ==> ParseMembers(head + t) == match ParseMembers(t[1..])
      case None => None
      case Some((ms, rest)) => Some(([m] + ms, rest))
  {
  }

  /** `JSON.parse(JSON.stringify(v))` gives back `v`. */
  lemma ParseSerialize(v: Json)
    ensures Parse(Serialize(v)) == Some(v)
  {
    ValueRoundTrip(v, []);
    assert Serialize(v) + [] == Serialize(v);
  }

  /** `JSON.stringify` never writes the empty string, which the adapter would read as a miss. */
  lemma SerializeNonEmpty(v: Json)
    ensures Serialize(v) != []
  {
    FirstOfValue(v, []);
  }
}
