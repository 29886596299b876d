/** JSON text as the code-map script writes it and a JSON reader reads it back. Text is a sequence of
    characters of the basic multilingual plane; the script emits no insignificant white space. */
module JsonText {
  import opened Basics
  import opened Results

  datatype Json =
    | JObject(fields: seq<Field>)
    | JArray(items: seq<Json>)
    | JString(text: string)
    | JInt(value: int)
    | JBool(flag: bool)

  datatype Field = Field(key: string, value: Json)

  const BACKSPACE: char := '\U{8}'
  const FORMFEED: char := '\U{c}'

  // ---- strings -----------------------------------------------------------------------------

  function HexDigit(n: nat): (c: char)
    requires n < 16
  {
    if n < 10 then '0' + n as char else 'a' + (n - 10) as char
  }

  function HexValue(c: char): (r: Option<nat>)
    ensures r.Some? ==> r.value < 16
  {
    if '0' <= c <= '9' then Some((c - '0') as nat)
    else if 'a' <= c <= 'f' then Some((c - 'a') as nat + 10)
    else if 'A' <= c <= 'F' then Some((c - 'A') as nat + 10)
    else None
  }

  /** One character inside a JSON string. */
  function Escape(c: char): string {
    if c == '"' then "\\\""
    else if c == '\\' then "\\\\"
    else if c == BACKSPACE then "\\b"
    else if c == FORMFEED then "\\f"
    else if c == '\n' then "\\n"
    else if c == '\r' then "\\r"
    else if c == '\t' then "\\t"
    else if c < ' ' then "\\u00" + [HexDigit(c as nat / 16), HexDigit(c as nat % 16)]
    else [c]
  }

  function EscapeAll(s: string): string {
    if s == [] then [] else Escape(s[0]) + EscapeAll(s[1..])
  }

  /** The character written at the start of a string body, and how much text it takes. */
  function ReadChar(s: string): (r: Option<(char, nat)>)
    ensures r.Some? ==> 0 < r.value.1 <= |s|
  {
    if s == [] || s[0] < ' ' || s[0] == '"' then None
    else if s[0] != '\\' then Some((s[0], 1))
    else if |s| < 2 then None
    else
      match s[1]
      case '"' => Some(('"', 2))
      case '\\' => Some(('\\', 2))
      case '/' => Some(('/', 2))
      case 'b' => Some((BACKSPACE, 2))
      case 'f' => Some((FORMFEED, 2))
      case 'n' => Some(('\n', 2))
      case 'r' => Some(('\r', 2))
      case 't' => Some(('\t', 2))
      case 'u' => ReadUnicode(s)
      case _ => None
  }

  /** Four hexadecimal digits; surrogates are outside this model. */
  function ReadUnicode(s: string): (r: Option<(char, nat)>)
    requires |s| >= 2
    ensures r.Some? ==> r.value.1 == 6 <= |s|
  {
    if |s| < 6 then None
    else
      var a, b, c, d := HexValue(s[2]), HexValue(s[3]), HexValue(s[4]), HexValue(s[5]);
      if a.None? || b.None? || c.None? || d.None? then None
      else
        var code := a.value * 4096 + b.value * 256 + c.value * 16 + d.value;
        if 0xD800 <= code < 0xE000 then None else Some((code as char, 6))
  }

  /** A string body up to its closing quote, and the text after the quote. */
  function ReadBody(s: string): (r: Option<(string, string)>)
    ensures r.Some? ==> |r.value.1| < |s|
    decreases |s|
  {
    if s != [] && s[0] == '"' then Some(([], s[1..]))
    else
      var c := ReadChar(s);
      if c.None? then None
      else
        var more := ReadBody(s[c.value.1..]);
        if more.None? then None else Some(([c.value.0] + more.value.0, more.value.1))
  }

  /** How many backslashes stand right before a position. */
  function Backslashes(t: string, i: nat): (n: nat)
    requires i <= |t|
    ensures n <= i
  {
    if i > 0 && t[i - 1] == '\\' then Backslashes(t, i - 1) + 1 else 0
  }

  /** No raw control character, no bare quote (every quote has an odd run of backslashes before it), and no
      backslash left over that would escape what follows. */
  predicate Clean(t: string) {
    && (forall i :: 0 <= i < |t| ==> t[i] >= ' ')
    && (forall i :: 0 <= i < |t| && t[i] == '"' ==> Backslashes(t, i) % 2 == 1)
    && Backslashes(t, |t|) % 2 == 0
  }

  /** An escaped text holds no bare quote and no raw control character. */
  lemma {:induction false} EscapedIsClean(s: string)
    ensures Clean(EscapeAll(s))
  {
    if s != [] {
      EscapedIsClean(s[1..]);
      EscapeIsClean(s[0]);
      CleanJoins(Escape(s[0]), EscapeAll(s[1..]));
    }
  }

  lemma EscapeIsClean(c: char)
    ensures Clean(Escape(c))
  {
    var t := Escape(c);
    assert Backslashes(t, 0) == 0;
    assert Backslashes(t, 1) == if t[0] == '\\' then 1 else 0;
    assert |t| > 1 ==> Backslashes(t, 2) == if t[1] != '\\' then 0 else if t[0] == '\\' then 2 else 1;
  }

  lemma {:induction false} RunsInPrefix(t: string, u: string, i: nat)
    requires i <= |t|
    ensures Backslashes(t + u, i) == Backslashes(t, i)
  {
    if i > 0 {
      RunsInPrefix(t, u, i - 1);
    }
  }

  /** After an even run, the parity of every later run is what it is without the prefix. */
  lemma {:induction false} RunsAfterPrefix(t: string, u: string, i: nat)
    requires i <= |u| && Backslashes(t, |t|) % 2 == 0
    ensures Backslashes(t + u, |t| + i) % 2 == Backslashes(u, i) % 2
  {
    if i > 0 {
      RunsAfterPrefix(t, u, i - 1);
    } else {
      RunsInPrefix(t, u, |t|);
    }
  }

  lemma CleanJoins(t: string, u: string)
    requires Clean(t) && Clean(u)
    ensures Clean(t + u)
  {
    forall i | 0 <= i < |t + u| && (t + u)[i] == '"'
      ensures Backslashes(t + u, i) % 2 == 1
    {
      if i < |t| {
        RunsInPrefix(t, u, i);
      } else {
        RunsAfterPrefix(t, u, i - |t|);
      }
    }
    RunsAfterPrefix(t, u, |u|);
  }

  /** Reading recovers every text from its escaped form. */
  lemma {:induction false} EscapedIsRead(s: string, rest: string)
    ensures ReadBody(EscapeAll(s) + "\"" + rest) == Some((s, rest))
  {
    var text := EscapeAll(s) + "\"" + rest;
    if s == [] {
      assert text[0] == '"' && text[1..] == rest;
    } else {
      var tail := EscapeAll(s[1..]) + "\"" + rest;
      Regroup(Escape(s[0]), EscapeAll(s[1..]), "\"", rest);
      EscapedIsRead(s[1..], rest);
      CharIsRead(s[0], s[1..], tail, rest);
      assert s == [s[0]] + s[1..];
    }
  }

  lemma CharIsRead(c: char, more: string, tail: string, rest: string)
    requires ReadBody(tail) == Some((more, rest))
    ensures ReadBody(Escape(c) + tail) == Some(([c] + more, rest))
  {
    assert (Escape(c) + tail)[|Escape(c)|..] == tail;
    assert (Escape(c) + tail)[0] == Escape(c)[0];
  }

  function Quoted(s: string): string {
    "\"" + EscapeAll(s) + "\""
  }

  // ---- integers ----------------------------------------------------------------------------

  predicate IsDigit(c: char) {
    '0' <= c <= '9'
  }

  predicate AllDigits(s: string) {
    forall i :: 0 <= i < |s| ==> IsDigit(s[i])
  }

  function Digits(n: nat): (s: string)
    ensures s != [] && AllDigits(s)
    ensures n > 0 ==> s[0] != '0'
    ensures n == 0 ==> s == "0"
  {
    if n < 10 then ['0' + n as char] else Digits(n / 10) + ['0' + (n % 10) as char]
  }

  function IntText(i: int): string {
    if i < 0 then ['-'] + Digits(-i) else Digits(i)
  }

  function DigitValue(c: char): nat
    requires IsDigit(c)
  {
    (c - '0') as nat
  }

  function DigitsValue(s: string): nat
    requires AllDigits(s)
  {
    if s == [] then 0 else DigitsValue(s[..|s| - 1]) * 10 + DigitValue(s[|s| - 1])
  }

  function DigitCount(s: string): (n: nat)
    ensures n <= |s| && (forall i :: 0 <= i < n ==> IsDigit(s[i])) && (n == |s| || !IsDigit(s[n]))
  {
    if s == [] || !IsDigit(s[0]) then 0 else DigitCount(s[1..]) + 1
  }

  /** A natural number without superfluous zeros. */
  function ReadNat(s: string): (r: Option<(nat, string)>)
    ensures r.Some? ==> |r.value.1| < |s|
  {
    var n := DigitCount(s);
    if n == 0 || (n > 1 && s[0] == '0') then None else Some((DigitsValue(s[..n]), s[n..]))
  }

  function ReadInt(s: string): (r: Option<(int, string)>)
    ensures r.Some? ==> |r.value.1| < |s|
  {
    if s != [] && s[0] == '-' then
      var r := ReadNat(s[1..]);
      if r.None? then None
      else
        var n: int := r.value.0;
        Some((-n, r.value.1))
    else
      var r := ReadNat(s);
      if r.None? then None else Some((r.value.0, r.value.1))
  }

  lemma {:induction false} DigitsAreRead(n: nat)
    ensures DigitsValue(Digits(n)) == n
  {
    if n < 10 {
      assert Digits(n)[..0] == [];
    } else {
      DigitsAreRead(n / 10);
      assert Digits(n)[..|Digits(n)| - 1] == Digits(n / 10);
    }
  }

  /** What follows a value cannot be taken for part of it. */
  predicate Stops(rest: string) {
    rest == [] || !IsDigit(rest[0])
  }

  lemma {:induction false} CountIsLength(s: string, rest: string)
    requires AllDigits(s) && Stops(rest)
    ensures DigitCount(s + rest) == |s|
  {
    if s == [] {
      assert s + rest == rest;
    } else {
      assert (s + rest)[1..] == s[1..] + rest;
      CountIsLength(s[1..], rest);
    }
  }

  lemma NatIsRead(n: nat, rest: string)
    requires Stops(rest)
    ensures ReadNat(Digits(n) + rest) == Some((n, rest))
  {
    var s := Digits(n) + rest;
    CountIsLength(Digits(n), rest);
    DigitsAreRead(n);
    assert s[..|Digits(n)|] == Digits(n) && s[|Digits(n)|..] == rest;
    assert s[0] == Digits(n)[0];
  }

  lemma NegativeIsRead(i: int, rest: string)
    requires Stops(rest) && i < 0
    ensures ReadInt(['-'] + Digits(-i) + rest) == Some((i, rest))
  {
    var s := ['-'] + Digits(-i) + rest;
    assert s[0] == '-' && s[1..] == Digits(-i) + rest;
    NatIsRead(-i, rest);
  }

  lemma PositiveIsRead(n: nat, rest: string)
    requires Stops(rest)
    ensures ReadInt(Digits(n) + rest) == Some((n, rest))
  {
    NatIsRead(n, rest);
  }

  lemma IntIsRead(i: int, rest: string)
    requires Stops(rest)
    ensures ReadInt(IntText(i) + rest) == Some((i, rest))
  {
    if i < 0 {
      NegativeIsRead(i, rest);
    } else {
      PositiveIsRead(i, rest);
    }
  }

  // ---- values ------------------------------------------------------------------------------

  /** Texts separated by commas. */
  function Join(texts: seq<string>): string {
    if texts == [] then []
    else if |texts| == 1 then texts[0]
    else texts[0] + "," + Join(texts[1..])
  }

  function Render(j: Json): string {
    match j
    case JString(text) => Quoted(text)
    case JInt(value) => IntText(value)
    case JBool(flag) => if flag then "true" else "false"
    case JArray(items) => "[" + Join(seq(|items|, i requires 0 <= i < |items| => Render(items[i]))) + "]"
    case JObject(fields) =>
      "{" + Join(seq(|fields|, i requires 0 <= i < |fields| => Quoted(fields[i].key) + ":" + Render(fields[i].value)))
        + "}"
  }

  function ItemTexts(items: seq<Json>): (texts: seq<string>)
    ensures |texts| == |items| && forall i :: 0 <= i < |items| ==> texts[i] == Render(items[i])
  {
    seq(|items|, i requires 0 <= i < |items| => Render(items[i]))
  }

  function FieldText(f: Field): string {
    Quoted(f.key) + ":" + Render(f.value)
  }

  function FieldTexts(fields: seq<Field>): (texts: seq<string>)
    ensures |texts| == |fields| && forall i :: 0 <= i < |fields| ==> texts[i] == FieldText(fields[i])
  {
    seq(|fields|, i requires 0 <= i < |fields| => FieldText(fields[i]))
  }

  predicate Starts(s: string, c: char) {
    s != [] && s[0] == c
  }

  predicate IsSpace(c: char) {
    c == ' ' || c == '\t' || c == '\n' || c == '\r'
  }

  /** White space between tokens means nothing. */
  function Skip(s: string): (t: string)
    ensures |t| <= |s| && (t == [] || !IsSpace(t[0]))
  {
    if s != [] && IsSpace(s[0]) then Skip(s[1..]) else s
  }

  /** A value with the white space around it, and the text after it. */
  function ParseValue(s: string): (r: Option<(Json, string)>)
    ensures r.Some? ==> |r.value.1| < |s|
    decreases |s|, 1
  {
    var r := ParseToken(Skip(s));
    if r.None? then None else Some((r.value.0, Skip(r.value.1)))
  }

  function ParseToken(s: string): (r: Option<(Json, string)>)
    ensures r.Some? ==> |r.value.1| < |s|
    decreases |s|, 0
  {
    if Starts(s, '"') then
      var r := ReadBody(s[1..]);
      if r.None? then None else Some((JString(r.value.0), r.value.1))
    else if Starts(s, '[') then
      if Starts(Skip(s[1..]), ']') then Some((JArray([]), Skip(s[1..])[1..]))
      else
        var r := ParseItems(s[1..]);
        if r.None? then None else Some((JArray(r.value.0), r.value.1))
    else if Starts(s, '{') then
      if Starts(Skip(s[1..]), '}') then Some((JObject([]), Skip(s[1..])[1..]))
      else
        var r := ParseFields(s[1..]);
        if r.None? then None else Some((JObject(r.value.0), r.value.1))
    else if "true" <= s then Some((JBool(true), s[4..]))
    else if "false" <= s then Some((JBool(false), s[5..]))
    else
      var r := ReadInt(s);
      if r.None? then None else Some((JInt(r.value.0), r.value.1))
  }

  /** Values separated by commas up to the closing bracket. */
  function ParseItems(s: string): (r: Option<(seq<Json>, string)>)
    ensures r.Some? ==> |r.value.1| < |s|
    decreases |s|, 2
  {
    var v := ParseValue(s);
    if v.None? then None
    else if Starts(v.value.1, ']') then Some(([v.value.0], v.value.1[1..]))
    else if !Starts(v.value.1, ',') then None
    else
      var more := ParseItems(v.value.1[1..]);
      if more.None? then None else Some(([v.value.0] + more.value.0, more.value.1))
  }

  function ParseField(s: string): (r: Option<(Field, string)>)
    ensures r.Some? ==> |r.value.1| < |s|
    decreases |s|, 2
  {
    var t := Skip(s);
    if !Starts(t, '"') then None
    else
      var key := ReadBody(t[1..]);
      if key.None? || !Starts(Skip(key.value.1), ':') then None
      else
        var v := ParseValue(Skip(key.value.1)[1..]);
        if v.None? then None else Some((Field(key.value.0, v.value.0), v.value.1))
  }

  function ParseFields(s: string): (r: Option<(seq<Field>, string)>)
    ensures r.Some? ==> |r.value.1| < |s|
    decreases |s|, 3
  {
    var f := ParseField(s);
    if f.None? then None
    else if Starts(f.value.1, '}') then Some(([f.value.0], f.value.1[1..]))
    else if !Starts(f.value.1, ',') then None
    else
      var more := ParseFields(f.value.1[1..]);
      if more.None? then None else Some(([f.value.0] + more.value.0, more.value.1))
  }

  // ---- reading back what was written -------------------------------------------------------

  function Width(j: Json): nat {
    match j
    case JArray(items) => |items| + 2
    case JObject(fields) => |fields| + 2
    case _ => 0
  }

  lemma BehindQuote(body: string, rest: string)
    ensures var s := "\"" + body + "\"" + rest; s[0] == '"' && s[1..] == body + "\"" + rest
  {
  }

  lemma QuotedIsRead(text: string, rest: string)
    ensures var s := Quoted(text) + rest; Starts(s, '"') && ReadBody(s[1..]) == Some((text, rest))
  {
    EscapedIsRead(text, rest);
    BehindQuote(EscapeAll(text), rest);
  }

  lemma IntTokenIsRead(i: int, rest: string)
    requires Stops(rest)
    ensures ParseToken(IntText(i) + rest) == Some((JInt(i), rest))
  {
    IntIsRead(i, rest);
    var n: nat := if i < 0 then -i else i;
    assert IsDigit(Digits(n)[0]);
    var c := (IntText(i) + rest)[0];
    assert c == '-' || IsDigit(c);
    assert "true"[0] == 't' && "false"[0] == 'f';
  }

  lemma BoolTokenIsRead(flag: bool, rest: string)
    ensures ParseToken(Render(JBool(flag)) + rest) == Some((JBool(flag), rest))
  {
    var s := Render(JBool(flag)) + rest;
    assert s[0] == if flag then 't' else 'f';
    assert s[|Render(JBool(flag))|..] == rest;
  }

  /** A rendered value begins with neither white space nor a closing bracket. */
  lemma RenderStarts(j: Json)
    ensures Render(j) != [] && !IsSpace(Render(j)[0]) && Render(j)[0] != ']'
  {
    if j.JInt? {
      var n: nat := if j.value < 0 then -j.value else j.value;
      assert IsDigit(Digits(n)[0]);
    }
  }

  /** Every value is read back from its text, whatever follows it. */
  lemma {:induction false} TokenIsRead(j: Json, rest: string)
    requires Stops(rest)
    ensures ParseToken(Render(j) + rest) == Some((j, rest))
    decreases j, Width(j)
  {
    match j
    case JString(text) => QuotedIsRead(text, rest);
    case JInt(value) => IntTokenIsRead(value, rest);
    case JBool(flag) => BoolTokenIsRead(flag, rest);
    case JArray(items) => ArrayIsRead(j, rest);
    case JObject(fields) => ObjectIsRead(j, rest);
  }

  lemma {:induction false} ValueIsRead(j: Json, rest: string)
    requires Stops(rest)
    ensures ParseValue(Render(j) + rest) == Some((j, Skip(rest)))
    decreases j, Width(j) + 1
  {
    RenderStarts(j);
    assert (Render(j) + rest)[0] == Render(j)[0];
    TokenIsRead(j, rest);
  }

  lemma Headed(c: char, t: string)
    requires !IsSpace(c)
    ensures ([c] + t)[0] == c && ([c] + t)[1..] == t && Skip([c] + t) == [c] + t
  {
  }

  lemma Bracketed(items: seq<Json>, body: string, rest: string)
    requires if items == [] then body == "]" + rest
             else body != [] && !IsSpace(body[0]) && body[0] != ']' && ParseItems(body) == Some((items, rest))
    ensures ParseToken("[" + body) == Some((JArray(items), rest))
  {
    Headed('[', body);
    Headed(']', rest);
  }

  lemma Braced(fields: seq<Field>, body: string, rest: string)
    requires if fields == [] then body == "}" + rest
             else Starts(body, '"') && ParseFields(body) == Some((fields, rest))
    ensures ParseToken("{" + body) == Some((JObject(fields), rest))
  {
    Headed('{', body);
    Headed('}', rest);
  }

  /** How joined texts go on from position `k`: one text, then the end or a comma and the others. */
  lemma JoinedFrom(texts: seq<string>, k: nat, close: string)
    requires k < |texts|
    ensures Join(texts[k..]) + close
         == texts[k] + (if k == |texts| - 1 then close else "," + (Join(texts[k + 1..]) + close))
  {
    if k < |texts| - 1 {
      Regroup(texts[k], ",", Join(texts[k + 1..]), close);
      Regroup(",", Join(texts[k + 1..]), close, []);
    }
  }

  lemma {:induction false} ArrayIsRead(j: Json, rest: string)
    requires j.JArray?
    ensures ParseToken(Render(j) + rest) == Some((j, rest))
    decreases j, |j.items| + 1
  {
    var texts := ItemTexts(j.items);
    var close := "]" + rest;
    var body := Join(texts) + close;
    assert Render(j) + rest == "[" + body;
    if j.items == [] {
      assert body == close;
    } else {
      assert texts[0..] == texts && j.items[0..] == j.items;
      ItemsAreRead(j, 0, rest);
      JoinedFrom(texts, 0, close);
      RenderStarts(j.items[0]);
      assert body[0] == texts[0][0];
    }
    Bracketed(j.items, body, rest);
  }

  lemma LastItem(s: string, v: Json, rest: string)
    requires ParseValue(s) == Some((v, "]" + rest))
    ensures ParseItems(s) == Some(([v], rest))
  {
    Headed(']', rest);
  }

  lemma MoreItems(s: string, v: Json, next: string, more: seq<Json>, rest: string)
    requires ParseValue(s) == Some((v, "," + next)) && ParseItems(next) == Some((more, rest))
    ensures ParseItems(s) == Some(([v] + more, rest))
  {
    Headed(',', next);
  }

  lemma LastField(s: string, f: Field, rest: string)
    requires ParseField(s) == Some((f, "}" + rest))
    ensures ParseFields(s) == Some(([f], rest))
  {
    Headed('}', rest);
  }

  lemma MoreFields(s: string, f: Field, next: string, more: seq<Field>, rest: string)
    requires ParseField(s) == Some((f, "," + next)) && ParseFields(next) == Some((more, rest))
    ensures ParseFields(s) == Some(([f] + more, rest))
  {
    Headed(',', next);
  }

  lemma {:induction false} ItemsAreRead(j: Json, k: nat, rest: string)
    requires j.JArray? && k < |j.items|
    ensures ParseItems(Join(ItemTexts(j.items)[k..]) + ("]" + rest)) == Some((j.items[k..], rest))
    decreases j, |j.items| - k
  {
    var texts, close, v := ItemTexts(j.items), "]" + rest, j.items[k];
    JoinedFrom(texts, k, close);
    if k == |j.items| - 1 {
      ValueIsRead(v, close);
      LastItem(Render(v) + close, v, rest);
      assert j.items[k..] == [v];
    } else {
      var next := Join(texts[k + 1..]) + close;
      ValueIsRead(v, "," + next);
      ItemsAreRead(j, k + 1, rest);
      MoreItems(Render(v) + ("," + next), v, next, j.items[k + 1..], rest);
      assert j.items[k..] == [v] + j.items[k + 1..];
    }
  }

  lemma OneField(s: string, key: string, next: string, v: Json, rest: string)
    requires Starts(s, '"') && ReadBody(s[1..]) == Some((key, ":" + next)) && ParseValue(next) == Some((v, rest))
    ensures ParseField(s) == Some((Field(key, v), rest))
  {
    Headed(':', next);
  }

  lemma {:induction false} FieldIsRead(f: Field, rest: string)
    requires Stops(rest)
    ensures ParseField(FieldText(f) + rest) == Some((f, Skip(rest)))
    decreases f.value, Width(f.value) + 2
  {
    var next := Render(f.value) + rest;
    var s := Quoted(f.key) + (":" + next);
    assert FieldText(f) + rest == s by {
      Regroup(Quoted(f.key), ":", Render(f.value), rest);
      Regroup(":", Render(f.value), rest, []);
    }
    QuotedIsRead(f.key, ":" + next);
    ValueIsRead(f.value, rest);
    OneField(s, f.key, next, f.value, Skip(rest));
  }

  lemma {:induction false} ObjectIsRead(j: Json, rest: string)
    requires j.JObject?
    ensures ParseToken(Render(j) + rest) == Some((j, rest))
    decreases j, |j.fields| + 1
  {
    var texts := FieldTexts(j.fields);
    var close := "}" + rest;
    var body := Join(texts) + close;
    ObjectText(j.fields);
    assert Render(j) + rest == "{" + body;
    if j.fields == [] {
      assert body == close;
    } else {
      assert texts[0..] == texts && j.fields[0..] == j.fields;
      FieldsAreRead(j, 0, rest);
      JoinedFrom(texts, 0, close);
      assert body[0] == texts[0][0] == '"';
    }
    Braced(j.fields, body, rest);
  }

  lemma ObjectText(fields: seq<Field>)
    ensures Render(JObject(fields)) == "{" + Join(FieldTexts(fields)) + "}"
  {
    assert seq(|fields|, i requires 0 <= i < |fields| => Quoted(fields[i].key) + ":" + Render(fields[i].value))
        == FieldTexts(fields);
  }

  lemma LastFieldIsRead(fields: seq<Field>, rest: string)
    requires fields != [] && var f := fields[|fields| - 1];
             ParseField(FieldText(f) + ("}" + rest)) == Some((f, Skip("}" + rest)))
    ensures ParseFields(Join(FieldTexts(fields)[|fields| - 1..]) + ("}" + rest)) == Some((fields[|fields| - 1..], rest))
  {
    var k := |fields| - 1;
    JoinedFrom(FieldTexts(fields), k, "}" + rest);
    LastField(FieldText(fields[k]) + ("}" + rest), fields[k], rest);
    assert fields[k..] == [fields[k]];
  }

  lemma FieldsGoOn(whole: string, fields: seq<Field>, k: nat, next: string, rest: string)
    requires k < |fields| - 1 && whole == FieldText(fields[k]) + ("," + next)
    requires ParseField(whole) == Some((fields[k], Skip("," + next)))
             && ParseFields(next) == Some((fields[k + 1..], rest))
    ensures ParseFields(whole) == Some((fields[k..], rest))
  {
    Headed(',', next);
    MoreFields(whole, fields[k], next, fields[k + 1..], rest);
    assert fields[k..] == [fields[k]] + fields[k + 1..];
  }

  lemma {:induction false} FieldsAreRead(j: Json, k: nat, rest: string)
    requires j.JObject? && k < |j.fields|
    ensures ParseFields(Join(FieldTexts(j.fields)[k..]) + ("}" + rest)) == Some((j.fields[k..], rest))
    decreases j, |j.fields| - k
  {
    if k == |j.fields| - 1 {
      FieldIsRead(j.fields[k], "}" + rest);
      LastFieldIsRead(j.fields, rest);
    } else {
      var next := Join(FieldTexts(j.fields)[k + 1..]) + ("}" + rest);
      var whole := Join(FieldTexts(j.fields)[k..]) + ("}" + rest);
      JoinedFrom(FieldTexts(j.fields), k, "}" + rest);
      FieldIsRead(j.fields[k], "," + next);
      FieldsAreRead(j, k + 1, rest);
      FieldsGoOn(whole, j.fields, k, next, rest);
    }
  }

  /** A whole document. */
  function Parse(s: string): Option<Json> {
    var r := ParseValue(s);
    if r.Some? && r.value.1 == [] then Some(r.value.0) else None
  }

  lemma RoundTrip(j: Json)
    ensures Parse(Render(j)) == Some(j)
  {
    ValueIsRead(j, []);
    assert Render(j) + [] == Render(j);
  }

  lemma {:induction false} SkipSpaces(w: string, rest: string)
    requires forall i :: 0 <= i < |w| ==> IsSpace(w[i])
    ensures Skip(w + rest) == Skip(rest)
  {
    if w == [] {
      assert w + rest == rest;
    } else {
      assert (w + rest)[1..] == w[1..] + rest;
      SkipSpaces(w[1..], rest);
    }
  }

  /** White space around a document does not matter. */
  lemma SpaceAround(j: Json, before: string, after: string)
    requires forall i :: 0 <= i < |before| ==> IsSpace(before[i])
    requires forall i :: 0 <= i < |after| ==> IsSpace(after[i])
    ensures Parse(before + (Render(j) + after)) == Some(j)
  {
    SkipSpaces(before, Render(j) + after);
    ValueIsRead(j, after);
    SkipSpaces(after, []);
    assert after + [] == after;
  }

  /** Appending one text to joined texts. */
  lemma {:induction false} JoinAppend(texts: seq<string>, t: string)
    ensures Join(texts + [t]) == if texts == [] then t else Join(texts) + "," + t
  {
    if |texts| > 1 {
      assert (texts + [t])[1..] == texts[1..] + [t];
      JoinAppend(texts[1..], t);
      assert Join(texts + [t]) == texts[0] + "," + (Join(texts[1..]) + "," + t);
    } else if |texts| == 1 {
      assert (texts + [t])[1..] == [t];
    }
  }
}
