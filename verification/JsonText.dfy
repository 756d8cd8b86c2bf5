// The JSON text of a payload: json.dumps(value, ensure_ascii=False), with the
// string escapes of section 7 of RFC 8259, and a reader that inverts it. An
// object JSON cannot hold is the string that default=str makes of it.
module JsonText {
  import opened Foundation

  datatype Json =
    | Null
    | Bool(b: bool)
    | Int(n: int)
    | Float(digits: FloatText)
    | Str(text: string)
    | Arr(items: seq<Json>)
    | Obj(fields: seq<Field>)

  datatype Field = Field(name: string, value: Json)

  predicate IsDigit(c: char) { '0' <= c <= '9' }

  predicate IsNumberChar(c: char) { IsDigit(c) || c == '-' || c == '+' || c == '.' || c == 'e' || c == 'E' }

  predicate StartsNumber(s: string) {
    |s| > 0 && (IsDigit(s[0]) || (s[0] == '-' && |s| > 1 && IsDigit(s[1])))
  }

  // The mark of a fraction or an exponent, which every float's text has.
  predicate MarksFloat(s: string) { '.' in s || 'e' in s || 'E' in s }

  predicate IsFloatText(s: string) {
    StartsNumber(s) && MarksFloat(s) && forall i :: 0 <= i < |s| ==> IsNumberChar(s[i])
  }

  // A finite float as repr writes it, in place of its binary value.
  type FloatText = s: string | IsFloatText(s) witness ['0', '.', '0']

  // The value a reader of the object finds under the name: its last one.
  function Member(v: Json, name: string): Option<Json> {
    if v.Obj? then Lookup(v.fields, name) else None
  }

  function Lookup(fields: seq<Field>, name: string): Option<Json> {
    var n := |fields| - 1;
    if n < 0 then None
    else if fields[n].name == name then Some(fields[n].value)
    else Lookup(fields[..n], name)
  }

  const HEX := "0123456789abcdef"

  function EscapeChar(c: char): string {
    if c == '"' then "\\\""
    else if c == '\\' then "\\\\"
    else if c == '\n' then "\\n"
    else if c == '\r' then "\\r"
    else if c == '\t' then "\\t"
    else if c == '\U{0008}' then "\\b"
    else if c == '\U{000C}' then "\\f"
    else if c < ' ' then "\\u00" + [HEX[c as int / 16], HEX[c as int % 16]]
    else [c]
  }

  function Escape(s: string): string {
    if |s| == 0 then "" else EscapeChar(s[0]) + Escape(s[1..])
  }

  function Digits(n: nat): string {
    if n < 10 then [HEX[n]] else Digits(n / 10) + [HEX[n % 10]]
  }

  function Print(v: Json): string {
    match v
    case Null => "null"
    case Bool(b) => if b then "true" else "false"
    case Int(n) => if n < 0 then "-" + Digits(-n) else Digits(n)
    case Float(digits) => digits
    case Str(text) => "\"" + Escape(text) + "\""
    case Arr(items) => "[" + PrintItems(items) + "]"
    case Obj(fields) => "{" + PrintFields(fields) + "}"
  }

  function PrintItems(items: seq<Json>): string {
    if items == [] then ""
    else if |items| == 1 then Print(items[0])
    else Print(items[0]) + ", " + PrintItems(items[1..])
  }

  function PrintField(f: Field): string {
    "\"" + Escape(f.name) + "\": " + Print(f.value)
  }

  function PrintFields(fields: seq<Field>): string {
    if fields == [] then ""
    else if |fields| == 1 then PrintField(fields[0])
    else PrintField(fields[0]) + ", " + PrintFields(fields[1..])
  }

  // The literals, the separators and the short escapes, spelled out.
  lemma PrintSpelled(v: Json, w: Json, f: Field, g: Field)
    ensures Print(Null) == "null" && Print(Bool(true)) == "true" && Print(Bool(false)) == "false"
    ensures Print(Arr([])) == "[]" && Print(Arr([v, w])) == "[" + (Print(v) + ", " + Print(w)) + "]"
    ensures Print(Obj([])) == "{}" && Print(Obj([f, g])) == "{" + (PrintField(f) + ", " + PrintField(g)) + "}"
    ensures PrintField(f) == "\"" + Escape(f.name) + "\": " + Print(f.value)
  {
    assert [v, w][1..] == [w] && PrintItems([w]) == Print(w);
    assert [f, g][1..] == [g] && PrintFields([g]) == PrintField(g);
    assert PrintItems([v, w]) == Print(v) + ", " + Print(w);
    assert PrintFields([f, g]) == PrintField(f) + ", " + PrintField(g);
    assert "[" + "" + "]" == "[]" && "{" + "" + "}" == "{}";
  }

  lemma EscapesSpelled(c: char)
    ensures EscapeChar('"') == ['\\', '"'] && EscapeChar('\\') == ['\\', '\\']
    ensures EscapeChar('\n') == ['\\', 'n'] && EscapeChar('\r') == ['\\', 'r'] && EscapeChar('\t') == ['\\', 't']
    ensures EscapeChar('\U{0008}') == ['\\', 'b'] && EscapeChar('\U{000C}') == ['\\', 'f']
    ensures c >= ' ' && c != '"' && c != '\\' ==> EscapeChar(c) == [c]
  {
  }

  // ----- Printed text stays on one line -----

  predicate OneLine(s: string) {
    forall i :: 0 <= i < |s| ==> s[i] != '\n' && s[i] != '\r'
  }

  lemma OneLineJoin(a: string, b: string)
    requires OneLine(a) && OneLine(b)
    ensures OneLine(a + b)
  {
  }

  lemma EscapeCharIsOneLine(c: char)
    ensures OneLine(EscapeChar(c))
  {
  }

  lemma {:induction false} EscapeIsOneLine(s: string)
    ensures OneLine(Escape(s))
  {
    if s == "" {
    } else {
      EscapeCharIsOneLine(s[0]);
      EscapeIsOneLine(s[1..]);
      OneLineJoin(EscapeChar(s[0]), Escape(s[1..]));
    }
  }

  lemma {:induction false} DigitsAreOneLine(n: nat)
    ensures OneLine(Digits(n))
  {
    if n >= 10 {
      DigitsAreOneLine(n / 10);
    }
  }

  lemma {:induction false} PrintIsOneLine(v: Json)
    ensures OneLine(Print(v))
  {
    match v {
      case Null =>
      case Bool(_) =>
      case Int(n) => DigitsAreOneLine(if n < 0 then -n else n);
      case Float(_) =>
      case Str(text) =>
        EscapeIsOneLine(text);
        OneLineBetween("\"", Escape(text), "\"");
      case Arr(items) =>
        ItemsAreOneLine(items);
        OneLineBetween("[", PrintItems(items), "]");
      case Obj(fields) =>
        FieldsAreOneLine(fields);
        OneLineBetween("{", PrintFields(fields), "}");
    }
  }

  lemma OneLineBetween(open: string, body: string, close: string)
    requires OneLine(open) && OneLine(body) && OneLine(close)
    ensures OneLine(open + body + close)
  {
  }

  lemma {:induction false} ItemsAreOneLine(items: seq<Json>)
    ensures OneLine(PrintItems(items))
  {
    if items != [] {
      PrintIsOneLine(items[0]);
      ItemsAreOneLine(items[1..]);
    }
  }

  lemma {:induction false} FieldsAreOneLine(fields: seq<Field>)
    ensures OneLine(PrintFields(fields))
  {
    if fields != [] {
      EscapeIsOneLine(fields[0].name);
      PrintIsOneLine(fields[0].value);
      FieldsAreOneLine(fields[1..]);
    }
  }

  // ----- The reader -----

  datatype Read<+T> = Read(value: T, rest: string)

  function HexValue(c: char): Option<nat> {
    if '0' <= c <= '9' then Some(c as int - '0' as int)
    else if 'a' <= c <= 'f' then Some(c as int - 'a' as int + 10)
    else if 'A' <= c <= 'F' then Some(c as int - 'A' as int + 10)
    else None
  }

  // The value of four hexadecimal digits; surrogate halves are refused.
  function ReadHex4(s: string): (r: Option<Read<char>>)
    ensures r.Some? ==> |r.value.rest| < |s|
  {
    if |s| < 4 then None else
    match (HexValue(s[0]), HexValue(s[1]), HexValue(s[2]), HexValue(s[3]))
    case (Some(a), Some(b), Some(c), Some(d)) =>
      var n := ((a * 16 + b) * 16 + c) * 16 + d;
      if n < 0xD800 || 0xE000 <= n < 0x10000 then Some(Read(n as char, s[4..])) else None
    case _ => None
  }

  function ReadEscape(s: string): (r: Option<Read<char>>)
    ensures r.Some? ==> |r.value.rest| < |s|
  {
    if |s| == 0 then None
    else if s[0] == '"' || s[0] == '\\' || s[0] == '/' then Some(Read(s[0], s[1..]))
    else if s[0] == 'n' then Some(Read('\n', s[1..]))
    else if s[0] == 'r' then Some(Read('\r', s[1..]))
    else if s[0] == 't' then Some(Read('\t', s[1..]))
    else if s[0] == 'b' then Some(Read('\U{0008}', s[1..]))
    else if s[0] == 'f' then Some(Read('\U{000C}', s[1..]))
    else if s[0] == 'u' then ReadHex4(s[1..])
    else None
  }

  // The characters up to and including the closing quote.
  function ReadString(s: string): (r: Option<Read<string>>)
    ensures r.Some? ==> |r.value.rest| < |s|
    decreases |s|
  {
    if |s| == 0 || s[0] < ' ' then None
    else if s[0] == '"' then Some(Read("", s[1..]))
    else if s[0] == '\\' then
      match ReadEscape(s[1..])
      case None => None
      case Some(e) =>
        match ReadString(e.rest)
        case None => None
        case Some(tail) => Some(Read([e.value] + tail.value, tail.rest))
    else
      match ReadString(s[1..])
      case None => None
      case Some(tail) => Some(Read([s[0]] + tail.value, tail.rest))
  }

  function ReadDigits(s: string, sofar: nat): (r: Read<nat>)
    ensures |r.rest| <= |s|
    ensures |s| > 0 && IsDigit(s[0]) ==> |r.rest| < |s|
    decreases |s|
  {
    if |s| == 0 || !IsDigit(s[0]) then Read(sofar, s)
    else ReadDigits(s[1..], sofar * 10 + (s[0] as int - '0' as int))
  }

  predicate IsSpace(c: char) { c == ' ' || c == '\t' || c == '\n' || c == '\r' }

  function SkipSpace(s: string): (r: string)
    ensures |r| <= |s|
    decreases |s|
  {
    if |s| > 0 && IsSpace(s[0]) then SkipSpace(s[1..]) else s
  }

  function ReadWord(s: string, word: string, v: Json): (r: Option<Read<Json>>)
    requires |word| > 0
    ensures r.Some? ==> |r.value.rest| < |s|
  {
    if |word| <= |s| && s[..|word|] == word then Some(Read(v, s[|word|..])) else None
  }

  // The length of the run of number characters s starts with.
  function NumberRun(s: string): (n: nat)
    ensures n <= |s|
    ensures forall i :: 0 <= i < n ==> IsNumberChar(s[i])
    ensures n < |s| ==> !IsNumberChar(s[n])
  {
    if |s| == 0 || !IsNumberChar(s[0]) then 0
    else
      assert forall i :: 0 < i < |s| ==> s[i] == s[1..][i - 1];
      1 + NumberRun(s[1..])
  }

  function ReadInt(s: string): (r: Read<Json>)
    requires StartsNumber(s)
    ensures |r.rest| < |s|
  {
    if s[0] == '-' then
      var d := ReadDigits(s[1..], 0);
      Read(Int(0 - d.value), d.rest)
    else
      var d := ReadDigits(s, 0);
      Read(Int(d.value), d.rest)
  }

  function ReadNumber(s: string): (r: Option<Read<Json>>)
    requires |s| > 0
    ensures r.Some? ==> |r.value.rest| < |s|
  {
    if !StartsNumber(s) then None
    else
      var n := NumberRun(s);
      if n > 0 && IsFloatText(s[..n]) then Some(Read(Float(s[..n]), s[n..])) else Some(ReadInt(s))
  }

  function ReadArray(s: string): (r: Option<Read<Json>>)
    ensures r.Some? ==> |r.value.rest| < |s|
    decreases |s|, 2
  {
    var body := SkipSpace(s);
    if |body| > 0 && body[0] == ']' then Some(Read(Arr([]), body[1..])) else
    match ReadItems(body)
    case None => None
    case Some(t) => Some(Read(Arr(t.value), t.rest))
  }

  function ReadObject(s: string): (r: Option<Read<Json>>)
    ensures r.Some? ==> |r.value.rest| < |s|
    decreases |s|, 3
  {
    var body := SkipSpace(s);
    if |body| > 0 && body[0] == '}' then Some(Read(Obj([]), body[1..])) else
    match ReadFields(body)
    case None => None
    case Some(t) => Some(Read(Obj(t.value), t.rest))
  }

  function ReadValue(s: string): (r: Option<Read<Json>>)
    ensures r.Some? ==> |r.value.rest| < |s|
    decreases |s|, 0
  {
    if |s| == 0 then None
    else if s[0] == 'n' then ReadWord(s, "null", Null)
    else if s[0] == 't' then ReadWord(s, "true", Bool(true))
    else if s[0] == 'f' then ReadWord(s, "false", Bool(false))
    else if s[0] == '"' then
      match ReadString(s[1..])
      case None => None
      case Some(t) => Some(Read(Str(t.value), t.rest))
    else if s[0] == '[' then ReadArray(s[1..])
    else if s[0] == '{' then ReadObject(s[1..])
    else ReadNumber(s)
  }

  function ReadItems(s: string): (r: Option<Read<seq<Json>>>)
    ensures r.Some? ==> |r.value.rest| < |s|
    decreases |s|, 1
  {
    match ReadValue(s)
    case None => None
    case Some(head) =>
      var after := SkipSpace(head.rest);
      if |after| > 0 && after[0] == ']' then Some(Read([head.value], after[1..]))
      else if |after| > 0 && after[0] == ',' then
        match ReadItems(SkipSpace(after[1..]))
        case None => None
        case Some(tail) => Some(Read([head.value] + tail.value, tail.rest))
      else None
  }

  function ReadField(s: string): (r: Option<Read<Field>>)
    ensures r.Some? ==> |r.value.rest| < |s|
    decreases |s|, 1
  {
    if |s| == 0 || s[0] != '"' then None else
    match ReadString(s[1..])
    case None => None
    case Some(name) =>
      var after := SkipSpace(name.rest);
      if |after| == 0 || after[0] != ':' then None else
      match ReadValue(SkipSpace(after[1..]))
      case None => None
      case Some(v) => Some(Read(Field(name.value, v.value), v.rest))
  }

  function ReadFields(s: string): (r: Option<Read<seq<Field>>>)
    ensures r.Some? ==> |r.value.rest| < |s|
    decreases |s|, 2
  {
    match ReadField(s)
    case None => None
    case Some(head) =>
      var after := SkipSpace(head.rest);
      if |after| > 0 && after[0] == '}' then Some(Read([head.value], after[1..]))
      else if |after| > 0 && after[0] == ',' then
        match ReadFields(SkipSpace(after[1..]))
        case None => None
        case Some(tail) => Some(Read([head.value] + tail.value, tail.rest))
      else None
  }

  // A whole document: one value with nothing but white space around it.
  function Parse(s: string): Option<Json> {
    match ReadValue(SkipSpace(s))
    case Some(Read(v, rest)) => if |SkipSpace(rest)| == 0 then Some(v) else None
    case None => None
  }

  // ----- Reading inverts printing -----

  lemma HexReads(n: nat, tail: string)
    requires n < 256
    ensures ReadHex4(['0', '0', HEX[n / 16], HEX[n % 16]] + tail) == Some(Read(n as char, tail))
  {
    var s := ['0', '0', HEX[n / 16], HEX[n % 16]] + tail;
    assert s[4..] == tail;
    HexDigitReads(n / 16);
    HexDigitReads(n % 16);
  }

  lemma HexDigitReads(d: nat)
    requires d < 16
    ensures HexValue(HEX[d]) == Some(d)
  {
  }

  function HexPart(n: nat): string
    requires n < 256
  {
    ['0', '0', HEX[n / 16], HEX[n % 16]]
  }

  lemma LongEscapeText(c: char)
    requires |EscapeChar(c)| == 6
    ensures c as int < 256 && EscapeChar(c) == ['\\'] + (['u'] + HexPart(c as int))
  {
  }

  lemma AfterBackslash(hex: string, tail: string)
    ensures ((['\\'] + (['u'] + hex)) + tail)[1..] == ['u'] + (hex + tail)
  {
  }

  lemma ReadUnicode(s: string)
    ensures ReadEscape(['u'] + s) == ReadHex4(s)
  {
    assert (['u'] + s)[1..] == s;
  }

  lemma LongEscapeReads(c: char, tail: string)
    requires |EscapeChar(c)| == 6
    ensures EscapeChar(c)[0] == '\\' && ReadEscape((EscapeChar(c) + tail)[1..]) == Some(Read(c, tail))
  {
    LongEscapeText(c);
    var hex := HexPart(c as int);
    AfterBackslash(hex, tail);
    ReadUnicode(hex + tail);
    HexReads(c as int, tail);
  }

  lemma EscapeCharReads(c: char, tail: string)
    ensures (EscapeChar(c) == [c] && c != '\\' && c != '"' && c >= ' ')
         || (EscapeChar(c)[0] == '\\' && ReadEscape((EscapeChar(c) + tail)[1..]) == Some(Read(c, tail)))
  {
    var e := EscapeChar(c) + tail;
    if |EscapeChar(c)| == 2 {
      assert e[1] == EscapeChar(c)[1] && e[1..][1..] == tail;
    } else if |EscapeChar(c)| == 6 {
      LongEscapeReads(c, tail);
    }
  }

  lemma ReadStringStep(c: char, text: string, tail: string, rest: string)
    requires ReadString(tail) == Some(Read(text, rest))
    ensures ReadString(EscapeChar(c) + tail) == Some(Read([c] + text, rest))
  {
    var whole := EscapeChar(c) + tail;
    EscapeCharReads(c, tail);
    if EscapeChar(c) == [c] && c != '\\' && c != '"' && c >= ' ' {
      assert whole[1..] == tail;
    }
  }

  lemma EscapeText(c: char, escaped: string, rest: string)
    ensures (EscapeChar(c) + escaped) + rest == EscapeChar(c) + (escaped + rest)
  {
  }

  lemma {:induction false} EscapeRoundTrip(s: string, rest: string)
    ensures ReadString(Escape(s) + (['"'] + rest)) == Some(Read(s, rest))
  {
    if |s| == 0 {
      EscapeEnds(rest);
    } else {
      EscapeRoundTrip(s[1..], rest);
      ReadStringStep(s[0], s[1..], Escape(s[1..]) + (['"'] + rest), rest);
      EscapeText(s[0], Escape(s[1..]), ['"'] + rest);
      assert s == [s[0]] + s[1..];
    }
  }

  lemma EscapeEnds(rest: string)
    ensures ReadString([] + (['"'] + rest)) == Some(Read([], rest))
  {
    assert [] + (['"'] + rest) == ['"'] + rest;
    assert (['"'] + rest)[1..] == rest;
  }

  predicate Ends(rest: string) { |rest| == 0 || !IsNumberChar(rest[0]) }

  predicate AllDigits(s: string) { forall i :: 0 <= i < |s| ==> IsDigit(s[i]) }

  lemma {:induction false} DigitsShape(n: nat)
    ensures |Digits(n)| > 0 && AllDigits(Digits(n))
  {
    if n >= 10 { DigitsShape(n / 10); }
  }

  // The number whose digits are those of a followed by those of n.
  function Join(a: nat, n: nat): nat {
    if n < 10 then a * 10 + n else Join(a, n / 10) * 10 + n % 10
  }

  lemma {:induction false} JoinZero(n: nat)
    ensures Join(0, n) == n
  {
    if n >= 10 { JoinZero(n / 10); }
  }

  lemma ReadDigitsStep(d: nat, rest: string, a: nat)
    requires d < 10
    ensures ReadDigits([HEX[d]] + rest, a) == ReadDigits(rest, a * 10 + d)
  {
    var s := [HEX[d]] + rest;
    assert s[1..] == rest;
    assert IsDigit(s[0]);
  }

  lemma {:induction false} DigitsRead(n: nat, a: nat, rest: string)
    ensures ReadDigits(Digits(n) + rest, a) == ReadDigits(rest, Join(a, n))
    decreases n
  {
    if n < 10 {
      ReadDigitsStep(n, rest, a);
    } else {
      var d := [HEX[n % 10]];
      assert Digits(n) + rest == Digits(n / 10) + (d + rest);
      DigitsRead(n / 10, a, d + rest);
      ReadDigitsStep(n % 10, rest, Join(a, n / 10));
    }
  }

  lemma NumberRoundTrip(n: nat, rest: string)
    requires Ends(rest)
    ensures ReadDigits(Digits(n) + rest, 0) == Read(n, rest)
  {
    DigitsRead(n, 0, rest);
    JoinZero(n);
  }

  // What a printed value starts with, so that readers can tell the cases apart.
  lemma {:induction false} PrintShape(v: Json)
    ensures |Print(v)| > 0 && !IsSpace(Print(v)[0]) && Print(v)[0] != ']'
  {
    match v {
      case Int(n) => if n >= 0 { DigitsShape(n); assert IsDigit(Digits(n)[0]); }
      case Float(digits) => assert IsNumberChar(digits[0]);
      case _ =>
    }
  }

  lemma SkipNothing(s: string)
    requires |s| > 0 && !IsSpace(s[0])
    ensures SkipSpace(s) == s
  {
  }

  // One step of each reader, for text whose parts are already known to read.
  lemma {:induction false} NumberRunStops(a: string, rest: string)
    requires Ends(rest) && forall i :: 0 <= i < |a| ==> IsNumberChar(a[i])
    ensures NumberRun(a + rest) == |a|
  {
    assert forall i :: 0 <= i < |a| ==> (a + rest)[i] == a[i];
    assert |rest| > 0 ==> (a + rest)[|a|] == rest[0];
  }

  lemma DigitsMarkNoFloat(digits: string)
    requires AllDigits(digits)
    ensures !MarksFloat(digits) && !MarksFloat(['-'] + digits)
  {
  }

  // A number whose text marks no float is read as an integer.
  lemma ReadsAsInt(text: string, rest: string)
    requires StartsNumber(text) && Ends(rest) && !MarksFloat(text)
    requires forall i :: 0 <= i < |text| ==> IsNumberChar(text[i])
    ensures StartsNumber(text + rest) && ReadValue(text + rest) == Some(ReadInt(text + rest))
  {
    var s := text + rest;
    assert s[0] == text[0] && (|text| > 1 ==> s[1] == text[1]);
    NumberRunStops(text, rest);
    assert s[..|text|] == text;
  }

  lemma ReadIntStep(digits: string, rest: string, n: nat)
    requires |digits| > 0 && AllDigits(digits) && Ends(rest)
    requires ReadDigits(digits + rest, 0) == Read(n, rest)
    ensures ReadValue(digits + rest) == Some(Read(Int(n), rest))
  {
    DigitsMarkNoFloat(digits);
    ReadsAsInt(digits, rest);
    assert (digits + rest)[0] == digits[0];
  }

  lemma ReadMinus(s: string)
    requires |s| > 0 && IsDigit(s[0])
    ensures ReadInt(['-'] + s) == Read(Int(0 - ReadDigits(s, 0).value), ReadDigits(s, 0).rest)
  {
    assert (['-'] + s)[1..] == s;
  }

  lemma MinusShape(digits: string, rest: string, text: string)
    requires |digits| > 0 && AllDigits(digits) && text == ['-'] + digits
    ensures StartsNumber(text) && !MarksFloat(text) && forall i :: 0 <= i < |text| ==> IsNumberChar(text[i])
    ensures text + rest == ['-'] + (digits + rest) && IsDigit((digits + rest)[0])
  {
  }

  lemma ReadNegativeStep(digits: string, rest: string, n: nat, text: string)
    requires |digits| > 0 && AllDigits(digits) && Ends(rest) && text == ['-'] + digits
    requires ReadDigits(digits + rest, 0) == Read(n, rest)
    ensures ReadValue(text + rest) == Some(Read(Int(0 - n), rest))
  {
    MinusShape(digits, rest, text);
    ReadsAsInt(text, rest);
    ReadMinus(digits + rest);
  }

  lemma FloatRoundTrip(digits: FloatText, rest: string)
    requires Ends(rest)
    ensures ReadValue(digits + rest) == Some(Read(Float(digits), rest))
  {
    var s := digits + rest;
    NumberRunStops(digits, rest);
    assert s[..|digits|] == digits && s[|digits|..] == rest;
    assert s[0] == digits[0] && (|digits| > 1 ==> s[1] == digits[1]);
  }

  lemma ReadArrStep(body: string, items: seq<Json>, rest: string)
    requires |body| > 0 && !IsSpace(body[0]) && body[0] != ']'
    requires ReadItems(body) == Some(Read(items, rest))
    ensures ReadArray(body) == Some(Read(Arr(items), rest))
  {
    SkipNothing(body);
  }

  lemma ReadObjStep(body: string, fields: seq<Field>, rest: string)
    requires |body| > 0 && !IsSpace(body[0]) && body[0] != '}'
    requires ReadFields(body) == Some(Read(fields, rest))
    ensures ReadObject(body) == Some(Read(Obj(fields), rest))
  {
    SkipNothing(body);
  }

  lemma ReadBracket(body: string)
    ensures ReadValue(['['] + body) == ReadArray(body)
    ensures ReadValue(['{'] + body) == ReadObject(body)
  {
    assert (['['] + body)[1..] == body;
    assert (['{'] + body)[1..] == body;
  }

  lemma SkipAfterComma(tail: string)
    requires |tail| > 0 && !IsSpace(tail[0])
    ensures SkipSpace(([','] + ([' '] + tail))[1..]) == tail
    ensures SkipSpace(([':'] + ([' '] + tail))[1..]) == tail
  {
    assert ([','] + ([' '] + tail))[1..] == [' '] + tail;
    assert ([':'] + ([' '] + tail))[1..] == [' '] + tail;
    assert ([' '] + tail)[1..] == tail;
    SkipNothing(tail);
  }

  lemma ReadItemsLast(s: string, v: Json, rest: string)
    requires ReadValue(s) == Some(Read(v, [']'] + rest))
    ensures ReadItems(s) == Some(Read([v], rest))
  {
    SkipNothing([']'] + rest);
    assert ([']'] + rest)[1..] == rest;
  }

  lemma ReadItemsMore(s: string, v: Json, tail: string, more: seq<Json>, rest: string)
    requires |tail| > 0 && !IsSpace(tail[0])
    requires ReadValue(s) == Some(Read(v, [','] + ([' '] + tail)))
    requires ReadItems(tail) == Some(Read(more, rest))
    ensures ReadItems(s) == Some(Read([v] + more, rest))
  {
    SkipNothing([','] + ([' '] + tail));
    SkipAfterComma(tail);
  }

  lemma ReadFieldStep(s: string, name: string, v: Json, text: string, rest: string)
    requires |text| > 0 && !IsSpace(text[0])
    requires ReadString(s) == Some(Read(name, [':'] + ([' '] + text)))
    requires ReadValue(text) == Some(Read(v, rest))
    ensures ReadField(['"'] + s) == Some(Read(Field(name, v), rest))
  {
    assert (['"'] + s)[1..] == s;
    SkipNothing([':'] + ([' '] + text));
    SkipAfterComma(text);
  }

  lemma ReadFieldsLast(s: string, f: Field, rest: string)
    requires ReadField(s) == Some(Read(f, ['}'] + rest))
    ensures ReadFields(s) == Some(Read([f], rest))
  {
    SkipNothing(['}'] + rest);
    assert (['}'] + rest)[1..] == rest;
  }

  lemma ReadFieldsMore(s: string, f: Field, tail: string, more: seq<Field>, rest: string)
    requires |tail| > 0 && !IsSpace(tail[0])
    requires ReadField(s) == Some(Read(f, [','] + ([' '] + tail)))
    requires ReadFields(tail) == Some(Read(more, rest))
    ensures ReadFields(s) == Some(Read([f] + more, rest))
  {
    SkipNothing([','] + ([' '] + tail));
    SkipAfterComma(tail);
  }

  lemma LiteralRoundTrip(v: Json, rest: string)
    requires v.Null? || v.Bool?
    ensures ReadValue(Print(v) + rest) == Some(Read(v, rest))
  {
    var s := Print(v) + rest;
    assert s[|Print(v)|..] == rest;
    assert s[..|Print(v)|] == Print(v);
  }

  lemma EmptyRoundTrip(rest: string)
    ensures ReadArray([']'] + rest) == Some(Read(Arr([]), rest))
    ensures ReadObject(['}'] + rest) == Some(Read(Obj([]), rest))
  {
    SkipNothing([']'] + rest);
    SkipNothing(['}'] + rest);
    assert ([']'] + rest)[1..] == rest && (['}'] + rest)[1..] == rest;
  }

  lemma StrText(text: string, rest: string)
    ensures ("\"" + Escape(text) + "\"") + rest == ['"'] + (Escape(text) + (['"'] + rest))
  {
  }

  lemma ReadStrStep(s: string, text: string, rest: string)
    requires ReadString(s) == Some(Read(text, rest))
    ensures ReadValue(['"'] + s) == Some(Read(Str(text), rest))
  {
    assert (['"'] + s)[1..] == s;
  }

  lemma StrRoundTrip(text: string, rest: string)
    ensures ReadValue(Print(Str(text)) + rest) == Some(Read(Str(text), rest))
  {
    EscapeRoundTrip(text, rest);
    ReadStrStep(Escape(text) + (['"'] + rest), text, rest);
    StrText(text, rest);
  }

  lemma IntRoundTrip(n: int, rest: string)
    requires Ends(rest)
    ensures ReadValue(Print(Int(n)) + rest) == Some(Read(Int(n), rest))
  {
    var m := if n < 0 then -n else n;
    DigitsShape(m);
    NumberRoundTrip(m, rest);
    if n < 0 {
      ReadNegativeStep(Digits(m), rest, m, Print(Int(n)));
    } else {
      ReadIntStep(Digits(m), rest, m);
    }
  }

  // Regrouping of concatenations, kept apart from the readers.
  lemma FieldText(name: string, value: string, rest: string)
    ensures "\"" + name + "\": " + value + rest
         == ['"'] + (name + (['"'] + ([':'] + ([' '] + (value + rest)))))
  {
  }

  lemma CommaText(head: string, more: string, close: char, rest: string)
    ensures head + ", " + more + ([close] + rest) == head + ([','] + ([' '] + (more + ([close] + rest))))
  {
  }

  lemma BracketText(open: char, body: string, close: char, rest: string)
    ensures [open] + body + [close] + rest == [open] + (body + ([close] + rest))
    ensures body == "" ==> [open] + body + [close] + rest == [open] + ([close] + rest)
  {
  }

  lemma {:induction false} ValueRoundTrip(v: Json, rest: string)
    requires Ends(rest)
    ensures ReadValue(Print(v) + rest) == Some(Read(v, rest))
    decreases v, 0
  {
    match v {
      case Null => LiteralRoundTrip(v, rest);
      case Bool(_) => LiteralRoundTrip(v, rest);
      case Int(n) => IntRoundTrip(n, rest);
      case Float(digits) => FloatRoundTrip(digits, rest);
      case Str(text) => StrRoundTrip(text, rest);
      case Arr(items) =>
        if items == [] {
          EmptyRoundTrip(rest);
          ReadBracket([']'] + rest);
          BracketText('[', "", ']', rest);
        } else {
          var body := PrintItems(items) + ([']'] + rest);
          ItemsRoundTrip(items, rest);
          ItemsShape(items);
          ReadArrStep(body, items, rest);
          ReadBracket(body);
          BracketText('[', PrintItems(items), ']', rest);
        }
      case Obj(fields) =>
        if fields == [] {
          EmptyRoundTrip(rest);
          ReadBracket(['}'] + rest);
          BracketText('{', "", '}', rest);
        } else {
          var body := PrintFields(fields) + (['}'] + rest);
          FieldsRoundTrip(fields, rest);
          FieldsShape(fields);
          ReadObjStep(body, fields, rest);
          ReadBracket(body);
          BracketText('{', PrintFields(fields), '}', rest);
        }
    }
  }

  lemma ItemsShape(items: seq<Json>)
    requires items != []
    ensures |PrintItems(items)| > 0 && !IsSpace(PrintItems(items)[0]) && PrintItems(items)[0] != ']'
  {
    PrintShape(items[0]);
  }

  lemma FieldsShape(fields: seq<Field>)
    requires fields != []
    ensures |PrintFields(fields)| > 0 && PrintFields(fields)[0] == '"'
  {
    assert PrintField(fields[0])[0] == '"';
  }

  lemma {:induction false} ItemsRoundTrip(items: seq<Json>, rest: string)
    requires items != []
    ensures ReadItems(PrintItems(items) + ([']'] + rest)) == Some(Read(items, rest))
    decreases items, 1
  {
    var s := PrintItems(items) + ([']'] + rest);
    if |items| == 1 {
      ValueRoundTrip(items[0], [']'] + rest);
      ReadItemsLast(s, items[0], rest);
      assert items == [items[0]];
    } else {
      var tail := PrintItems(items[1..]) + ([']'] + rest);
      CommaText(Print(items[0]), PrintItems(items[1..]), ']', rest);
      ValueRoundTrip(items[0], [','] + ([' '] + tail));
      ItemsRoundTrip(items[1..], rest);
      ItemsShape(items[1..]);
      ReadItemsMore(s, items[0], tail, items[1..], rest);
      assert items == [items[0]] + items[1..];
    }
  }

  lemma {:induction false} FieldRoundTrip(f: Field, rest: string)
    requires Ends(rest)
    ensures ReadField(PrintField(f) + rest) == Some(Read(f, rest))
    decreases f, 1
  {
    var text := Print(f.value) + rest;
    var after := [':'] + ([' '] + text);
    var s := Escape(f.name) + (['"'] + after);
    EscapeRoundTrip(f.name, after);
    PrintShape(f.value);
    ValueRoundTrip(f.value, rest);
    ReadFieldStep(s, f.name, f.value, text, rest);
    FieldText(Escape(f.name), Print(f.value), rest);
  }

  lemma {:induction false} FieldsRoundTrip(fields: seq<Field>, rest: string)
    requires fields != []
    ensures ReadFields(PrintFields(fields) + (['}'] + rest)) == Some(Read(fields, rest))
    decreases fields, 2
  {
    var s := PrintFields(fields) + (['}'] + rest);
    if |fields| == 1 {
      FieldRoundTrip(fields[0], ['}'] + rest);
      ReadFieldsLast(s, fields[0], rest);
      assert fields == [fields[0]];
    } else {
      var tail := PrintFields(fields[1..]) + (['}'] + rest);
      CommaText(PrintField(fields[0]), PrintFields(fields[1..]), '}', rest);
      FieldRoundTrip(fields[0], [','] + ([' '] + tail));
      FieldsRoundTrip(fields[1..], rest);
      FieldsShape(fields[1..]);
      ReadFieldsMore(s, fields[0], tail, fields[1..], rest);
      assert fields == [fields[0]] + fields[1..];
    }
  }

  // json.loads(json.dumps(v)) == v, so distinct payloads have distinct texts.
  lemma ParseInvertsPrint(v: Json)
    ensures Parse(Print(v)) == Some(v)
  {
    PrintShape(v);
    SkipNothing(Print(v));
    ValueRoundTrip(v, "");
    assert Print(v) + "" == Print(v);
  }
}
