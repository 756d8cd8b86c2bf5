// The .env parser of config/env_loader.py, on the characters Python's
// str.splitlines and str.strip treat as line ends and white space.
module EnvLoader {
  import opened Foundation

  datatype EnvError =
    | NullByte | MissingEquals | EmptyKey | InvalidKey | DuplicateKey
    | UnterminatedDoubleQuote | UnterminatedSingleQuote | ContentAfterQuote | UnbalancedQuote

  const NUL := '\U{0000}'

  predicate IsLineEnd(c: char) {
    || c == '\n' || c == '\r' || c == '\U{000B}' || c == '\U{000C}'
    || '\U{001C}' <= c <= '\U{001E}' || c == '\U{0085}' || c == '\U{2028}' || c == '\U{2029}'
  }

  predicate IsSpace(c: char) {
    || c == ' ' || '\t' <= c <= '\r' || '\U{001C}' <= c <= '\U{001F}' || c == '\U{0085}' || c == '\U{00A0}'
    || c == '\U{1680}' || '\U{2000}' <= c <= '\U{200A}' || c == '\U{2028}' || c == '\U{2029}' || c == '\U{202F}'
    || c == '\U{205F}' || c == '\U{3000}'
  }

  function LStrip(s: string): string {
    if |s| > 0 && IsSpace(s[0]) then LStrip(s[1..]) else s
  }

  function RStrip(s: string): string {
    if |s| > 0 && IsSpace(s[|s| - 1]) then RStrip(s[..|s| - 1]) else s
  }

  function Strip(s: string): string { RStrip(LStrip(s)) }

  // The first index from which holds c, or |s|.
  function IndexOf(s: string, c: char): (i: nat)
    ensures i <= |s|
    ensures i < |s| ==> s[i] == c
    ensures forall j :: 0 <= j < i ==> s[j] != c
  {
    if |s| == 0 || s[0] == c then 0 else
      assert forall j :: 0 < j < 1 + IndexOf(s[1..], c) ==> s[j] == s[1..][j - 1];
      1 + IndexOf(s[1..], c)
  }

  // ----- Lines -----

  function LineLength(s: string): (i: nat)
    ensures i <= |s|
    ensures i < |s| ==> IsLineEnd(s[i])
  {
    if |s| == 0 || IsLineEnd(s[0]) then 0 else 1 + LineLength(s[1..])
  }

  function SplitLines(s: string): seq<string>
    decreases |s|
  {
    if |s| == 0 then []
    else
      var i := LineLength(s);
      if i == |s| then [s]
      else if s[i] == '\r' && i + 1 < |s| && s[i + 1] == '\n' then [s[..i]] + SplitLines(s[i + 2..])
      else [s[..i]] + SplitLines(s[i + 1..])
  }

  // ----- Values -----

  // str.replace for a two-character pattern: left to right, not overlapping.
  function Replace(s: string, a: char, b: char, r: char): string
    decreases |s|
  {
    if |s| < 2 then s
    else if s[0] == a && s[1] == b then [r] + Replace(s[2..], a, b, r)
    else [s[0]] + Replace(s[1..], a, b, r)
  }

  // The source's chain of five replacements.
  function Unescape(s: string): string {
    Replace(Replace(Replace(Replace(Replace(s, '\\', '"', '"'), '\\', 'n', '\n'), '\\', 'r', '\r'),
                    '\\', 't', '\t'), '\\', '\\', '\\')
  }

  // The scanner from index i on.
  function ClosingFrom(val: string, i: nat, escaped: bool): Option<nat>
    decreases |val| - i
  {
    if i >= |val| then None
    else if escaped then ClosingFrom(val, i + 1, false)
    else if val[i] == '\\' then ClosingFrom(val, i + 1, true)
    else if val[i] == '"' then Some(i)
    else ClosingFrom(val, i + 1, false)
  }

  function AfterQuote(rest: string, value: string): Result<string, EnvError> {
    var remainder := Strip(rest);
    if |remainder| > 0 && remainder[0] != '#' then Err(ContentAfterQuote) else Ok(value)
  }

  function SpaceHash(s: string): (i: nat)
    ensures i <= |s|
  {
    if |s| < 2 then |s| else if s[0] == ' ' && s[1] == '#' then 0 else 1 + SpaceHash(s[1..])
  }

  // An unquoted value ends before the first hash sign that follows a space.
  function PlainText(val: string): string {
    var i := SpaceHash(val);
    if i < |val| then RStrip(val[..i]) else val
  }

  predicate HasQuote(s: string) { '"' in s || '\'' in s }

  function ParsePlain(val: string): Result<string, EnvError> {
    if HasQuote(PlainText(val)) then Err(UnbalancedQuote) else Ok(PlainText(val))
  }

  function ParseValue(val: string): Result<string, EnvError> {
    if |val| == 0 then Ok("")
    else if val[0] == '"' then
      match ClosingFrom(val, 1, false)
      case None => Err(UnterminatedDoubleQuote)
      case Some(i) =>
        if 1 <= i < |val| then AfterQuote(val[i + 1..], Unescape(val[1..i])) else Err(UnterminatedDoubleQuote)
    else if val[0] == '\'' then
      var i := 1 + IndexOf(val[1..], '\'');
      if i == |val| then Err(UnterminatedSingleQuote) else AfterQuote(val[i + 1..], val[1..i])
    else ParsePlain(val)
  }

  // ----- Lines to assignments -----

  predicate IsKeyStart(c: char) { 'a' <= c <= 'z' || 'A' <= c <= 'Z' || c == '_' }

  predicate IsIdentifier(key: string) {
    |key| > 0 && IsKeyStart(key[0]) && forall i :: 0 <= i < |key| ==> IsKeyStart(key[i]) || '0' <= key[i] <= '9'
  }

  datatype Assignment = Blank | Assign(key: string, value: string)

  function ParseLine(raw: string, known: set<string>): Result<Assignment, EnvError> {
    var line := Strip(raw);
    if |line| == 0 || line[0] == '#' then Ok(Blank)
    else
      var i := IndexOf(line, '=');
      if i == |line| then Err(MissingEquals)
      else
        var key := Strip(line[..i]);
        if |key| == 0 then Err(EmptyKey)
        else if !IsIdentifier(key) then Err(InvalidKey)
        else if key in known then Err(DuplicateKey)
        else match ParseValue(Strip(line[i + 1..]))
          case Err(e) => Err(e)
          case Ok(v) => Ok(Assign(key, v))
  }

  function ParseLines(lines: seq<string>): Result<map<string, string>, EnvError> {
    if |lines| == 0 then Ok(map[])
    else match ParseLines(lines[..|lines| - 1])
      case Err(e) => Err(e)
      case Ok(parsed) =>
        match ParseLine(lines[|lines| - 1], parsed.Keys)
        case Err(e) => Err(e)
        case Ok(Blank) => Ok(parsed)
        case Ok(Assign(k, v)) => Ok(parsed[k := v])
  }

  function ParseContent(content: string): Result<map<string, string>, EnvError> {
    if NUL in content then Err(NullByte) else ParseLines(SplitLines(content))
  }

  // ----- Where the scanner closes -----

  // Length of the run of backslashes that ends just before i, within val[1..].
  function RunBefore(val: string, i: nat): nat
    requires 1 <= i <= |val|
  {
    if i > 1 && val[i - 1] == '\\' then 1 + RunBefore(val, i - 1) else 0
  }

  predicate Closes(val: string, i: nat) {
    1 <= i < |val| && val[i] == '"' && RunBefore(val, i) % 2 == 0
  }

  lemma {:induction false} ClosingFromIff(val: string, i: nat, escaped: bool)
    requires 1 <= i <= |val|
    requires escaped == (RunBefore(val, i) % 2 == 1)
    requires forall j :: 1 <= j < i ==> !Closes(val, j)
    ensures match ClosingFrom(val, i, escaped)
      case Some(k) => Closes(val, k) && forall j :: 1 <= j < k ==> !Closes(val, j)
      case None => forall j :: !Closes(val, j)
    decreases |val| - i
  {
    if i < |val| {
      if !(val[i] == '"' && !escaped) {
        ClosingFromIff(val, i + 1, !escaped && val[i] == '\\');
      }
    }
  }

  // The scanner stops at the first quote after an even run of backslashes.
  lemma ScannerClosesAtFirstEvenQuote(val: string)
    requires |val| > 0
    ensures match ClosingFrom(val, 1, false)
      case Some(k) => Closes(val, k) && forall j :: 1 <= j < k ==> !Closes(val, j)
      case None => forall j :: !Closes(val, j)
  {
    ClosingFromIff(val, 1, false);
  }

  // ----- What a value and a line are -----

  // Nothing but white space, or white space and then a comment.
  predicate OnlyComment(s: string) { exists i :: 0 <= i <= |s| && CommentAt(s, i) }

  predicate CommentAt(s: string, i: int) {
    0 <= i <= |s| && (forall j :: 0 <= j < i ==> IsSpace(s[j])) && (i == |s| || s[i] == '#')
  }

  lemma {:induction false} RStripKeepsFirst(s: string)
    requires |s| > 0 && !IsSpace(s[0])
    ensures |RStrip(s)| > 0 && RStrip(s)[0] == s[0]
  {
    if IsSpace(s[|s| - 1]) { RStripKeepsFirst(s[..|s| - 1]); }
  }

  lemma {:induction false} OnlyCommentIff(s: string)
    ensures OnlyComment(s) <==> |Strip(s)| == 0 || Strip(s)[0] == '#'
  {
    if |s| == 0 {
      assert CommentAt(s, 0);
    } else if IsSpace(s[0]) {
      OnlyCommentIff(s[1..]);
      SpaceThenComment(s);
    } else {
      RStripKeepsFirst(s);
      assert CommentAt(s, 0) <==> s[0] == '#';
    }
  }

  lemma SpaceThenComment(s: string)
    requires |s| > 0 && IsSpace(s[0])
    ensures OnlyComment(s) <==> OnlyComment(s[1..])
  {
    if OnlyComment(s) {
      var i :| 0 <= i <= |s| && CommentAt(s, i);
      assert i > 0;
      assert CommentAt(s[1..], i - 1);
    }
    if OnlyComment(s[1..]) {
      var t := s[1..];
      var i :| 0 <= i <= |t| && CommentAt(t, i);
      assert forall j :: 0 < j < i + 1 ==> s[j] == t[j - 1];
      assert CommentAt(s, i + 1);
    }
  }

  // The first of the given quote characters after the opening one.
  predicate FirstQuote(val: string, k: int) {
    1 <= k < |val| && val[k] == '\'' && '\'' !in val[1..k]
  }

  // The closing quote: the first one after an even run of backslashes.
  predicate FirstClose(val: string, k: int) {
    1 <= k < |val| && Closes(val, k) && forall j :: 1 <= j < k ==> !Closes(val, j)
  }

  // A quoted value ends at its closing quote, after which only a comment may come.
  predicate QuotedMeans(rest: string, value: string, r: Result<string, EnvError>) {
    r == if OnlyComment(rest) then Ok(value) else Err(ContentAfterQuote)
  }

  ghost predicate ValueMeans(val: string, r: Result<string, EnvError>) {
    && (|val| > 0 && val[0] == '"' ==>
          && (r == Err(UnterminatedDoubleQuote) <==> forall k :: !FirstClose(val, k))
          && forall k {:trigger FirstClose(val, k)} :: FirstClose(val, k) ==>
               QuotedMeans(val[k + 1..], Unescape(val[1..k]), r))
    && (|val| > 0 && val[0] == '\'' ==>
          && (r == Err(UnterminatedSingleQuote) <==> forall k :: !FirstQuote(val, k))
          && forall k {:trigger FirstQuote(val, k)} :: FirstQuote(val, k) ==> QuotedMeans(val[k + 1..], val[1..k], r))
    && (|val| == 0 || (val[0] != '"' && val[0] != '\'') ==>
          forall i {:trigger PlainEnds(val, i)} :: PlainEnds(val, i) ==> PlainMeans(val, i, r))
  }

  // An unquoted value ends before the first hash sign that follows a space, or
  // at the end of the text.
  predicate PlainEnds(val: string, i: int) {
    && 0 <= i <= |val| && (i < |val| ==> StartsComment(val, i))
    && forall j :: 0 <= j < i ==> !StartsComment(val, j)
  }

  // It loses the white space before that comment, and may hold no quote.
  predicate PlainMeans(val: string, i: int, r: Result<string, EnvError>)
    requires 0 <= i <= |val|
  {
    var text := if i < |val| then RStrip(val[..i]) else val;
    r == if HasQuote(text) then Err(UnbalancedQuote) else Ok(text)
  }

  predicate StartsComment(val: string, i: int) { 0 <= i && i + 1 < |val| && val[i] == ' ' && val[i + 1] == '#' }

  lemma {:induction false} SpaceHashIsFirst(s: string)
    ensures var i := SpaceHash(s);
      (i < |s| ==> StartsComment(s, i)) && forall j :: 0 <= j < i ==> !StartsComment(s, j)
  {
    if |s| >= 2 && !(s[0] == ' ' && s[1] == '#') {
      SpaceHashIsFirst(s[1..]);
      var i := SpaceHash(s[1..]);
      assert i < |s[1..]| ==> StartsComment(s[1..], i);
      forall j | 0 <= j < 1 + i ensures !StartsComment(s, j) {
        if j > 0 { assert !StartsComment(s[1..], j - 1); }
      }
    }
  }

  lemma AfterQuoteMeans(rest: string, value: string)
    ensures QuotedMeans(rest, value, AfterQuote(rest, value))
  {
    OnlyCommentIff(rest);
  }

  lemma {:induction false} ValueMeaning(val: string)
    ensures ValueMeans(val, ParseValue(val))
  {
    if |val| > 0 && val[0] == '"' {
      DoubleQuotedMeaning(val);
    } else if |val| > 0 && val[0] == '\'' {
      SingleQuotedMeaning(val);
    } else {
      PlainMeaning(val);
    }
  }

  lemma PlainMeaning(val: string)
    ensures PlainEnds(val, SpaceHash(val)) && PlainMeans(val, SpaceHash(val), ParsePlain(val))
    ensures forall i {:trigger PlainEnds(val, i)} :: PlainEnds(val, i) ==> PlainMeans(val, i, ParsePlain(val))
  {
    SpaceHashIsFirst(val);
    forall i {:trigger PlainEnds(val, i)} | PlainEnds(val, i) ensures i == SpaceHash(val) {
      PlainEndIsUnique(val, i, SpaceHash(val));
    }
  }

  lemma PlainEndIsUnique(val: string, i: int, k: int)
    requires PlainEnds(val, i) && PlainEnds(val, k)
    ensures i == k
  {
  }

  lemma DoubleQuotedMeaning(val: string)
    requires |val| > 0 && val[0] == '"'
    ensures ValueMeans(val, ParseValue(val))
  {
    ScannerClosesAtFirstEvenQuote(val);
    match ClosingFrom(val, 1, false) {
      case None =>
      case Some(i) =>
        assert FirstClose(val, i);
        AfterQuoteMeans(val[i + 1..], Unescape(val[1..i]));
        forall k | FirstClose(val, k) ensures k == i {
          FirstIsUnique(val, i, k);
        }
    }
  }

  lemma FirstIsUnique(val: string, i: int, k: int)
    requires FirstClose(val, i) && FirstClose(val, k)
    ensures i == k
  {
  }

  lemma SingleQuotedMeaning(val: string)
    requires |val| > 0 && val[0] == '\''
    ensures ValueMeans(val, ParseValue(val))
  {
    var i := 1 + IndexOf(val[1..], '\'');
    assert forall j :: 1 <= j < i ==> val[j] == val[1..][j - 1];
    if i < |val| {
      assert val[i] == val[1..][i - 1];
      assert FirstQuote(val, i);
      AfterQuoteMeans(val[i + 1..], val[1..i]);
    }
    forall k | FirstQuote(val, k) ensures k == i {
      QuoteIsAt(val, i, k);
    }
  }

  lemma QuoteIsAt(val: string, i: int, k: int)
    requires FirstQuote(val, k) && 1 <= i <= |val| && (i < |val| ==> val[i] == '\'')
    requires forall j :: 1 <= j < i ==> val[j] != '\''
    ensures k == i
  {
    assert forall j :: 1 <= j < k ==> val[j] == val[1..k][j - 1];
  }

  // The stripped line holds key = value around its first equals sign.
  predicate SplitsAt(line: string, i: int, key: string) {
    0 <= i < |line| && line[i] == '=' && '=' !in line[..i] && Strip(line[..i]) == key
  }

  ghost predicate Assigns(raw: string, known: set<string>, key: string, value: string) {
    && !OnlyComment(raw) && IsIdentifier(key) && key !in known
    && exists i :: SplitsAt(Strip(raw), i, key) && ParseValue(Strip(Strip(raw)[i + 1..])) == Ok(value)
  }

  lemma LineMeaning(raw: string, known: set<string>)
    ensures ParseLine(raw, known) == Ok(Blank) <==> OnlyComment(raw)
    ensures forall key, value :: ParseLine(raw, known) == Ok(Assign(key, value)) <==> Assigns(raw, known, key, value)
  {
    OnlyCommentIff(raw);
    var line := Strip(raw);
    var i := IndexOf(line, '=');
    forall k, key | SplitsAt(line, k, key) ensures k == i {
      EqualsIsAt(line, i, k, key);
    }
    if !OnlyComment(raw) && i < |line| {
      assert '=' !in line[..i];
      assert SplitsAt(line, i, Strip(line[..i]));
    }
  }

  lemma EqualsIsAt(line: string, i: int, k: int, key: string)
    requires SplitsAt(line, k, key) && 0 <= i <= |line| && (i < |line| ==> line[i] == '=')
    requires forall j :: 0 <= j < i ==> line[j] != '='
    ensures k == i
  {
    assert forall j :: 0 <= j < k ==> line[j] == line[..k][j];
  }

  // What each error says is wrong with a line.
  ghost predicate Refuses(raw: string, known: set<string>, e: EnvError) {
    && !OnlyComment(raw)
    && match e
       case NullByte => false
       case MissingEquals => '=' !in Strip(raw)
       case EmptyKey => exists i :: SplitsAt(Strip(raw), i, "")
       case InvalidKey => exists i, key :: SplitsAt(Strip(raw), i, key) && key != "" && !IsIdentifier(key)
       case DuplicateKey => exists i, key :: SplitsAt(Strip(raw), i, key) && IsIdentifier(key) && key in known
       case _ => exists i, key :: SplitsAt(Strip(raw), i, key) && ParseValue(Strip(Strip(raw)[i + 1..])) == Err(e)
  }

  lemma ValueErrors(val: string)
    ensures ParseValue(val).Err? ==>
      ParseValue(val).error !in {NullByte, MissingEquals, EmptyKey, InvalidKey, DuplicateKey}
  {
  }

  lemma LineErrorMeans(raw: string, known: set<string>)
    ensures ParseLine(raw, known).Err? ==> Refuses(raw, known, ParseLine(raw, known).error)
  {
    OnlyCommentIff(raw);
    var line := Strip(raw);
    var i := IndexOf(line, '=');
    if i < |line| {
      assert '=' !in line[..i];
      assert SplitsAt(line, i, Strip(line[..i]));
      ValueErrors(Strip(line[i + 1..]));
    }
  }

  // The lines before some line parse, and that line has the fault.
  ghost predicate SomeLineRefused(lines: seq<string>, e: EnvError) {
    exists k :: 0 <= k < |lines| && ParseLines(lines[..k]).Ok?
                && Refuses(lines[k], ParseLines(lines[..k]).value.Keys, e)
  }

  lemma {:induction false} LinesErrorMeans(lines: seq<string>)
    ensures ParseLines(lines).Err? ==> SomeLineRefused(lines, ParseLines(lines).error)
  {
    if |lines| > 0 && ParseLines(lines).Err? {
      var n := |lines| - 1;
      if ParseLines(lines[..n]).Err? {
        LinesErrorMeans(lines[..n]);
        RefusalStays(lines, ParseLines(lines).error);
      } else {
        LineErrorMeans(lines[n], ParseLines(lines[..n]).value.Keys);
      }
    }
  }

  lemma RefusalStays(lines: seq<string>, e: EnvError)
    requires |lines| > 0 && SomeLineRefused(lines[..|lines| - 1], e)
    ensures SomeLineRefused(lines, e)
  {
    var before := lines[..|lines| - 1];
    var k :| 0 <= k < |before| && ParseLines(before[..k]).Ok?
      && Refuses(before[k], ParseLines(before[..k]).value.Keys, e);
    assert before[..k] == lines[..k] && before[k] == lines[k];
  }

  lemma ContentErrorMeans(content: string)
    ensures ParseContent(content) == Err(NullByte) <==> NUL in content
    ensures ParseContent(content).Err? && NUL !in content ==>
      SomeLineRefused(SplitLines(content), ParseContent(content).error)
  {
    LinesErrorMeans(SplitLines(content));
  }

  // ----- The loops -----

  method FindClosingQuote(val: string) returns (closing: Option<nat>)
    requires |val| > 0
    ensures closing == ClosingFrom(val, 1, false)
    ensures closing.Some? ==> 1 <= closing.value < |val|
  {
    var i, escaped := 1, false;
    while i < |val|
      invariant 1 <= i <= |val|
      invariant ClosingFrom(val, 1, false) == ClosingFrom(val, i, escaped)
    {
      if escaped {
        escaped := false;
      } else if val[i] == '\\' {
        escaped := true;
      } else if val[i] == '"' {
        return Some(i);
      }
      i := i + 1;
    }
    closing := None;
  }

  // Where a value ends, what it is, and what may follow it.
  method ParseQuotedValue(val: string) returns (r: Result<string, EnvError>)
    ensures ValueMeans(val, r)
    ensures r == ParseValue(val)
  {
    ValueMeaning(val);
    if |val| == 0 { return Ok(""); }
    if val[0] == '"' {
      var closing := FindClosingQuote(val);
      if closing.None? { return Err(UnterminatedDoubleQuote); }
      return AfterQuote(val[closing.value + 1..], Unescape(val[1..closing.value]));
    }
    if val[0] == '\'' {
      var i := 1 + IndexOf(val[1..], '\'');
      if i == |val| { return Err(UnterminatedSingleQuote); }
      return AfterQuote(val[i + 1..], val[1..i]);
    }
    r := ParsePlain(val);
  }

  // Nothing, an assignment of a new identifier, or an error.
  method ParseEnvLine(raw: string, known: set<string>) returns (r: Result<Assignment, EnvError>)
    ensures r == Ok(Blank) <==> OnlyComment(raw)
    ensures forall key, value :: r == Ok(Assign(key, value)) <==> Assigns(raw, known, key, value)
    ensures r.Err? ==> Refuses(raw, known, r.error)
    ensures r == ParseLine(raw, known)
  {
    LineMeaning(raw, known);
    LineErrorMeans(raw, known);
    var line := Strip(raw);
    if |line| == 0 || line[0] == '#' { return Ok(Blank); }
    var i := IndexOf(line, '=');
    if i == |line| { return Err(MissingEquals); }
    var key := Strip(line[..i]);
    if |key| == 0 { return Err(EmptyKey); }
    if !IsIdentifier(key) { return Err(InvalidKey); }
    if key in known { return Err(DuplicateKey); }
    var value := ParseQuotedValue(Strip(line[i + 1..]));
    r := if value.Err? then Err(value.error) else Ok(Assign(key, value.value));
  }

  // The loop over the lines.
  method ParseEnvLines(lines: seq<string>) returns (r: Result<map<string, string>, EnvError>)
    ensures r == ParseLines(lines)
  {
    var parsed: map<string, string> := map[];
    var i := 0;
    while i < |lines|
      invariant 0 <= i <= |lines|
      invariant ParseLines(lines[..i]) == Ok(parsed)
    {
      assert lines[..i + 1][..i] == lines[..i];
      var step := ParseEnvLine(lines[i], parsed.Keys);
      if step.Err? {
        ParseLinesPrefix(lines, i + 1);
        return Err(step.error);
      }
      if step.value.Assign? {
        parsed := parsed[step.value.key := step.value.value];
      }
      i := i + 1;
    }
    assert lines[..|lines|] == lines;
    r := Ok(parsed);
  }

  method ParseEnvContent(content: string) returns (r: Result<map<string, string>, EnvError>)
    ensures r == ParseContent(content)
    ensures r == Err(NullByte) <==> NUL in content
    ensures r.Err? && NUL !in content ==> SomeLineRefused(SplitLines(content), r.error)
  {
    ContentErrorMeans(content);
    if NUL in content { return Err(NullByte); }
    r := ParseEnvLines(SplitLines(content));
  }

  lemma {:induction false} ParseLinesPrefix(lines: seq<string>, k: nat)
    requires k <= |lines|
    ensures ParseLines(lines[..k]).Err? ==> ParseLines(lines) == ParseLines(lines[..k])
  {
    if k < |lines| {
      assert lines[..|lines| - 1][..k] == lines[..k];
      ParseLinesPrefix(lines[..|lines| - 1], k);
    } else {
      assert lines[..k] == lines;
    }
  }
}
