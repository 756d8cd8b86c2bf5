// Which values survive being written to a .env file and parsed back.
module EnvRoundTrip {
  import opened Foundation
  import opened EnvLoader

  predicate Letter(c: char) { c == 'n' || c == 'r' || c == 't' }

  // The control character an escape letter stands for.
  function Control(c: char): char
    requires Letter(c)
  {
    if c == 'n' then '\n' else if c == 'r' then '\r' else '\t'
  }

  predicate IsControl(c: char) { c == '\n' || c == '\r' || c == '\t' }

  function LetterOf(c: char): (l: char)
    requires IsControl(c)
    ensures Letter(l) && Control(l) == c
  {
    if c == '\n' then 'n' else if c == '\r' then 'r' else 't'
  }

  // The escaping that double quotes call for.
  function EscapeChar(c: char): string {
    if c == '\\' || c == '"' then ['\\', c] else if IsControl(c) then ['\\', LetterOf(c)] else [c]
  }

  function Escape(v: string): string {
    if |v| == 0 then "" else EscapeChar(v[0]) + Escape(v[1..])
  }

  // A backslash directly followed by an escape letter.
  predicate Mangled(v: string, i: nat)
    requires i < |v|
  {
    i > 0 && v[i - 1] == '\\' && Letter(v[i])
  }

  // What the decoder returns instead: every such letter becomes its control character.
  function Corrupt(v: string): (r: string)
    ensures |r| == |v|
  {
    seq(|v|, i requires 0 <= i < |v| => if Mangled(v, i) then Control(v[i]) else v[i])
  }

  // ----- The chain of replacements, one pass at a time -----

  // The text once the quotes and the letters in done have been replaced.
  function Partly(v: string, done: set<char>): string
    decreases |v|
  {
    if |v| == 0 then ""
    else if v[0] == '\\' then
      if |v| > 1 && Letter(v[1]) && v[1] in done then ['\\'] + ([Control(v[1])] + Partly(v[2..], done))
      else ['\\'] + (['\\'] + Partly(v[1..], done))
    else if IsControl(v[0]) && LetterOf(v[0]) !in done then ['\\'] + ([LetterOf(v[0])] + Partly(v[1..], done))
    else [v[0]] + Partly(v[1..], done)
  }

  lemma ReplaceEmits(x: char, rest: string, a: char, b: char, r: char)
    requires !(x == a && |rest| > 0 && rest[0] == b)
    ensures Replace([x] + rest, a, b, r) == [x] + Replace(rest, a, b, r)
  {
    assert ([x] + rest)[1..] == rest;
    if |rest| > 0 { assert ([x] + rest)[1] == rest[0]; }
  }

  lemma ReplaceMatches(rest: string, a: char, b: char, r: char)
    ensures Replace([a] + ([b] + rest), a, b, r) == [r] + Replace(rest, a, b, r)
  {
    var s := [a] + ([b] + rest);
    assert s[0] == a && s[1] == b;
    assert Replace(s, a, b, r) == [r] + Replace(s[2..], a, b, r);
    assert s[2..] == rest;
  }

  lemma ReplaceEmitsTwo(x: char, y: char, rest: string, a: char, b: char, r: char)
    requires !(x == a && y == b) && !(y == a && |rest| > 0 && rest[0] == b)
    ensures Replace([x] + ([y] + rest), a, b, r) == [x] + ([y] + Replace(rest, a, b, r))
  {
    ReplaceEmits(x, [y] + rest, a, b, r);
    ReplaceEmits(y, rest, a, b, r);
  }

  // One character of the first pass, which unescapes the quotes.
  lemma FirstPassQuote(rest: string)
    ensures Replace(EscapeChar('"') + rest, '\\', '"', '"') == ['"'] + Replace(rest, '\\', '"', '"')
  {
    assert EscapeChar('"') + rest == ['\\'] + (['"'] + rest);
    ReplaceMatches(rest, '\\', '"', '"');
  }

  lemma Regroup(x: char, y: char, rest: string)
    ensures [x, y] + rest == [x] + ([y] + rest)
  {
  }

  lemma FirstPassEscape(d: char, rest: string)
    requires d != '"' && (|rest| > 0 ==> rest[0] != '"')
    ensures Replace(['\\', d] + rest, '\\', '"', '"') == ['\\'] + ([d] + Replace(rest, '\\', '"', '"'))
  {
    Regroup('\\', d, rest);
    ReplaceEmitsTwo('\\', d, rest, '\\', '"', '"');
  }

  lemma {:induction false} FirstPass(v: string)
    ensures Replace(Escape(v), '\\', '"', '"') == Partly(v, {})
  {
    if |v| > 0 {
      FirstPass(v[1..]);
      EscapeNeverStartsWithQuote(v[1..]);
      if v[0] == '"' {
        FirstPassQuote(Escape(v[1..]));
      } else if v[0] == '\\' || IsControl(v[0]) {
        FirstPassEscape(EscapeChar(v[0])[1], Escape(v[1..]));
      } else {
        ReplaceEmits(v[0], Escape(v[1..]), '\\', '"', '"');
      }
    }
  }

  lemma EscapeNeverStartsWithQuote(v: string)
    ensures |Escape(v)| > 0 ==> Escape(v)[0] != '"'
  {
  }

  // A pass for one letter turns its escapes into control characters, and with
  // them that letter after a backslash that was itself escaped.
  lemma {:induction false} LetterPass(v: string, done: set<char>, c: char)
    requires Letter(c) && c !in done
    ensures Replace(Partly(v, done), '\\', c, Control(c)) == Partly(v, done + {c})
    decreases |v|
  {
    if |v| > 0 {
      if v[0] == '\\' {
        LetterPassBackslash(v, done, c);
      } else {
        LetterPass(v[1..], done, c);
        var rest := Partly(v[1..], done);
        if IsControl(v[0]) && LetterOf(v[0]) !in done {
          if v[0] == Control(c) {
            ReplaceMatches(rest, '\\', c, Control(c));
          } else {
            ReplaceEmitsTwo('\\', LetterOf(v[0]), rest, '\\', c, Control(c));
          }
        } else {
          ReplaceEmits(v[0], rest, '\\', c, Control(c));
        }
      }
    }
  }

  lemma {:induction false} LetterPassBackslash(v: string, done: set<char>, c: char)
    requires Letter(c) && c !in done && |v| > 0 && v[0] == '\\'
    ensures Replace(Partly(v, done), '\\', c, Control(c)) == Partly(v, done + {c})
    decreases |v|, 0
  {
    if |v| > 1 && Letter(v[1]) && v[1] in done {
      LetterPass(v[2..], done, c);
      ReplaceEmitsTwo('\\', Control(v[1]), Partly(v[2..], done), '\\', c, Control(c));
    } else if |v| > 1 && v[1] == c {
      LetterPass(v[2..], done, c);
      var rest := Partly(v[2..], done);
      assert v[1..][1..] == v[2..];
      assert Partly(v[1..], done) == [c] + rest;
      ReplaceEmits('\\', ['\\'] + ([c] + rest), '\\', c, Control(c));
      ReplaceMatches(rest, '\\', c, Control(c));
    } else {
      LetterPass(v[1..], done, c);
      PartlyStart(v[1..], done, c);
      ReplaceEmitsTwo('\\', '\\', Partly(v[1..], done), '\\', c, Control(c));
    }
  }

  lemma PartlyStart(v: string, done: set<char>, c: char)
    requires Letter(c) && (|v| > 0 ==> v[0] != c)
    ensures |Partly(v, done)| > 0 ==> Partly(v, done)[0] != c
  {
  }

  const LETTERS: set<char> := {'n', 'r', 't'}

  function Restore(v: string): string
    decreases |v|
  {
    if |v| == 0 then ""
    else if v[0] == '\\' && |v| > 1 && Letter(v[1]) then ['\\'] + ([Control(v[1])] + Restore(v[2..]))
    else [v[0]] + Restore(v[1..])
  }

  lemma {:induction false} LastPass(v: string)
    ensures Replace(Partly(v, LETTERS), '\\', '\\', '\\') == Restore(v)
    decreases |v|
  {
    if |v| > 0 {
      if v[0] == '\\' && |v| > 1 && Letter(v[1]) {
        LastPass(v[2..]);
        ReplaceEmitsTwo('\\', Control(v[1]), Partly(v[2..], LETTERS), '\\', '\\', '\\');
      } else if v[0] == '\\' {
        LastPass(v[1..]);
        ReplaceMatches(Partly(v[1..], LETTERS), '\\', '\\', '\\');
      } else {
        LastPass(v[1..]);
        ReplaceEmits(v[0], Partly(v[1..], LETTERS), '\\', '\\', '\\');
      }
    }
  }

  lemma {:induction false} RestoreIsCorrupt(v: string)
    ensures Restore(v) == Corrupt(v)
    decreases |v|
  {
    if |v| == 0 {
    } else if v[0] == '\\' && |v| > 1 && Letter(v[1]) {
      var rest := v[2..];
      RestoreIsCorrupt(rest);
      forall i | 2 <= i < |v| ensures Corrupt(v)[i] == Corrupt(rest)[i - 2] {
        assert v[i] == rest[i - 2];
        if i > 2 { assert v[i - 1] == rest[i - 3]; }
      }
      assert Corrupt(v)[2..] == Corrupt(rest);
      assert Corrupt(v) == ['\\'] + ([Control(v[1])] + Corrupt(v)[2..]);
    } else {
      var rest := v[1..];
      RestoreIsCorrupt(rest);
      forall i | 1 <= i < |v| ensures Corrupt(v)[i] == Corrupt(rest)[i - 1] {
        assert v[i] == rest[i - 1];
        if i > 1 { assert v[i - 1] == rest[i - 2]; }
      }
      assert Corrupt(v)[1..] == Corrupt(rest);
      assert Corrupt(v) == [v[0]] + Corrupt(v)[1..];
    }
  }

  // Decoding an escaped value gives Corrupt(v), whatever v is.
  lemma UnescapeEscape(v: string)
    ensures Unescape(Escape(v)) == Corrupt(v)
  {
    FirstPass(v);
    LetterPass(v, {}, 'n');
    LetterPass(v, {'n'}, 'r');
    LetterPass(v, {'n', 'r'}, 't');
    assert {} + {'n'} == {'n'} && {'n'} + {'r'} == {'n', 'r'} && {'n', 'r'} + {'t'} == LETTERS;
    LastPass(v);
    RestoreIsCorrupt(v);
  }

  // So a value survives exactly when no backslash in it is directly followed
  // by n, r or t.
  lemma SurvivesEscapingIff(v: string)
    ensures Unescape(Escape(v)) == v <==> forall i :: 0 <= i < |v| ==> !Mangled(v, i)
  {
    UnescapeEscape(v);
    if forall i :: 0 <= i < |v| ==> !Mangled(v, i) {
      assert Corrupt(v) == v;
    } else {
      var i :| 0 <= i < |v| && Mangled(v, i);
      assert Corrupt(v)[i] != v[i];
    }
  }

  // ----- One value between quotes -----

  lemma {:induction false} ScanEscaped(before: string, v: string, tail: string)
    requires |before| > 0
    ensures ClosingFrom(before + (Escape(v) + (['"'] + tail)), |before|, false) == Some(|before| + |Escape(v)|)
    decreases |v|
  {
    var whole := before + (Escape(v) + (['"'] + tail));
    if |v| == 0 {
      assert whole[|before|] == '"';
    } else {
      var head := EscapeChar(v[0]);
      ScanEscaped(before + head, v[1..], tail);
      assert whole == (before + head) + (Escape(v[1..]) + (['"'] + tail));
      assert whole[|before|] == head[0];
      if |head| == 2 {
        assert whole[|before| + 1] == head[1];
      }
    }
  }

  lemma DoubleQuotedParses(v: string)
    ensures ParseValue(['"'] + (Escape(v) + ['"'])) == Ok(Corrupt(v))
  {
    var e := Escape(v);
    var val := ['"'] + (e + (['"'] + ""));
    assert ['"'] + "" == ['"'];
    ScanEscaped(['"'], v, "");
    assert val[1..1 + |e|] == e && val[2 + |e|..] == "";
    UnescapeEscape(v);
  }

  // Single quotes are exact for every value without one in it, and for no other.
  lemma SingleQuotedParsesIff(v: string)
    ensures ParseValue(['\''] + (v + ['\''])) == Ok(v) <==> '\'' !in v
  {
    var val := ['\''] + (v + ['\'']);
    assert val[1..] == v + ['\''];
    var i := IndexOf(val[1..], '\'');
    if '\'' !in v {
      assert i == |v| by {
        assert val[1..][|v|] == '\'';
        assert forall j :: 0 <= j < |v| ==> val[1..][j] == v[j];
      }
      assert val[1..1 + i] == v && val[2 + i..] == "";
    } else {
      var k :| 0 <= k < |v| && v[k] == '\'';
      assert i <= k by { assert val[1..][k] == '\''; }
      assert |val[1..1 + i]| == i < |v|;
    }
  }

  // ----- A whole file -----

  datatype Quote = Single | Double

  datatype Entry = Entry(key: string, value: string, quote: Quote)

  function Quoted(e: Entry): string {
    if e.quote.Single? then ['\''] + (e.value + ['\'']) else ['"'] + (Escape(e.value) + ['"'])
  }

  function RenderLine(e: Entry): string { e.key + (['='] + Quoted(e)) }

  function Render(es: seq<Entry>): string {
    if |es| == 0 then "" else RenderLine(es[0]) + (['\n'] + Render(es[1..]))
  }

  function Lines(es: seq<Entry>): (r: seq<string>)
    ensures |r| == |es|
  {
    seq(|es|, i requires 0 <= i < |es| => RenderLine(es[i]))
  }

  // No NUL, and no line end except those that double quotes escape.
  predicate Storable(e: Entry) {
    && IsIdentifier(e.key)
    && (forall i :: 0 <= i < |e.value| ==>
          e.value[i] != NUL && (IsLineEnd(e.value[i]) ==> e.quote.Double? && IsControl(e.value[i])))
    && (e.quote.Single? ==> '\'' !in e.value)
  }

  function ReadBack(e: Entry): string {
    if e.quote.Single? then e.value else Corrupt(e.value)
  }

  predicate Plain(s: string) {
    forall i :: 0 <= i < |s| ==> s[i] != NUL && !IsLineEnd(s[i])
  }

  lemma PlainJoin(a: string, b: string)
    requires Plain(a) && Plain(b)
    ensures Plain(a + b)
  {
  }

  lemma {:induction false} EscapeIsPlain(v: string)
    requires forall i :: 0 <= i < |v| ==> v[i] != NUL && (IsLineEnd(v[i]) ==> IsControl(v[i]))
    ensures Plain(Escape(v))
  {
    if |v| > 0 {
      EscapeIsPlain(v[1..]);
      assert Plain(EscapeChar(v[0]));
      PlainJoin(EscapeChar(v[0]), Escape(v[1..]));
    }
  }

  lemma RenderLineIsPlain(e: Entry)
    requires Storable(e)
    ensures Plain(RenderLine(e))
  {
    if e.quote.Double? { EscapeIsPlain(e.value); }
    assert Plain(Quoted(e));
    assert Plain(e.key);
    PlainJoin(['='], Quoted(e));
  }

  lemma StripSolid(s: string)
    requires |s| > 0 && !IsSpace(s[0]) && !IsSpace(s[|s| - 1])
    ensures Strip(s) == s
  {
  }

  lemma QuotedParses(e: Entry)
    requires Storable(e)
    ensures ParseValue(Quoted(e)) == Ok(ReadBack(e))
    ensures |Quoted(e)| >= 2 && !IsSpace(Quoted(e)[0]) && !IsSpace(Quoted(e)[|Quoted(e)| - 1])
  {
    if e.quote.Single? { SingleQuotedParsesIff(e.value); } else { DoubleQuotedParses(e.value); }
  }

  lemma AssignmentParses(key: string, q: string, value: string, known: set<string>)
    requires IsIdentifier(key) && key !in known
    requires |q| > 0 && !IsSpace(q[0]) && !IsSpace(q[|q| - 1])
    requires ParseValue(q) == Ok(value)
    ensures ParseLine(key + (['='] + q), known) == Ok(Assign(key, value))
  {
    var line := key + (['='] + q);
    KeyLine(key, q, line);
    SolidLineParses(line, key, q, value, known);
  }

  lemma KeyLine(key: string, q: string, line: string)
    requires IsIdentifier(key) && line == key + (['='] + q)
    requires |q| > 0 && !IsSpace(q[0]) && !IsSpace(q[|q| - 1])
    ensures |line| > |key| && line[0] == key[0] && line[|line| - 1] == q[|q| - 1]
    ensures IndexOf(line, '=') == |key| && line[..|key|] == key && line[|key| + 1..] == q
  {
    KeyEndsAtEquals(key, q);
  }

  lemma SolidLineParses(line: string, key: string, q: string, value: string, known: set<string>)
    requires IsIdentifier(key) && key !in known && ParseValue(q) == Ok(value)
    requires |q| > 0 && !IsSpace(q[0]) && !IsSpace(q[|q| - 1])
    requires |line| > |key| && line[0] == key[0] && line[|line| - 1] == q[|q| - 1]
    requires IndexOf(line, '=') == |key| && line[..|key|] == key && line[|key| + 1..] == q
    ensures ParseLine(line, known) == Ok(Assign(key, value))
  {
    StripSolid(line);
    StripSolid(key);
    StripSolid(q);
  }

  lemma EntryParses(e: Entry, known: set<string>)
    requires Storable(e) && e.key !in known
    ensures ParseLine(RenderLine(e), known) == Ok(Assign(e.key, ReadBack(e)))
  {
    QuotedParses(e);
    AssignmentParses(e.key, Quoted(e), ReadBack(e), known);
  }

  lemma KeyEndsAtEquals(key: string, tail: string)
    requires IsIdentifier(key)
    ensures IndexOf(key + (['='] + tail), '=') == |key|
  {
    var s := key + (['='] + tail);
    assert s[|key|] == '=';
    assert forall j :: 0 <= j < |key| ==> s[j] == key[j];
  }

  lemma {:induction false} LineLengthAt(line: string, rest: string)
    requires Plain(line)
    ensures LineLength(line + (['\n'] + rest)) == |line|
  {
    var s := line + (['\n'] + rest);
    if |line| > 0 {
      assert s[1..] == line[1..] + (['\n'] + rest);
      LineLengthAt(line[1..], rest);
    }
  }

  lemma SplitOne(line: string, rest: string)
    requires Plain(line)
    ensures SplitLines(line + (['\n'] + rest)) == [line] + SplitLines(rest)
  {
    var s := line + (['\n'] + rest);
    LineLengthAt(line, rest);
    assert s[..|line|] == line && s[|line|] == '\n' && s[|line| + 1..] == rest;
  }

  predicate AllStorable(es: seq<Entry>) { forall i :: 0 <= i < |es| ==> Storable(es[i]) }

  lemma {:induction false} RenderSplits(es: seq<Entry>)
    requires AllStorable(es)
    ensures SplitLines(Render(es)) == Lines(es)
  {
    if |es| > 0 {
      RenderLineIsPlain(es[0]);
      RenderSplits(es[1..]);
      SplitOne(RenderLine(es[0]), Render(es[1..]));
      assert Lines(es) == [RenderLine(es[0])] + Lines(es[1..]);
    }
  }

  lemma NoNulJoin(line: string, rest: string)
    requires Plain(line) && NUL !in rest
    ensures NUL !in line + (['\n'] + rest)
  {
  }

  lemma {:induction false} RenderHasNoNul(es: seq<Entry>)
    requires AllStorable(es)
    ensures NUL !in Render(es)
  {
    if |es| > 0 {
      RenderLineIsPlain(es[0]);
      RenderHasNoNul(es[1..]);
      NoNulJoin(RenderLine(es[0]), Render(es[1..]));
    }
  }

  function Keys(es: seq<Entry>): (r: seq<string>)
    ensures |r| == |es|
  {
    seq(|es|, i requires 0 <= i < |es| => es[i].key)
  }

  // The parsed file: each key with what its value reads back as.
  function Loaded(es: seq<Entry>): map<string, string> {
    if |es| == 0 then map[] else Loaded(es[..|es| - 1])[es[|es| - 1].key := ReadBack(es[|es| - 1])]
  }

  function Get(m: map<string, string>, key: string): Option<string> {
    if key in m then Some(m[key]) else None
  }

  lemma {:induction false} LoadedAt(es: seq<Entry>, i: nat)
    requires Distinct(Keys(es)) && i < |es|
    ensures Get(Loaded(es), es[i].key) == Some(ReadBack(es[i]))
  {
    var n := |es| - 1;
    if i < n {
      assert Keys(es)[i] != Keys(es)[n];
      assert Keys(es[..n]) == Keys(es)[..n];
      LoadedAt(es[..n], i);
    }
  }

  lemma {:induction false} LoadedKeys(es: seq<Entry>)
    ensures Loaded(es).Keys == Elems(Keys(es))
  {
    if |es| > 0 {
      var n := |es| - 1;
      LoadedKeys(es[..n]);
      assert Keys(es) == Keys(es[..n]) + [es[n].key];
    }
  }

  lemma {:induction false} LinesParse(es: seq<Entry>)
    requires WellFormed(es)
    ensures ParseLines(Lines(es)) == Ok(Loaded(es))
  {
    if |es| > 0 {
      var n := |es| - 1;
      assert Keys(es[..n]) == Keys(es)[..n] && Lines(es[..n]) == Lines(es)[..n];
      LinesParse(es[..n]);
      LoadedKeys(es[..n]);
      assert Keys(es)[n] !in Keys(es)[..n];
      EntryParses(es[n], Loaded(es[..n]).Keys);
    }
  }

  predicate WellFormed(es: seq<Entry>) {
    Distinct(Keys(es)) && AllStorable(es)
  }

  // What parsing a rendered file gives for a key.
  function ParsedAt(es: seq<Entry>, key: string): Option<string> {
    match ParseContent(Render(es)) case Ok(m) => Get(m, key) case Err(_) => None
  }

  lemma FileIsLoaded(es: seq<Entry>)
    requires WellFormed(es)
    ensures ParseContent(Render(es)) == Ok(Loaded(es))
  {
    RenderSplits(es);
    RenderHasNoNul(es);
    LinesParse(es);
  }

  // A rendered file parses to exactly its keys, each with ReadBack of its value.
  lemma FileParses(es: seq<Entry>)
    requires WellFormed(es)
    ensures ParseContent(Render(es)).Ok? && ParseContent(Render(es)).value.Keys == Elems(Keys(es))
    ensures forall i :: 0 <= i < |es| ==> ParsedAt(es, es[i].key) == Some(ReadBack(es[i]))
  {
    FileIsLoaded(es);
    LoadedKeys(es);
    forall i | 0 <= i < |es| ensures ParsedAt(es, es[i].key) == Some(ReadBack(es[i])) {
      LoadedAt(es, i);
    }
  }

  predicate Survives(e: Entry) {
    e.quote.Double? ==> forall i :: 0 <= i < |e.value| ==> !Mangled(e.value, i)
  }

  lemma ReadBackIff(e: Entry)
    ensures ReadBack(e) == e.value <==> Survives(e)
  {
    UnescapeEscape(e.value);
    SurvivesEscapingIff(e.value);
  }
}
