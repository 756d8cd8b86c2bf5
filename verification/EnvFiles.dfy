// Exactly which lists of entries survive being written to a .env file and
// parsed back, whatever their keys and values hold.
module EnvFiles {
  import opened Foundation
  import opened EnvLoader
  import opened EnvRoundTrip

  // What the file is meant to say; a later entry replaces an earlier one.
  function Given(es: seq<Entry>): map<string, string> {
    if |es| == 0 then map[] else Given(es[..|es| - 1])[es[|es| - 1].key := es[|es| - 1].value]
  }

  // ----- The lines of a rendered file -----

  // The lines one entry takes; more than one when its text holds a line end.
  function Chunk(e: Entry): seq<string> { SplitLines(RenderLine(e) + ['\n']) }

  function Each<T, U>(f: T -> U, s: seq<T>): (r: seq<U>)
    ensures |r| == |s| && forall i :: 0 <= i < |s| ==> r[i] == f(s[i])
  {
    seq(|s|, i requires 0 <= i < |s| => f(s[i]))
  }

  lemma EachFirst<T, U>(f: T -> U, s: seq<T>)
    requires |s| > 0
    ensures Each(f, s) == [f(s[0])] + Each(f, s[1..])
  {
  }

  lemma EachLast<T, U>(f: T -> U, s: seq<T>)
    requires |s| > 0
    ensures Each(f, s)[..|s| - 1] == Each(f, s[..|s| - 1]) && Each(f, s)[|s| - 1] == f(s[|s| - 1])
  {
  }

  function Chunks(es: seq<Entry>): (r: seq<seq<string>>)
    ensures |r| == |es|
  {
    Each(Chunk, es)
  }

  // One list of lines after another.
  function Flat(chunks: seq<seq<string>>): seq<string> {
    if |chunks| == 0 then [] else Flat(chunks[..|chunks| - 1]) + chunks[|chunks| - 1]
  }

  lemma {:induction false} FlatFirst(first: seq<string>, chunks: seq<seq<string>>)
    ensures Flat([first] + chunks) == first + Flat(chunks)
  {
    if |chunks| == 0 {
      assert ([first] + chunks)[..0] == [];
    } else {
      var n := |chunks| - 1;
      assert ([first] + chunks)[..n + 1] == [first] + chunks[..n];
      FlatFirst(first, chunks[..n]);
    }
  }

  lemma {:induction false} LineLengthStays(a: string, rest: string)
    requires LineLength(a) < |a|
    ensures LineLength(a + rest) == LineLength(a)
  {
    if !IsLineEnd(a[0]) {
      assert (a + rest)[1..] == a[1..] + rest;
      LineLengthStays(a[1..], rest);
    }
  }

  lemma {:induction false} LineLengthEnds(a: string)
    ensures LineLength(a + ['\n']) == LineLength(a)
  {
    if |a| > 0 && !IsLineEnd(a[0]) {
      assert (a + ['\n'])[1..] == a[1..] + ['\n'];
      LineLengthEnds(a[1..]);
    }
  }

  // Where the text after the first line starts.
  function NextLine(s: string): (j: nat)
    requires LineLength(s) < |s|
    ensures LineLength(s) < j <= |s|
  {
    var i := LineLength(s);
    if s[i] == '\r' && i + 1 < |s| && s[i + 1] == '\n' then i + 2 else i + 1
  }

  lemma SplitNext(s: string)
    requires LineLength(s) < |s|
    ensures SplitLines(s) == [s[..LineLength(s)]] + SplitLines(s[NextLine(s)..])
  {
  }

  // A text that ends in a line feed of its own splits by itself.
  predicate Terminated(s: string) { |s| > 0 && s[|s| - 1] == '\n' }

  lemma TerminatedHead(s: string, rest: string)
    requires Terminated(s)
    ensures LineLength(s) < |s| && LineLength(s + rest) == LineLength(s) && NextLine(s + rest) == NextLine(s)
  {
    var a := s[..|s| - 1];
    assert s == a + ['\n'];
    LineLengthEnds(a);
    LineLengthStays(s, rest);
  }

  lemma HeadConcat(s: string, rest: string)
    requires Terminated(s) && LineLength(s) < |s|
    ensures SplitLines(s + rest) == [s[..LineLength(s)]] + SplitLines(s[NextLine(s)..] + rest)
  {
    TerminatedHead(s, rest);
    SplitNext(s + rest);
    CutConcat(s, rest, LineLength(s), NextLine(s));
  }

  lemma CutConcat(s: string, rest: string, i: nat, j: nat)
    requires i <= j <= |s|
    ensures (s + rest)[..i] == s[..i] && (s + rest)[j..] == s[j..] + rest
  {
  }

  lemma Regrouped(first: string, more: seq<string>, rest: seq<string>)
    ensures [first] + (more + rest) == ([first] + more) + rest
    ensures more == [] ==> [first] + rest == ([first] + more) + rest
  {
  }

  lemma {:induction false} SplitConcat(s: string, rest: string)
    requires Terminated(s)
    ensures SplitLines(s + rest) == SplitLines(s) + SplitLines(rest)
    decreases |s|
  {
    TerminatedHead(s, []);
    var tail := s[NextLine(s)..];
    HeadConcat(s, rest);
    SplitNext(s);
    if |tail| > 0 {
      SplitConcat(tail, rest);
    } else {
      assert tail + rest == rest;
    }
    Regrouped(s[..LineLength(s)], SplitLines(tail), SplitLines(rest));
  }

  lemma RenderFirst(line: string, rest: string)
    ensures SplitLines(line + (['\n'] + rest)) == SplitLines(line + ['\n']) + SplitLines(rest)
  {
    assert line + (['\n'] + rest) == (line + ['\n']) + rest;
    SplitConcat(line + ['\n'], rest);
  }

  lemma {:induction false} RenderedLines(es: seq<Entry>)
    ensures SplitLines(Render(es)) == Flat(Chunks(es))
  {
    if |es| > 0 {
      RenderFirst(RenderLine(es[0]), Render(es[1..]));
      RenderedLines(es[1..]);
      EachFirst(Chunk, es);
      FlatFirst(Chunk(es[0]), Chunks(es[1..]));
    }
  }

  // ----- What accepted lines leave behind -----

  predicate Kept(m: map<string, string>, more: map<string, string>) {
    forall k :: k in m ==> k in more && more[k] == m[k]
  }

  // A key once assigned keeps its value: assigning it again is an error.
  lemma {:induction false} PrefixIsKept(lines: seq<string>, k: nat)
    requires ParseLines(lines).Ok? && k <= |lines|
    ensures ParseLines(lines[..k]).Ok? && Kept(ParseLines(lines[..k]).value, ParseLines(lines).value)
  {
    if k < |lines| {
      var n := |lines| - 1;
      PrefixIsKept(lines[..n], k);
      assert lines[..n][..k] == lines[..k];
      LastIsKept(lines);
    } else {
      assert lines[..k] == lines;
    }
  }

  lemma LastIsKept(lines: seq<string>)
    requires |lines| > 0 && ParseLines(lines).Ok?
    ensures var before := ParseLines(lines[..|lines| - 1]);
      && before.Ok? && Kept(before.value, ParseLines(lines).value)
      && ParseLine(lines[|lines| - 1], before.value.Keys).Ok?
  {
  }

  lemma {:induction false} KeysAreIdentifiers(lines: seq<string>)
    requires ParseLines(lines).Ok?
    ensures forall k :: k in ParseLines(lines).value ==> IsIdentifier(k)
  {
    if |lines| > 0 {
      LastIsKept(lines);
      KeysAreIdentifiers(lines[..|lines| - 1]);
    }
  }

  lemma {:induction false} GivenKeys(es: seq<Entry>)
    ensures Given(es).Keys == Elems(Keys(es))
  {
    if |es| > 0 {
      var n := |es| - 1;
      GivenKeys(es[..n]);
      assert Keys(es) == Keys(es[..n]) + [es[n].key];
    }
  }

  lemma {:induction false} GivenAt(es: seq<Entry>, i: nat)
    requires Distinct(Keys(es)) && i < |es|
    ensures Get(Given(es), es[i].key) == Some(es[i].value)
  {
    var n := |es| - 1;
    if i < n {
      assert Keys(es)[i] != Keys(es)[n];
      assert Keys(es[..n]) == Keys(es)[..n];
      GivenAt(es[..n], i);
    }
  }

  // ----- The first line of an entry -----

  // The quoted text up to the first line end.
  function FirstText(e: Entry): string { Quoted(e)[..LineLength(Quoted(e))] }

  lemma {:induction false} LineLengthAfter(a: string, b: string)
    requires Plain(a)
    ensures LineLength(a + b) == |a| + LineLength(b)
  {
    if |a| == 0 {
      assert a + b == b;
    } else {
      assert (a + b)[1..] == a[1..] + b;
      LineLengthAfter(a[1..], b);
    }
  }

  lemma HeadedSplit(head: string, q: string)
    requires Plain(head)
    ensures var lines := SplitLines((head + q) + ['\n']);
      |lines| > 0 && lines[0] == head + q[..LineLength(q)]
  {
    var s := (head + q) + ['\n'];
    LineLengthAfter(head, q);
    LineLengthEnds(head + q);
    SplitNext(s);
    assert s[..|head| + LineLength(q)] == head + q[..LineLength(q)];
  }

  lemma QuotedStart(e: Entry)
    ensures LineLength(Quoted(e)) > 0 && |FirstText(e)| > 0 && FirstText(e)[0] == Quoted(e)[0]
    ensures Quoted(e)[0] == if e.quote.Single? then '\'' else '"'
  {
    assert !IsLineEnd(Quoted(e)[0]);
  }

  lemma FirstLine(e: Entry)
    requires IsIdentifier(e.key)
    ensures |Chunk(e)| > 0 && Chunk(e)[0] == e.key + (['='] + FirstText(e))
  {
    var head := e.key + ['='];
    assert Plain(head) && RenderLine(e) == head + Quoted(e);
    HeadedSplit(head, Quoted(e));
    assert head + FirstText(e) == e.key + (['='] + FirstText(e));
  }

  lemma {:induction false} RStripTail(a: string, x: string)
    requires |x| > 0 && !IsSpace(x[0])
    ensures RStrip(a + x) == a + RStrip(x)
    decreases |x|
  {
    var n := |x| - 1;
    assert (a + x)[|a + x| - 1] == x[n];
    if IsSpace(x[n]) {
      assert (a + x)[..|a + x| - 1] == a + x[..n];
      RStripTail(a, x[..n]);
    }
  }

  lemma {:induction false} RStripTwice(x: string)
    ensures RStrip(RStrip(x)) == RStrip(x) && RStrip(x) <= x
  {
    if |x| > 0 && IsSpace(x[|x| - 1]) { RStripTwice(x[..|x| - 1]); }
  }

  lemma StripSolidHead(x: string)
    requires |x| > 0 && !IsSpace(x[0])
    ensures Strip(x) == RStrip(x) && Strip(RStrip(x)) == RStrip(x) && |RStrip(x)| > 0 && RStrip(x)[0] == x[0]
  {
    RStripKeepsFirst(x);
    RStripTwice(x);
  }

  // Such a line assigns to its key, or is an error.
  lemma KeyedLine(key: string, x: string, known: set<string>)
    requires IsIdentifier(key) && |x| > 0 && !IsSpace(x[0])
    ensures ParseLine(key + (['='] + x), known) ==
      if key in known then Err(DuplicateKey)
      else match ParseValue(RStrip(x)) case Err(e) => Err(e) case Ok(v) => Ok(Assign(key, v))
  {
    var head, raw := key + ['='], key + (['='] + x);
    assert raw == head + x && raw[0] == key[0];
    StripSolidHead(raw);
    RStripTail(head, x);
    StripSolidHead(x);
    StripSolid(key);
    StrippedLine(key, RStrip(x), Strip(raw), known);
    StrippedParses(raw, Strip(raw), key, RStrip(x), known);
  }

  lemma StrippedLine(key: string, x: string, line: string, known: set<string>)
    requires IsIdentifier(key) && line == (key + ['=']) + x
    ensures IndexOf(line, '=') == |key| < |line| && line[..|key|] == key && line[|key| + 1..] == x && line[0] == key[0]
  {
    assert line == key + (['='] + x);
    KeyEndsAtEquals(key, x);
  }

  lemma StrippedParses(raw: string, line: string, key: string, x: string, known: set<string>)
    requires IsIdentifier(key) && Strip(key) == key && Strip(x) == x && Strip(raw) == line
    requires IndexOf(line, '=') == |key| < |line|
    requires line[..|key|] == key && line[|key| + 1..] == x && line[0] == key[0]
    ensures ParseLine(raw, known) ==
      if key in known then Err(DuplicateKey)
      else match ParseValue(x) case Err(e) => Err(e) case Ok(v) => Ok(Assign(key, v))
  {
  }

  // ----- Lines of a file that parses -----

  // What the first line of an entry assigns.
  function LineValue(e: Entry): Result<string, EnvError> { ParseValue(RStrip(FirstText(e))) }

  predicate AllIdentifiers(es: seq<Entry>) { forall i :: 0 <= i < |es| ==> IsIdentifier(es[i].key) }

  lemma LineTaken(before: seq<string>, key: string, x: string) returns (v: string)
    requires IsIdentifier(key) && |x| > 0 && !IsSpace(x[0]) && ParseLines(before).Ok?
    requires ParseLines(before + [key + (['='] + x)]).Ok?
    ensures key !in ParseLines(before).value && ParseValue(RStrip(x)) == Ok(v)
    ensures Get(ParseLines(before + [key + (['='] + x)]).value, key) == Some(v)
  {
    var lines := before + [key + (['='] + x)];
    assert lines[..|before|] == before;
    KeyedLine(key, x, ParseLines(before).value.Keys);
    v := ParseValue(RStrip(x)).value;
  }

  // ----- Which entries read back as they were -----

  // What single quotes give back holds no quote and only characters of the text.
  lemma SingleValueIsClean(val: string, v: string)
    requires |val| > 0 && val[0] == '\'' && ParseValue(val) == Ok(v)
    ensures '\'' !in v && forall c :: c in v ==> c in val
  {
    var i := 1 + IndexOf(val[1..], '\'');
    assert v == val[1..i];
    assert forall j :: 1 <= j < i ==> val[j] == val[1..][j - 1];
  }

  lemma SingleLineEnds(e: Entry)
    requires e.quote.Single? && LineValue(e) == Ok(e.value)
    ensures '\'' !in e.value && forall c :: c in e.value ==> !IsLineEnd(c)
  {
    var x := FirstText(e);
    QuotedStart(e);
    StripSolidHead(x);
    SingleValueIsClean(RStrip(x), e.value);
    RStripTwice(x);
    FirstTextIsPlain(Quoted(e));
  }

  lemma {:induction false} FirstTextIsPlain(s: string)
    ensures forall c :: c in s[..LineLength(s)] ==> !IsLineEnd(c)
  {
    if |s| > 0 && !IsLineEnd(s[0]) {
      FirstTextIsPlain(s[1..]);
      assert s[..LineLength(s)] == [s[0]] + s[1..][..LineLength(s[1..])];
    }
  }

  lemma {:induction false} RunBeforeSame(a: string, b: string, i: nat)
    requires a <= b && 1 <= i <= |a|
    ensures RunBefore(a, i) == RunBefore(b, i)
    decreases i
  {
    if i > 1 { RunBeforeSame(a, b, i - 1); }
  }

  // An escaped text cut before its closing quote never closes.
  lemma CutNeverCloses(v: string, y: string)
    requires y <= ['"'] + (Escape(v) + ['"']) && 0 < |y| <= 1 + |Escape(v)|
    ensures ParseValue(y).Err?
  {
    var whole := ['"'] + (Escape(v) + ['"']);
    assert ['"'] + [] == ['"'];
    ScanEscaped(['"'], v, []);
    assert whole == ['"'] + (Escape(v) + (['"'] + []));
    ScannerClosesAtFirstEvenQuote(whole);
    ScannerClosesAtFirstEvenQuote(y);
    forall k | 1 <= k < |y| ensures !Closes(y, k) {
      RunBeforeSame(y, whole, k);
      assert !Closes(whole, k);
    }
  }

  lemma {:induction false} EscapeShows(v: string, c: char)
    requires c in v && !IsControl(c)
    ensures c in Escape(v)
  {
    assert v == [v[0]] + v[1..];
    if c == v[0] {
      assert EscapeChar(c)[|EscapeChar(c)| - 1] == c;
    } else {
      EscapeShows(v[1..], c);
    }
  }

  lemma LineEndCuts(s: string, c: char)
    requires c in s && IsLineEnd(c)
    ensures LineLength(s) < |s|
  {
    FirstTextIsPlain(s);
    assert s[..|s|] == s;
  }

  lemma DoubleLineEnds(e: Entry)
    requires e.quote.Double? && LineValue(e).Ok?
    ensures forall c :: c in e.value && IsLineEnd(c) ==> IsControl(c)
  {
    var q, x := Quoted(e), FirstText(e);
    forall c | c in e.value && IsLineEnd(c) ensures IsControl(c) {
      if !IsControl(c) {
        EscapeShows(e.value, c);
        assert c in q;
        LineEndCuts(q, c);
        CutIsError(e);
        assert false;
      }
    }
  }

  lemma CutIsError(e: Entry)
    requires e.quote.Double? && LineLength(Quoted(e)) < |Quoted(e)|
    ensures LineValue(e).Err?
  {
    var q, x := Quoted(e), FirstText(e);
    QuotedStart(e);
    StripSolidHead(x);
    RStripTwice(x);
    CutNeverCloses(e.value, RStrip(x));
  }

  predicate NulFree(e: Entry) { NUL !in e.value }

  lemma ReadBackIsStorable(e: Entry)
    requires IsIdentifier(e.key) && NulFree(e) && LineValue(e) == Ok(e.value)
    ensures Storable(e)
  {
    if e.quote.Single? { SingleLineEnds(e); } else { DoubleLineEnds(e); }
    assert forall i :: 0 <= i < |e.value| ==> e.value[i] in e.value;
  }

  lemma NulShows(e: Entry)
    requires !NulFree(e)
    ensures NUL in RenderLine(e)
  {
    if e.quote.Double? { EscapeShows(e.value, NUL); }
    assert NUL in Quoted(e);
  }

  lemma {:induction false} RenderShowsNul(es: seq<Entry>, i: nat)
    requires i < |es| && !NulFree(es[i])
    ensures NUL in Render(es)
  {
    if i == 0 {
      NulShows(es[0]);
    } else {
      RenderShowsNul(es[1..], i - 1);
    }
  }

  // ----- Which files read back as they were -----

  // The parsed file has the key, and if the entry's own value, then the entry is storable.
  ghost predicate CleanIn(e: Entry, m: map<string, string>) {
    e.key in m && (m[e.key] == e.value && NulFree(e) ==> Storable(e))
  }

  ghost predicate AllClean(es: seq<Entry>, m: map<string, string>) {
    forall i {:trigger CleanIn(es[i], m)} :: 0 <= i < |es| ==> CleanIn(es[i], m)
  }

  lemma FirstLineTaken(before: seq<string>, e: Entry)
    requires IsIdentifier(e.key) && ParseLines(before + Chunk(e)).Ok?
    ensures ParseLines(before).Ok? && e.key !in ParseLines(before).value
    ensures CleanIn(e, ParseLines(before + Chunk(e)).value)
    ensures Kept(ParseLines(before).value, ParseLines(before + Chunk(e)).value)
  {
    FirstLine(e);
    QuotedStart(e);
    var all, first := before + Chunk(e), before + [Chunk(e)[0]];
    assert all[..|before|] == before && all[..|before| + 1] == first;
    PrefixIsKept(all, |before|);
    PrefixIsKept(all, |before| + 1);
    var v := LineTaken(before, e.key, FirstText(e));
    ValueIsClean(e, v, ParseLines(all).value);
  }

  lemma ValueIsClean(e: Entry, v: string, m: map<string, string>)
    requires IsIdentifier(e.key) && LineValue(e) == Ok(v) && Get(m, e.key) == Some(v)
    ensures CleanIn(e, m)
  {
    if v == e.value && NulFree(e) { ReadBackIsStorable(e); }
  }

  function Parsed(es: seq<Entry>): Result<map<string, string>, EnvError> { ParseLines(Flat(Chunks(es))) }

  lemma LastEntryTaken(es: seq<Entry>)
    requires |es| > 0 && IsIdentifier(es[|es| - 1].key) && Parsed(es).Ok?
    ensures Parsed(es[..|es| - 1]).Ok? && es[|es| - 1].key !in Parsed(es[..|es| - 1]).value
    ensures CleanIn(es[|es| - 1], Parsed(es).value) && Kept(Parsed(es[..|es| - 1]).value, Parsed(es).value)
  {
    EachLast(Chunk, es);
    FirstLineTaken(Flat(Chunks(es[..|es| - 1])), es[|es| - 1]);
  }

  // Every entry's first line assigns a key of its own.
  lemma {:induction false} EntriesAreClean(es: seq<Entry>, parsed: map<string, string>)
    requires AllIdentifiers(es) && Parsed(es) == Ok(parsed)
    ensures Distinct(Keys(es)) && AllClean(es, parsed)
  {
    if |es| > 0 {
      var before := es[..|es| - 1];
      LastEntryTaken(es);
      EntriesAreClean(before, Parsed(before).value);
      OneMoreClean(before, es[|es| - 1], Parsed(before).value, parsed);
      LastIsLast(es);
    }
  }

  lemma LastIsLast(es: seq<Entry>)
    requires |es| > 0
    ensures es == es[..|es| - 1] + [es[|es| - 1]]
  {
  }

  lemma OneMoreClean(es: seq<Entry>, e: Entry, m: map<string, string>, more: map<string, string>)
    requires Distinct(Keys(es)) && AllClean(es, m) && Kept(m, more) && e.key !in m && CleanIn(e, more)
    ensures Distinct(Keys(es + [e])) && AllClean(es + [e], more)
  {
    var all := es + [e];
    forall i {:trigger CleanIn(all[i], more)} | 0 <= i < |all| ensures CleanIn(all[i], more) {
      if i < |es| { assert CleanIn(es[i], m); }
    }
    forall i | 0 <= i < |es| ensures Keys(es)[i] != e.key {
      assert CleanIn(es[i], m);
    }
    assert Keys(all) == Keys(es) + [e.key];
    DistinctAppend(Keys(es), e.key);
  }

  // ----- The theorem -----

  ghost predicate RoundTrips(es: seq<Entry>) { ParseContent(Render(es)) == Ok(Given(es)) }

  lemma ParsedFile(es: seq<Entry>)
    requires RoundTrips(es)
    ensures AllIdentifiers(es) && Parsed(es) == Ok(Given(es))
    ensures forall i :: 0 <= i < |es| ==> NulFree(es[i])
  {
    RenderedLines(es);
    KeysAreIdentifiers(Flat(Chunks(es)));
    GivenKeys(es);
    forall i | 0 <= i < |es| ensures IsIdentifier(es[i].key) && NulFree(es[i]) {
      assert Keys(es)[i] in Elems(Keys(es));
      if !NulFree(es[i]) { RenderShowsNul(es, i); }
    }
  }

  lemma RoundTripIsWellFormed(es: seq<Entry>)
    requires RoundTrips(es)
    ensures WellFormed(es)
  {
    ParsedFile(es);
    EntriesAreClean(es, Given(es));
    forall i | 0 <= i < |es| ensures Storable(es[i]) {
      GivenAt(es, i);
      assert CleanIn(es[i], Given(es));
    }
  }

  lemma {:induction false} LoadedIsGivenIff(es: seq<Entry>)
    requires Distinct(Keys(es))
    ensures Loaded(es) == Given(es) <==> forall i :: 0 <= i < |es| ==> Survives(es[i])
  {
    forall i | 0 <= i < |es| ensures Get(Loaded(es), es[i].key) == Get(Given(es), es[i].key) <==> Survives(es[i]) {
      LoadedAt(es, i);
      GivenAt(es, i);
      ReadBackIff(es[i]);
    }
    LoadedKeys(es);
    GivenKeys(es);
    if forall i :: 0 <= i < |es| ==> Survives(es[i]) {
      forall k | k in Given(es) ensures Loaded(es)[k] == Given(es)[k] {
        var i :| 0 <= i < |es| && Keys(es)[i] == k;
        assert Get(Loaded(es), es[i].key) == Get(Given(es), es[i].key);
      }
    }
  }

  // For any entries at all: the file parses back to what it was meant to say
  // if and only if the keys are distinct identifiers, no value holds NUL, a line
  // end that its quotes do not escape or, between single quotes, a single quote,
  // and no double-quoted value has a backslash directly before n, r or t.
  lemma FileRoundTripsIff(es: seq<Entry>)
    ensures RoundTrips(es) <==> WellFormed(es) && forall i :: 0 <= i < |es| ==> Survives(es[i])
  {
    if RoundTrips(es) { RoundTripIsWellFormed(es); }
    if WellFormed(es) {
      FileIsLoaded(es);
      LoadedIsGivenIff(es);
    }
  }
}
