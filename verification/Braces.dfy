/** `matchBrace` and `stripSerializedPayloads`: a string-aware brace scanner, and the excision of
    serialized runtime payloads from the text of a model's reasoning. */
module Braces {
  import opened Sequences

  // ----- reading text character by character

  /** Where the scanner is: outside strings, inside one, or just past a backslash in one. */
  datatype Mode = Outside | Inside | Escaped

  datatype Reader = Reader(depth: int, mode: Mode)

  function Read(r: Reader, ch: char): Reader {
    match r.mode
    case Escaped => r.(mode := Inside)
    case Inside => if ch == '\\' then r.(mode := Escaped) else if ch == '"' then r.(mode := Outside) else r
    case Outside =>
      if ch == '"' then r.(mode := Inside)
      else if ch == '{' then r.(depth := r.depth + 1)
      else if ch == '}' then r.(depth := r.depth - 1)
      else r
  }

  function ReadAll(r: Reader, text: string): Reader {
    if text == [] then r else Read(ReadAll(r, Front(text)), Last(text))
  }

  const START := Reader(0, Outside)

  /** The string-aware brace depth after reading text[open..i]. */
  function DepthAt(text: string, open: nat, i: nat): int
    requires open <= i <= |text|
  {
    ReadAll(START, text[open..i]).depth
  }

  lemma {:induction false} ReadConcat(r: Reader, a: string, b: string)
    ensures ReadAll(r, a + b) == ReadAll(ReadAll(r, a), b)
  {
    if b == [] {
      assert a + b == a;
    } else {
      assert Front(a + b) == a + Front(b) && Last(a + b) == Last(b);
      ReadConcat(r, a, Front(b));
    }
  }

  // ----- matchBrace

  /** The closing position: depth comes back to zero just there, for the first time. */
  ghost predicate ClosesAt(text: string, open: nat, end: nat) {
    && open < end <= |text|
    && DepthAt(text, open, end) == 0
    && forall i :: open < i < end ==> DepthAt(text, open, i) != 0
  }

  ghost predicate NeverCloses(text: string, open: nat)
    requires open <= |text|
  {
    forall i :: open < i <= |text| ==> DepthAt(text, open, i) != 0
  }

  /** The scan from position i on, as a function: what the loop below computes. */
  function Scan(text: string, i: nat, depth: int, inString: bool): (end: int)
    ensures end == -1 || i < end <= |text|
    decreases |text| - i
  {
    if i >= |text| then -1
    else if inString then
      if text[i] == '\\' then Scan(text, i + 2, depth, true)
      else Scan(text, i + 1, depth, text[i] != '"')
    else if text[i] == '"' then Scan(text, i + 1, depth, true)
    else if text[i] == '{' then Scan(text, i + 1, depth + 1, false)
    else if text[i] == '}' then
      if depth - 1 == 0 then i + 1 else Scan(text, i + 1, depth - 1, false)
    else Scan(text, i + 1, depth, false)
  }

  function MatchBraceAt(text: string, open: nat): int { Scan(text, open, 0, false) }

  method MatchBrace(text: string, open: nat) returns (end: int)
    ensures end == MatchBraceAt(text, open)
  {
    var depth, inString, i := 0, false, open;
    while i < |text|
      invariant Scan(text, i, depth, inString) == MatchBraceAt(text, open)
    {
      var ch := text[i];
      if inString {
        if ch == '\\' {
          i := i + 2;
          continue;
        }
        if ch == '"' { inString := false; }
        i := i + 1;
        continue;
      }
      if ch == '"' {
        inString := true;
        i := i + 1;
        continue;
      }
      if ch == '{' {
        depth := depth + 1;
      } else if ch == '}' {
        depth := depth - 1;
        if depth == 0 { return i + 1; }
      }
      i := i + 1;
    }
    return -1;
  }

  lemma ReadOneMore(text: string, open: nat, i: nat)
    requires open <= i < |text|
    ensures ReadAll(START, text[open..i + 1]) == Read(ReadAll(START, text[open..i]), text[i])
  {
    assert Front(text[open..i + 1]) == text[open..i];
  }

  /** The scan has got to position i, the depth not yet back to zero, and the reader is in state r there. */
  ghost predicate Reaches(text: string, open: nat, i: nat, r: Reader) {
    && open < i <= |text| && text[open] == '{'
    && r == ReadAll(START, text[open..i]) && r.mode != Escaped && r.depth >= 1
    && forall k :: open < k <= i ==> DepthAt(text, open, k) != 0
  }

  lemma EscapeIsPassed(text: string, open: nat, i: nat, r: Reader)
    requires Reaches(text, open, i, r) && i < |text| && r.mode == Inside && text[i] == '\\'
    ensures if i + 1 < |text| then Reaches(text, open, i + 2, r) else NeverCloses(text, open)
  {
    ReadOneMore(text, open, i);
    if i + 1 < |text| { ReadOneMore(text, open, i + 1); }
  }

  lemma CharacterIsPassed(text: string, open: nat, i: nat, r: Reader)
    requires Reaches(text, open, i, r) && i < |text|
    requires Read(r, text[i]).mode != Escaped
    ensures if Read(r, text[i]).depth >= 1 then Reaches(text, open, i + 1, Read(r, text[i]))
            else ClosesAt(text, open, i + 1)
  {
    ReadOneMore(text, open, i);
  }

  /** What the scan does next, as the reader sees it. */
  lemma ScanUnfolds(text: string, i: nat, r: Reader)
    requires i < |text| && r.mode != Escaped && r.depth >= 1
    ensures Scan(text, i, r.depth, r.mode == Inside) ==
            if r.mode == Inside && text[i] == '\\' then Scan(text, i + 2, r.depth, true)
            else
              var next := Read(r, text[i]);
              if next.depth == 0 then i + 1 else Scan(text, i + 1, next.depth, next.mode == Inside)
  {
  }

  ghost predicate EndsAt(text: string, open: nat, end: int)
    requires open <= |text|
  {
    if end == -1 then NeverCloses(text, open) else end >= 0 && ClosesAt(text, open, end)
  }

  lemma {:induction false} ScanContinues(text: string, open: nat, i: nat, r: Reader)
    requires Reaches(text, open, i, r)
    ensures EndsAt(text, open, Scan(text, i, r.depth, r.mode == Inside))
    decreases |text| - i
  {
    if i < |text| {
      ScanUnfolds(text, i, r);
      if r.mode == Inside && text[i] == '\\' {
        EscapeIsPassed(text, open, i, r);
        if i + 1 < |text| { ScanContinues(text, open, i + 2, r); }
      } else {
        CharacterIsPassed(text, open, i, r);
        if Read(r, text[i]).depth >= 1 { ScanContinues(text, open, i + 1, Read(r, text[i])); }
      }
    }
  }

  /** From an opening brace, `matchBrace` returns -1 exactly when string-aware depth never returns to zero,
      and otherwise the first position where it does. */
  lemma MatchBraceIsFirstReturn(text: string, open: nat)
    requires open < |text| && text[open] == '{'
    ensures MatchBraceAt(text, open) == -1 <==> NeverCloses(text, open)
    ensures MatchBraceAt(text, open) != -1 ==>
              MatchBraceAt(text, open) >= 0 && ClosesAt(text, open, MatchBraceAt(text, open))
  {
    ReadOneMore(text, open, open);
    assert text[open..open] == [];
    ScanContinues(text, open, open + 1, Reader(1, Outside));
  }

  lemma MatchBraceAtClose(text: string, open: nat, end: nat)
    requires ClosesAt(text, open, end) && text[open] == '{'
    ensures MatchBraceAt(text, open) == end
  {
    MatchBraceIsFirstReturn(text, open);
    var m := MatchBraceAt(text, open);
    assert m != -1;
    assert DepthAt(text, open, m) == 0;
  }

  // ----- JSON text (RFC 8259, sections 2 to 7)

  /** One character of a JSON string as written: itself, a two-character escape, or \uXXXX. */
  datatype Piece = Plain(ch: char) | Short(ch: char) | Hex(a: char, b: char, c: char, d: char) {
    predicate Wellformed() {
      match this
      case Plain(ch) => ch >= ' ' && ch != '"' && ch != '\\'
      case Short(ch) => ch in {'"', '\\', '/', 'b', 'f', 'n', 'r', 't'}
      case Hex(a, b, c, d) => IsHex(a) && IsHex(b) && IsHex(c) && IsHex(d)
    }

    function Print(): string {
      match this
      case Plain(ch) => [ch]
      case Short(ch) => ['\\', ch]
      case Hex(a, b, c, d) => ['\\', 'u', a, b, c, d]
    }
  }

  predicate IsHex(c: char) { '0' <= c <= '9' || 'a' <= c <= 'f' || 'A' <= c <= 'F' }

  predicate IsSpace(c: char) { c == ' ' || c == '\t' || c == '\n' || c == '\r' }

  predicate IsBlank(s: string) { forall i :: 0 <= i < |s| ==> IsSpace(s[i]) }

  /** A JSON value as written, insignificant whitespace included: after a value, a name, or a `{`, `[`,
      `:` or `,`. A bare literal stands for a number, true, false or null. */
  datatype Json =
    | Bare(literal: string)
    | Text(pieces: seq<Piece>)
    | Array(blank: string, items: Items)
    | Object(blank: string, members: Members)

  datatype Items = NoItems | Item(value: Json, after: string, blank: string, rest: Items)

  datatype Members =
    | NoMembers
    | Member(name: seq<Piece>, colonBlank: string, valueBlank: string, value: Json, after: string,
             blank: string, rest: Members)

  predicate IsBareChar(c: char) {
    'a' <= c <= 'z' || '0' <= c <= '9' || c == '+' || c == '-' || c == '.' || c == 'E'
  }

  predicate BareOk(s: string) { forall i :: 0 <= i < |s| ==> IsBareChar(s[i]) }

  predicate PiecesOk(ps: seq<Piece>) { forall p :: p in ps ==> p.Wellformed() }

  predicate JsonOk(j: Json) {
    match j
    case Bare(l) => BareOk(l)
    case Text(ps) => PiecesOk(ps)
    case Array(b, items) => IsBlank(b) && ItemsOk(items)
    case Object(b, ms) => IsBlank(b) && MembersOk(ms)
  }

  predicate ItemsOk(items: Items) {
    match items
    case NoItems => true
    case Item(v, a, b, rest) => JsonOk(v) && IsBlank(a) && IsBlank(b) && ItemsOk(rest)
  }

  predicate MembersOk(ms: Members) {
    match ms
    case NoMembers => true
    case Member(n, cb, vb, v, a, b, rest) =>
      PiecesOk(n) && IsBlank(cb) && IsBlank(vb) && JsonOk(v) && IsBlank(a) && IsBlank(b) && MembersOk(rest)
  }

  function PrintPieces(ps: seq<Piece>): string {
    if ps == [] then "" else PrintPieces(Front(ps)) + Last(ps).Print()
  }

  function PrintText(ps: seq<Piece>): string { "\"" + PrintPieces(ps) + "\"" }

  function Print(j: Json): string {
    match j
    case Bare(l) => l
    case Text(ps) => PrintText(ps)
    case Array(b, items) => "[" + b + PrintItems(items) + "]"
    case Object(b, ms) => "{" + b + PrintMembers(ms) + "}"
  }

  function PrintItems(items: Items): string {
    match items
    case NoItems => ""
    case Item(v, a, b, rest) => Print(v) + a + (if rest.NoItems? then "" else "," + b + PrintItems(rest))
  }

  function PrintMembers(ms: Members): string {
    match ms
    case NoMembers => ""
    case Member(n, cb, vb, v, a, b, rest) =>
      PrintText(n) + cb + ":" + vb + Print(v) + a
      + (if rest.NoMembers? then "" else "," + b + PrintMembers(rest))
  }

  // ----- printed JSON is balanced

  /** Reading the text never goes below the depth it starts from. */
  ghost predicate NeverBelow(text: string, r: Reader) {
    forall i :: 0 <= i <= |text| ==> ReadAll(r, text[..i]).depth >= r.depth
  }

  /** ... and comes back to where it started. */
  ghost predicate Steady(text: string, r: Reader) {
    ReadAll(r, text) == r && NeverBelow(text, r)
  }

  lemma SteadyEmpty(r: Reader)
    ensures Steady("", r)
  {
  }

  lemma OneMore(text: string, c: char, r: Reader)
    requires NeverBelow(text, r) && Read(ReadAll(r, text), c).depth >= r.depth
    ensures NeverBelow(text + [c], r)
    ensures ReadAll(r, text + [c]) == Read(ReadAll(r, text), c)
  {
    assert Front(text + [c]) == text;
    forall i | 0 <= i <= |text + [c]| ensures ReadAll(r, (text + [c])[..i]).depth >= r.depth {
      if i <= |text| {
        assert (text + [c])[..i] == text[..i];
      } else {
        assert (text + [c])[..i] == text + [c];
      }
    }
  }

  lemma SteadyConcat(a: string, b: string, r: Reader)
    requires Steady(a, r) && Steady(b, r)
    ensures Steady(a + b, r)
  {
    ReadConcat(r, a, b);
    forall i | 0 <= i <= |a + b| ensures ReadAll(r, (a + b)[..i]).depth >= r.depth {
      if i <= |a| {
        assert (a + b)[..i] == a[..i];
      } else {
        assert (a + b)[..i] == a + b[..i - |a|];
        ReadConcat(r, a, b[..i - |a|]);
      }
    }
  }

  predicate IsQuiet(c: char) { c != '{' && c != '}' && c != '"' }

  predicate Quiet(text: string) { forall i :: 0 <= i < |text| ==> IsQuiet(text[i]) }

  lemma {:induction false} QuietIsSteady(text: string, d: int)
    requires Quiet(text)
    ensures Steady(text, Reader(d, Outside))
  {
    if text != [] {
      QuietIsSteady(Front(text), d);
      OneMore(Front(text), Last(text), Reader(d, Outside));
      assert text == Front(text) + [Last(text)];
    }
  }

  /** Inside a string, nothing a well-formed piece holds ends the string or is counted. */
  lemma PieceIsSteady(p: Piece, d: int)
    requires p.Wellformed()
    ensures Steady(p.Print(), Reader(d, Inside))
  {
    var r := Reader(d, Inside);
    SteadyEmpty(r);
    match p
    case Plain(ch) =>
      OneMore("", ch, r);
      assert "" + [ch] == [ch];
    case Short(ch) =>
      OneMore("", '\\', r);
      OneMore("" + ['\\'], ch, r);
      assert "" + ['\\'] + [ch] == ['\\', ch];
    case Hex(a, b, c, e) =>
      OneMore("", '\\', r);
      OneMore("" + ['\\'], 'u', r);
      OneMore("" + ['\\'] + ['u'], a, r);
      OneMore("" + ['\\'] + ['u'] + [a], b, r);
      OneMore("" + ['\\'] + ['u'] + [a] + [b], c, r);
      OneMore("" + ['\\'] + ['u'] + [a] + [b] + [c], e, r);
      assert "" + ['\\'] + ['u'] + [a] + [b] + [c] + [e] == p.Print();
  }

  lemma {:induction false} PiecesAreSteady(ps: seq<Piece>, d: int)
    requires PiecesOk(ps)
    ensures Steady(PrintPieces(ps), Reader(d, Inside))
  {
    if ps == [] {
      SteadyEmpty(Reader(d, Inside));
    } else {
      PiecesAreSteady(Front(ps), d);
      assert ps[|ps| - 1] in ps;
      PieceIsSteady(Last(ps), d);
      SteadyConcat(PrintPieces(Front(ps)), Last(ps).Print(), Reader(d, Inside));
    }
  }

  /** An opening character, something steady at the state it leads to, and a character that leads back. */
  lemma Enclosed(open: char, body: string, close: char, r: Reader)
    requires Read(r, open).depth >= r.depth && Steady(body, Read(r, open)) && Read(Read(r, open), close) == r
    ensures Steady([open] + body + [close], r)
    ensures forall i :: 0 < i <= 1 + |body| ==>
              ReadAll(r, ([open] + body + [close])[..i]).depth >= Read(r, open).depth
  {
    var inner := Read(r, open);
    SteadyEmpty(r);
    OneMore("", open, r);
    assert "" + [open] == [open];
    forall i | 0 < i <= 1 + |body|
      ensures ReadAll(r, ([open] + body + [close])[..i]).depth >= inner.depth
      ensures ([open] + body + [close])[..i] == ([open] + body)[..i]
    {
      assert ([open] + body + [close])[..i] == [open] + body[..i - 1];
      ReadConcat(r, [open], body[..i - 1]);
    }
    assert ([open] + body)[..0] == "";
    ReadConcat(r, [open], body);
    OneMore([open] + body, close, r);
  }

  lemma TextIsSteady(ps: seq<Piece>, d: int)
    requires PiecesOk(ps)
    ensures Steady(PrintText(ps), Reader(d, Outside))
  {
    PiecesAreSteady(ps, d);
    Enclosed('"', PrintPieces(ps), '"', Reader(d, Outside));
  }

  /** A printed value is balanced, whatever braces, quotes or backslashes its strings hold. */
  lemma {:induction false} JsonIsSteady(j: Json, d: int)
    requires JsonOk(j)
    ensures Steady(Print(j), Reader(d, Outside))
    decreases j, 0
  {
    match j
    case Bare(l) => QuietIsSteady(l, d);
    case Text(ps) => TextIsSteady(ps, d);
    case Array(b, items) =>
      QuietIsSteady(b, d);
      ItemsAreSteady(items, d);
      Bracketed(b, PrintItems(items), d);
      PrintedArray(b, items);
    case Object(b, ms) =>
      ObjectBodyIsSteady(b, ms, d + 1);
      Enclosed('{', b + PrintMembers(ms), '}', Reader(d, Outside));
      PrintedObject(b, ms);
  }

  lemma Bracketed(b: string, body: string, d: int)
    requires Steady(b, Reader(d, Outside)) && Steady(body, Reader(d, Outside))
    ensures Steady(['['] + (b + body) + [']'], Reader(d, Outside))
  {
    SteadyConcat(b, body, Reader(d, Outside));
    Enclosed('[', b + body, ']', Reader(d, Outside));
  }

  lemma PrintedArray(b: string, items: Items)
    ensures Print(Array(b, items)) == ['['] + (b + PrintItems(items)) + [']']
  {
  }

  lemma PrintedObject(blank: string, members: Members)
    ensures Print(Object(blank, members)) == ['{'] + (blank + PrintMembers(members)) + ['}']
  {
  }

  lemma {:induction false} ObjectBodyIsSteady(b: string, ms: Members, d: int)
    requires IsBlank(b) && MembersOk(ms)
    ensures Steady(b + PrintMembers(ms), Reader(d, Outside))
    decreases ms, 1
  {
    QuietIsSteady(b, d);
    MembersAreSteady(ms, d);
    SteadyConcat(b, PrintMembers(ms), Reader(d, Outside));
  }

  lemma {:induction false} ItemsAreSteady(items: Items, d: int)
    requires ItemsOk(items)
    ensures Steady(PrintItems(items), Reader(d, Outside))
    decreases items, 0
  {
    var r := Reader(d, Outside);
    match items
    case NoItems => SteadyEmpty(r);
    case Item(v, a, b, rest) =>
      JsonIsSteady(v, d);
      QuietIsSteady(a, d);
      SteadyConcat(Print(v), a, r);
      if rest.NoItems? {
        assert PrintItems(items) == Print(v) + a;
      } else {
        QuietIsSteady("," + b, d);
        ItemsAreSteady(rest, d);
        SteadyConcat("," + b, PrintItems(rest), r);
        SteadyConcat(Print(v) + a, "," + b + PrintItems(rest), r);
      }
  }

  lemma {:induction false} MembersAreSteady(ms: Members, d: int)
    requires MembersOk(ms)
    ensures Steady(PrintMembers(ms), Reader(d, Outside))
    decreases ms, 0
  {
    var r := Reader(d, Outside);
    match ms
    case NoMembers => SteadyEmpty(r);
    case Member(n, cb, vb, v, a, b, rest) =>
      TextIsSteady(n, d);
      QuietIsSteady(cb, d);
      QuietIsSteady(":", d);
      QuietIsSteady(vb, d);
      JsonIsSteady(v, d);
      QuietIsSteady(a, d);
      HeadIsSteady(PrintText(n), cb, vb, Print(v), a, d);
      if rest != NoMembers {
        QuietIsSteady("," + b, d);
        MembersAreSteady(rest, d);
        SteadyConcat("," + b, PrintMembers(rest), r);
        SteadyConcat(PrintText(n) + cb + ":" + vb + Print(v) + a, "," + b + PrintMembers(rest), r);
      } else {
        assert PrintMembers(ms) == PrintText(n) + cb + ":" + vb + Print(v) + a;
      }
  }

  lemma HeadIsSteady(name: string, cb: string, vb: string, value: string, a: string, d: int)
    requires Steady(name, Reader(d, Outside)) && Steady(cb, Reader(d, Outside))
    requires Steady(":", Reader(d, Outside)) && Steady(vb, Reader(d, Outside))
    requires Steady(value, Reader(d, Outside)) && Steady(a, Reader(d, Outside))
    ensures Steady(name + cb + ":" + vb + value + a, Reader(d, Outside))
  {
    var r := Reader(d, Outside);
    SteadyConcat(name, cb, r);
    SteadyConcat(name + cb, ":", r);
    SteadyConcat(name + cb + ":", vb, r);
    SteadyConcat(name + cb + ":" + vb, value, r);
    SteadyConcat(name + cb + ":" + vb + value, a, r);
  }

  lemma DepthInContext(before: string, middle: string, after: string, i: nat)
    requires i <= |middle|
    ensures DepthAt(before + middle + after, |before|, |before| + i) == ReadAll(START, middle[..i]).depth
  {
    assert (before + middle + after)[|before|..|before| + i] == middle[..i];
  }

  lemma ObjectDepths(blank: string, members: Members)
    requires JsonOk(Object(blank, members))
    ensures var printed := Print(Object(blank, members));
            && printed[0] == '{'
            && ReadAll(START, printed) == START
            && forall i :: 0 < i < |printed| ==> ReadAll(START, printed[..i]).depth >= 1
  {
    var body := blank + PrintMembers(members);
    ObjectBodyIsSteady(blank, members, 1);
    Enclosed('{', body, '}', START);
    PrintedObject(blank, members);
  }

  lemma FirstInContext(before: string, printed: string, after: string)
    requires printed != ""
    ensures |before| < |before + printed + after| && (before + printed + after)[|before|] == printed[0]
  {
  }

  lemma OpenInContext(before: string, printed: string, after: string, i: nat)
    requires forall n :: 0 < n < |printed| ==> ReadAll(START, printed[..n]).depth >= 1
    requires |before| < i < |before| + |printed|
    ensures DepthAt(before + printed + after, |before|, i) != 0
  {
    DepthInContext(before, printed, after, i - |before|);
  }

  /** Started at the opening brace of a printed object, whatever precedes and follows it, `matchBrace`
      returns the index just past that object. */
  lemma MatchBraceSpansObject(before: string, blank: string, members: Members, after: string)
    requires JsonOk(Object(blank, members))
    ensures MatchBraceAt(before + Print(Object(blank, members)) + after, |before|)
         == |before| + |Print(Object(blank, members))|
  {
    var printed := Print(Object(blank, members));
    var text, open := before + printed + after, |before|;
    ObjectDepths(blank, members);
    FirstInContext(before, printed, after);
    forall i | open < i < open + |printed| ensures DepthAt(text, open, i) != 0 {
      OpenInContext(before, printed, after, i);
    }
    DepthInContext(before, printed, after, |printed|);
    assert printed[..|printed|] == printed;
    MatchBraceAtClose(text, open, open + |printed|);
  }

  // ----- stripSerializedPayloads

  /** Where the object opened at i is taken to end: where its brace closes, or the end of the text. */
  function SpanEnd(text: string, i: nat): (end: int)
    requires i < |text|
    ensures i < end <= |text|
  {
    if MatchBraceAt(text, i) == -1 then |text| else MatchBraceAt(text, i)
  }

  /** `marked` stands for the PAYLOAD_KEY test. */
  predicate IsPayload(marked: string -> bool, text: string, i: nat)
    requires i < |text|
  {
    text[i] == '{' && marked(text[i..SpanEnd(text, i)])
  }

  /** A reading of the text as characters kept and spans removed. */
  datatype Span = Kept(ch: char) | Removed(segment: string)

  function Spans(marked: string -> bool, text: string, i: nat): seq<Span>
    requires i <= |text|
    decreases |text| - i
  {
    if i == |text| then []
    else if IsPayload(marked, text, i)
    then [Removed(text[i..SpanEnd(text, i)])] + Spans(marked, text, SpanEnd(text, i))
    else [Kept(text[i])] + Spans(marked, text, i + 1)
  }

  function KeptText(spans: seq<Span>): string {
    if spans == [] then "" else (if spans[0].Kept? then [spans[0].ch] else "") + KeptText(spans[1..])
  }

  lemma SpansUnfold(marked: string -> bool, text: string, i: nat)
    requires i < |text|
    ensures Spans(marked, text, i) ==
            if IsPayload(marked, text, i)
            then [Removed(text[i..SpanEnd(text, i)])] + Spans(marked, text, SpanEnd(text, i))
            else [Kept(text[i])] + Spans(marked, text, i + 1)
  {
  }

  lemma KeptCons(span: Span, rest: seq<Span>)
    ensures KeptText([span] + rest) == (if span.Kept? then [span.ch] else "") + KeptText(rest)
  {
    Starts(span, rest);
  }

  lemma KeptStep(marked: string -> bool, text: string, i: nat)
    requires i < |text|
    ensures KeptText(Spans(marked, text, i)) ==
            if IsPayload(marked, text, i) then KeptText(Spans(marked, text, SpanEnd(text, i)))
            else [text[i]] + KeptText(Spans(marked, text, i + 1))
  {
    SpansUnfold(marked, text, i);
    if IsPayload(marked, text, i) {
      KeptCons(Removed(text[i..SpanEnd(text, i)]), Spans(marked, text, SpanEnd(text, i)));
    } else {
      KeptCons(Kept(text[i]), Spans(marked, text, i + 1));
    }
  }

  lemma Associates(a: string, ch: char, b: string)
    ensures (a + [ch]) + b == a + ([ch] + b)
  {
  }

  /** Where the payload object opened at i ends, if one is opened there. */
  method PayloadEnd(marked: string -> bool, text: string, i: nat) returns (end: Option<nat>)
    requires i < |text|
    ensures end == if IsPayload(marked, text, i) then Some(SpanEnd(text, i)) else None
  {
    if text[i] == '{' {
      var close := MatchBrace(text, i);
      var segment := if close == -1 then text[i..] else text[i..close];
      assert segment == text[i..SpanEnd(text, i)];
      if marked(segment) { return Some(if close == -1 then |text| else close); }
    }
    return None;
  }

  /** What the loop keeps constant: the text taken so far, and what is still to be taken from i on. */
  function Taken(marked: string -> bool, text: string, result: string, i: nat): string
    requires i <= |text|
  {
    result + KeptText(Spans(marked, text, i))
  }

  lemma TakenStep(marked: string -> bool, text: string, result: string, i: nat)
    requires i < |text|
    ensures Taken(marked, text, result, i) ==
            if IsPayload(marked, text, i) then Taken(marked, text, result, SpanEnd(text, i))
            else Taken(marked, text, result + [text[i]], i + 1)
  {
    KeptStep(marked, text, i);
    if !IsPayload(marked, text, i) { Associates(result, text[i], KeptText(Spans(marked, text, i + 1))); }
  }

  lemma TakenAtEnds(marked: string -> bool, text: string, result: string)
    ensures Taken(marked, text, "", 0) == KeptText(Spans(marked, text, 0))
    ensures Taken(marked, text, result, |text|) == result
  {
    assert KeptText(Spans(marked, text, |text|)) == "";
  }

  method StripSerializedPayloads(marked: string -> bool, text: string) returns (result: string)
    ensures result == KeptText(Spans(marked, text, 0))
  {
    result := "";
    var i := 0;
    while i < |text|
      invariant 0 <= i <= |text|
      invariant Taken(marked, text, result, i) == Taken(marked, text, "", 0)
    {
      TakenStep(marked, text, result, i);
      var end := PayloadEnd(marked, text, i);
      if end.Some? {
        i := end.value;
        continue;
      }
      result := result + [text[i]];
      i := i + 1;
    }
    TakenAtEnds(marked, text, result);
  }

  function SpanText(s: Span): string { match s case Kept(c) => [c] case Removed(t) => t }

  /** The rule a decomposition of text[i..] must obey. Every removed span starts at a brace, carries a
      marker, and is either what that brace closes, for the first time, or a tail in which it never closes;
      the span of every kept brace carries no marker. */
  ghost predicate Decomposes(marked: string -> bool, text: string, i: nat, spans: seq<Span>)
    requires i <= |text|
    decreases |spans|
  {
    if spans == [] then i == |text|
    else
      var end := i + |SpanText(spans[0])|;
      && i < end <= |text|
      && SpanText(spans[0]) == text[i..end]
      && Rightly(marked, text, i, end, spans[0])
      && Decomposes(marked, text, end, spans[1..])
  }

  ghost predicate Rightly(marked: string -> bool, text: string, i: nat, end: nat, span: Span)
    requires i < end <= |text|
  {
    match span
    case Removed(t) => text[i] == '{' && marked(t) && ObjectSpan(text, i, end)
    case Kept(c) => c == '{' ==> forall e :: i < e <= |text| && ObjectSpan(text, i, e) ==> !marked(text[i..e])
  }

  ghost predicate ObjectSpan(text: string, i: nat, end: nat)
    requires i < |text|
  {
    ClosesAt(text, i, end) || (end == |text| && NeverCloses(text, i))
  }

  lemma SpanEndIsTheSpan(text: string, i: nat, end: nat)
    requires i < end <= |text| && text[i] == '{'
    ensures ObjectSpan(text, i, end) <==> end == SpanEnd(text, i)
  {
    MatchBraceIsFirstReturn(text, i);
    if ClosesAt(text, i, end) { MatchBraceAtClose(text, i, end); }
  }

  lemma FirstSpanIsRight(marked: string -> bool, text: string, i: nat)
    requires i < |text|
    ensures if IsPayload(marked, text, i)
            then Rightly(marked, text, i, SpanEnd(text, i), Removed(text[i..SpanEnd(text, i)]))
            else Rightly(marked, text, i, i + 1, Kept(text[i]))
  {
    if text[i] == '{' {
      forall e | i < e <= |text| ensures ObjectSpan(text, i, e) <==> e == SpanEnd(text, i) {
        SpanEndIsTheSpan(text, i, e);
      }
    }
  }

  lemma DecomposesCons(marked: string -> bool, text: string, i: nat, span: Span, rest: seq<Span>)
    requires i < i + |SpanText(span)| <= |text| && SpanText(span) == text[i..i + |SpanText(span)|]
    requires Rightly(marked, text, i, i + |SpanText(span)|, span)
    requires Decomposes(marked, text, i + |SpanText(span)|, rest)
    ensures Decomposes(marked, text, i, [span] + rest)
  {
    Starts(span, rest);
  }

  lemma RemovedSpanDecomposes(marked: string -> bool, text: string, i: nat, end: nat, rest: seq<Span>)
    requires i < |text| && IsPayload(marked, text, i) && end == SpanEnd(text, i)
    requires Decomposes(marked, text, end, rest)
    ensures Decomposes(marked, text, i, [Removed(text[i..end])] + rest)
  {
    var span := Removed(text[i..end]);
    FirstSpanIsRight(marked, text, i);
    assert i + |SpanText(span)| == end;
    DecomposesCons(marked, text, i, span, rest);
  }

  lemma KeptSpanDecomposes(marked: string -> bool, text: string, i: nat, rest: seq<Span>)
    requires i < |text| && !IsPayload(marked, text, i) && Decomposes(marked, text, i + 1, rest)
    ensures Decomposes(marked, text, i, [Kept(text[i])] + rest)
  {
    FirstSpanIsRight(marked, text, i);
    DecomposesCons(marked, text, i, Kept(text[i]), rest);
  }

  lemma {:induction false} SpansDecompose(marked: string -> bool, text: string, i: nat)
    requires i <= |text|
    ensures Decomposes(marked, text, i, Spans(marked, text, i))
    decreases |text| - i
  {
    if i < |text| {
      SpansUnfold(marked, text, i);
      if IsPayload(marked, text, i) {
        SpansDecompose(marked, text, SpanEnd(text, i));
        RemovedSpanDecomposes(marked, text, i, SpanEnd(text, i), Spans(marked, text, SpanEnd(text, i)));
      } else {
        SpansDecompose(marked, text, i + 1);
        KeptSpanDecomposes(marked, text, i, Spans(marked, text, i + 1));
      }
    }
  }

  lemma RightSpanIsForced(marked: string -> bool, text: string, i: nat, end: nat, span: Span)
    requires i < end <= |text| && Rightly(marked, text, i, end, span) && SpanText(span) == text[i..end]
    ensures Spans(marked, text, i) == [span] + Spans(marked, text, end)
  {
    if text[i] == '{' {
      SpanEndIsTheSpan(text, i, SpanEnd(text, i));
      SpanEndIsTheSpan(text, i, end);
    }
    assert |text[i..end]| == end - i && text[i..end][0] == text[i];
  }

  /** There is exactly one such decomposition, and what the method returns is the text it keeps. */
  lemma {:induction false} DecompositionIsUnique(marked: string -> bool, text: string, i: nat, spans: seq<Span>)
    requires i <= |text| && Decomposes(marked, text, i, spans)
    ensures spans == Spans(marked, text, i)
    decreases |spans|
  {
    if spans != [] {
      var end := i + |SpanText(spans[0])|;
      RightSpanIsForced(marked, text, i, end, spans[0]);
      DecompositionIsUnique(marked, text, end, spans[1..]);
      assert spans == [spans[0]] + spans[1..];
    }
  }

  predicate NoPayload(marked: string -> bool, text: string, i: nat, j: nat)
    requires j <= |text|
  {
    forall k :: i <= k < j ==> !IsPayload(marked, text, k)
  }

  lemma ProseGrows(text: string, i: nat, j: nat, rest: string)
    requires i < j <= |text|
    ensures [text[i]] + (text[i + 1..j] + rest) == text[i..j] + rest
  {
    assert text[i..j] == [text[i]] + text[i + 1..j];
  }

  lemma {:induction false} ProseIsKept(marked: string -> bool, text: string, i: nat, j: nat)
    requires i <= j <= |text| && NoPayload(marked, text, i, j)
    ensures KeptText(Spans(marked, text, i)) == text[i..j] + KeptText(Spans(marked, text, j))
    decreases j - i
  {
    if i == j {
      assert text[i..j] == "";
    } else {
      KeptStep(marked, text, i);
      ProseIsKept(marked, text, i + 1, j);
      ProseGrows(text, i, j, KeptText(Spans(marked, text, j)));
    }
  }

  lemma {:induction false} PayloadShortens(marked: string -> bool, text: string, i: nat)
    requires i <= |text|
    ensures |KeptText(Spans(marked, text, i))| <= |text| - i
    ensures |KeptText(Spans(marked, text, i))| == |text| - i ==> NoPayload(marked, text, i, |text|)
    decreases |text| - i
  {
    if i < |text| {
      KeptStep(marked, text, i);
      PayloadShortens(marked, text, if IsPayload(marked, text, i) then SpanEnd(text, i) else i + 1);
    }
  }

  /** A text passes through untouched exactly when no brace in it opens a span with a marker: prose without
      one does, and so does any JSON without one. */
  lemma UntouchedIff(marked: string -> bool, text: string)
    ensures KeptText(Spans(marked, text, 0)) == text <==> NoPayload(marked, text, 0, |text|)
  {
    PayloadShortens(marked, text, 0);
    if NoPayload(marked, text, 0, |text|) {
      ProseIsKept(marked, text, 0, |text|);
      assert text[0..|text|] == text;
      assert Spans(marked, text, |text|) == [];
    }
  }

  lemma NoBraceNoPayload(marked: string -> bool, text: string, i: nat, j: nat)
    requires i <= j <= |text| && '{' !in text[i..j]
    ensures NoPayload(marked, text, i, j)
  {
    forall k | i <= k < j ensures text[k] != '{' { assert text[k] == text[i..j][k - i]; }
  }

  lemma PrintedPayloadIsPayload(marked: string -> bool, before: string, blank: string, members: Members,
                                after: string)
    requires JsonOk(Object(blank, members)) && marked(Print(Object(blank, members)))
    ensures var text := before + Print(Object(blank, members)) + after;
            && |before| < |text| && IsPayload(marked, text, |before|)
            && SpanEnd(text, |before|) == |before| + |Print(Object(blank, members))|
  {
    var printed := Print(Object(blank, members));
    var text := before + printed + after;
    MatchBraceSpansObject(before, blank, members, after);
    PrintedObject(blank, members);
    assert text[|before|] == '{';
    assert text[|before|..|before| + |printed|] == printed;
  }

  /** Brace-free prose around a printed payload object comes back as just the prose. */
  lemma StripsPrintedPayload(marked: string -> bool, before: string, blank: string, members: Members,
                             after: string)
    requires JsonOk(Object(blank, members)) && marked(Print(Object(blank, members)))
    requires '{' !in before && '{' !in after
    ensures KeptText(Spans(marked, before + Print(Object(blank, members)) + after, 0)) == before + after
  {
    var printed := Print(Object(blank, members));
    PrintedPayloadIsPayload(marked, before, blank, members, after);
    StripsAround(marked, before, printed, after);
  }

  lemma StripsAround(marked: string -> bool, before: string, middle: string, after: string)
    requires '{' !in before && '{' !in after && middle != ""
    requires IsPayload(marked, before + middle + after, |before|)
    requires SpanEnd(before + middle + after, |before|) == |before + middle|
    ensures KeptText(Spans(marked, before + middle + after, 0)) == before + after
  {
    var text := before + middle + after;
    var open, end := |before|, |before + middle|;
    assert text[0..open] == before && text[end..|text|] == after;
    NoBraceNoPayload(marked, text, 0, open);
    NoBraceNoPayload(marked, text, end, |text|);
    ProseIsKept(marked, text, 0, open);
    KeptStep(marked, text, open);
    ProseIsKept(marked, text, end, |text|);
    assert Spans(marked, text, |text|) == [];
  }

  /** A stream cut off inside a printed object is one in which its brace never closes. */
  lemma TruncatedObjectNeverCloses(before: string, blank: string, members: Members, n: nat)
    requires JsonOk(Object(blank, members)) && 0 < n < |Print(Object(blank, members))|
    ensures NeverCloses(before + Print(Object(blank, members))[..n], |before|)
  {
    var printed := Print(Object(blank, members));
    ObjectDepths(blank, members);
    var text := before + printed[..n];
    forall i | |before| < i <= |text| ensures DepthAt(text, |before|, i) != 0 {
      assert text[|before|..i] == printed[..i - |before|];
    }
  }

  /** Prose before a payload object that the stream cut short, once its marker had arrived, comes back as
      just the prose. */
  lemma StripsTruncatedPayload(marked: string -> bool, before: string, blank: string, members: Members, n: nat)
    requires JsonOk(Object(blank, members)) && 0 < n < |Print(Object(blank, members))|
    requires marked(Print(Object(blank, members))[..n]) && '{' !in before
    ensures KeptText(Spans(marked, before + Print(Object(blank, members))[..n], 0)) == before
  {
    var cut := Print(Object(blank, members))[..n];
    var text := before + cut;
    PrintedObject(blank, members);
    assert text[|before|] == '{' && text[|before|..|text|] == cut;
    TruncatedObjectNeverCloses(before, blank, members, n);
    MatchBraceIsFirstReturn(text, |before|);
    assert before + cut + "" == text && before + "" == before;
    StripsAround(marked, before, cut, "");
  }

  // ----- a stray brace

  lemma ReadOpen()
    ensures ReadAll(START, ['{']) == Reader(1, Outside)
  {
    assert Front(['{']) == [] && Last(['{']) == '{';
  }

  lemma ReadFromOpen(body: string, i: nat)
    requires i <= |body|
    ensures ReadAll(START, (['{'] + body)[..i + 1]) == ReadAll(Reader(1, Outside), body[..i])
  {
    var part := body[..i];
    assert (['{'] + body)[..i + 1] == ['{'] + part;
    ReadOpen();
    ReadConcat(START, ['{'], part);
  }

  lemma UnclosedSwallows(marked: string -> bool, body: string)
    requires Steady(body, Reader(1, Outside)) && marked(['{'] + body)
    ensures KeptText(Spans(marked, ['{'] + body, 0)) == ""
  {
    var text := ['{'] + body;
    forall i | 0 < i <= |text| ensures DepthAt(text, 0, i) != 0 {
      ReadFromOpen(body, i - 1);
      assert text[0..i] == text[..i];
    }
    MatchBraceIsFirstReturn(text, 0);
    assert text[0..|text|] == text;
    KeptStep(marked, text, 0);
    assert Spans(marked, text, |text|) == [];
  }

  lemma SteadyBody(before: string, printed: string, after: string, r: Reader)
    requires Steady(before, r) && Steady(printed, r) && Steady(after, r)
    ensures Steady(before + printed + after, r)
  {
    SteadyConcat(before, printed, r);
    SteadyConcat(before + printed, after, r);
  }

  lemma OpensBody(before: string, printed: string, after: string)
    ensures "{" + before + printed + after == ['{'] + (before + printed + after)
  {
  }

  /** A stray brace before a payload swallows everything: the object in the text closes, the stray brace never
      does, so its span is the whole text, prose after the payload included. */
  lemma StrayBraceSwallows(marked: string -> bool, before: string, blank: string, members: Members, after: string)
    requires JsonOk(Object(blank, members)) && Quiet(before) && Quiet(after)
    requires marked("{" + before + Print(Object(blank, members)) + after)
    ensures KeptText(Spans(marked, "{" + before + Print(Object(blank, members)) + after, 0)) == ""
  {
    var printed := Print(Object(blank, members));
    QuietIsSteady(before, 1);
    QuietIsSteady(after, 1);
    JsonIsSteady(Object(blank, members), 1);
    SteadyBody(before, printed, after, Reader(1, Outside));
    OpensBody(before, printed, after);
    UnclosedSwallows(marked, before + printed + after);
  }
}
