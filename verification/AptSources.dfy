/** The deb822 parser of scripts/browser_acquisition.py: stanzas of fields, some continued
    over lines, some disabled by a field that may come after the URIs it disables. What a
    line is and what its words are is left to a lexer; AptLexer has the actual one. */
module AptSources {
  import opened Wrappers
  import opened Splice
  import opened AptText
  import Lines

  datatype Field = Uris | Enabled | Other

  /** A line by itself: blank, a comment, or part of the value of a field from `start` on. */
  datatype Kind = Blank | Comment | Value(field: Field, start: nat)

  /** `kind` says what a line is, given the field that the lines before it left open; `words`
      cuts up a value; `disables` says which Enabled values switch a stanza off. */
  datatype Lexer = Lexer(
    lines: string -> seq<string>,
    kind: (Field, string) -> Kind,
    words: string -> seq<Fragment>,
    disables: seq<string> -> bool)

  ghost predicate Cuts(lx: Lexer) {
    && (forall text :: Lines.Concat(lx.lines(text)) == text)
    && (forall s :: Text(lx.words(s)) == s)
  }

  function Head(line: string, start: nat): string { if start <= |line| then line[..start] else line }

  function Tail(line: string, start: nat): string { if start <= |line| then line[start..] else "" }

  function NextField(kind: Kind, field: Field): Field {
    match kind
    case Blank => Other
    case Comment => field
    case Value(f, _) => f
  }

  function TokenTexts(fragments: seq<Fragment>): seq<string> {
    if fragments == [] then []
    else (if fragments[0].Token? then [fragments[0].text] else []) + TokenTexts(fragments[1..])
  }

  /** The words a line adds to the Enabled value of its stanza. */
  function EnabledWords(lx: Lexer, kind: Kind, line: string): seq<string> {
    if kind.Value? && kind.field == Enabled then TokenTexts(lx.words(Tail(line, kind.start))) else []
  }

  /** The rest of the Enabled value of the stanza the lines start in. */
  function Later(lx: Lexer, lines: seq<string>, field: Field): seq<string> {
    if lines == [] || lx.kind(field, lines[0]) == Blank then []
    else
      var kind := lx.kind(field, lines[0]);
      EnabledWords(lx, kind, lines[0]) + Later(lx, lines[1..], NextField(kind, field))
  }

  function LineFragments(lx: Lexer, line: string, kind: Kind, active: bool): seq<Fragment> {
    if kind.Value? && kind.field == Uris && active
    then [Keep(Head(line, kind.start))] + lx.words(Tail(line, kind.start))
    else [Keep(line)]
  }

  function NextEnabled(lx: Lexer, kind: Kind, line: string, enabled: seq<string>): seq<string> {
    if kind == Blank then [] else enabled + EnabledWords(lx, kind, line)
  }

  /** Whether the stanza of the first line is switched on, given the part of its Enabled value
      already seen. */
  predicate Active(lx: Lexer, lines: seq<string>, field: Field, enabled: seq<string>)
    requires lines != []
  {
    var kind := lx.kind(field, lines[0]);
    !lx.disables(NextEnabled(lx, kind, lines[0], enabled) + Later(lx, lines[1..], NextField(kind, field)))
  }

  /** The URI tokens of all stanzas that are switched on, and everything else. */
  function Fragments(lx: Lexer, lines: seq<string>, field: Field, enabled: seq<string>): seq<Fragment> {
    if lines == [] then []
    else
      var kind := lx.kind(field, lines[0]);
      LineFragments(lx, lines[0], kind, Active(lx, lines, field, enabled))
      + Fragments(lx, lines[1..], NextField(kind, field), NextEnabled(lx, kind, lines[0], enabled))
  }

  function Document(lx: Lexer, text: string): seq<Fragment> {
    Fragments(lx, lx.lines(text), Other, [])
  }

  // ---------------------------------------------------------------------------------
  // The parser

  /** The variables of the parser between two lines. */
  datatype Progress = Progress(result: seq<Span>, pending: seq<Span>, enabled: seq<string>, field: Field, offset: nat)

  function Finished(lx: Lexer, p: Progress): seq<Span> {
    if lx.disables(p.enabled) then p.result else p.result + p.pending
  }

  function WordSpans(lx: Lexer, line: string, start: nat, offset: nat): seq<Span> {
    Positions(lx.words(Tail(line, start)), offset + |Head(line, start)|)
  }

  function AfterLine(lx: Lexer, p: Progress, line: string): Progress {
    match lx.kind(p.field, line)
    case Blank => Progress(Finished(lx, p), [], [], Other, p.offset + |line|)
    case Comment => Progress(p.result, p.pending, p.enabled, p.field, p.offset + |line|)
    case Value(field, start) =>
      Progress(p.result,
               if field == Uris then p.pending + WordSpans(lx, line, start, p.offset) else p.pending,
               if field == Enabled then p.enabled + TokenTexts(lx.words(Tail(line, start))) else p.enabled,
               field, p.offset + |line|)
  }

  function AfterLines(lx: Lexer, lines: seq<string>): Progress {
    if lines == [] then Progress([], [], [], Other, 0)
    else AfterLine(lx, AfterLines(lx, lines[..|lines| - 1]), lines[|lines| - 1])
  }

  lemma OneLineMore(lx: Lexer, lines: seq<string>, k: nat)
    requires k < |lines|
    ensures AfterLines(lx, lines[..k + 1]) == AfterLine(lx, AfterLines(lx, lines[..k]), lines[k])
  {
    assert lines[..k + 1][..k] == lines[..k];
  }

  /** `uri_spans` for .sources files. */
  method UriSpans(lx: Lexer, text: string) returns (result: seq<Span>)
    requires Cuts(lx)
    ensures result == Positions(Document(lx, text), 0)
  {
    result := [];
    var pending: seq<Span>, enabled: seq<string>, field := [], [], Other;
    var offset: nat := 0;
    var lines := lx.lines(text);
    for k := 0 to |lines|
      invariant Progress(result, pending, enabled, field, offset) == AfterLines(lx, lines[..k])
    {
      var line := lines[k];
      var kind := lx.kind(field, line);
      OneLineMore(lx, lines, k);
      if kind == Blank {
        if !lx.disables(enabled) {
          result := result + pending;
        }
        pending, enabled, field := [], [], Other;
      } else if kind.Value? {
        field := kind.field;
        if field == Uris {
          pending := pending + WordSpans(lx, line, kind.start, offset);
        } else if field == Enabled {
          enabled := enabled + TokenTexts(lx.words(Tail(line, kind.start)));
        }
      }
      offset := offset + |line|;
    }
    assert lines[..|lines|] == lines;
    ParserFinds(lx, lines);
    if !lx.disables(enabled) {
      result := result + pending;
    }
  }

  // ---------------------------------------------------------------------------------
  // The parser finds the tokens of the stanzas that are switched on

  /** What the parser will have found when the rest of the lines is read too. */
  function Found(lx: Lexer, p: Progress, rest: seq<string>): seq<Span> {
    p.result + (if lx.disables(p.enabled + Later(lx, rest, p.field)) then [] else p.pending)
    + Positions(Fragments(lx, rest, p.field, p.enabled), p.offset)
  }

  lemma ParserFinds(lx: Lexer, lines: seq<string>)
    requires Cuts(lx)
    ensures Finished(lx, AfterLines(lx, lines)) == Positions(Fragments(lx, lines, Other, []), 0)
  {
    ParserFindsRest(lx, lines, |lines|);
    assert lines[..|lines|] == lines && lines[|lines|..] == [];
    NothingLeft(lx, AfterLines(lx, lines));
  }

  lemma NothingLeft(lx: Lexer, p: Progress)
    ensures Found(lx, p, []) == Finished(lx, p)
  {
    assert p.enabled + [] == p.enabled;
  }

  lemma {:induction false} ParserFindsRest(lx: Lexer, lines: seq<string>, k: nat)
    requires Cuts(lx) && k <= |lines|
    ensures Found(lx, AfterLines(lx, lines[..k]), lines[k..]) == Positions(Fragments(lx, lines, Other, []), 0)
  {
    if k == 0 {
      assert lines[0..] == lines;
    } else {
      ParserFindsRest(lx, lines, k - 1);
      OneLineMore(lx, lines, k - 1);
      assert lines[k - 1..][1..] == lines[k..];
      FoundStep(lx, AfterLines(lx, lines[..k - 1]), lines[k - 1..]);
    }
  }

  lemma FoundStep(lx: Lexer, p: Progress, rest: seq<string>)
    requires Cuts(lx) && rest != []
    ensures Found(lx, p, rest) == Found(lx, AfterLine(lx, p, rest[0]), rest[1..])
  {
    match lx.kind(p.field, rest[0])
    case Blank => BlankStep(lx, p, rest);
    case _ => ValueStep(lx, p, rest);
  }

  lemma BlankStep(lx: Lexer, p: Progress, rest: seq<string>)
    requires Cuts(lx) && rest != [] && lx.kind(p.field, rest[0]) == Blank
    ensures Found(lx, p, rest) == Found(lx, AfterLine(lx, p, rest[0]), rest[1..])
  {
    FragmentsStep(lx, rest, p.field, p.enabled, p.offset);
    assert p.enabled + [] == p.enabled;
  }

  /** What a line changes, in the terms of the fragments. */
  lemma LineProgress(lx: Lexer, p: Progress, line: string, kind: Kind, active: bool)
    requires kind == lx.kind(p.field, line) && kind != Blank
    ensures var q := AfterLine(lx, p, line);
      && q.result == p.result && q.field == NextField(kind, p.field) && q.offset == p.offset + |line|
      && q.enabled == NextEnabled(lx, kind, line, p.enabled)
      && (if active then q.pending == p.pending + LineSpans(lx, line, kind, active, p.offset)
          else LineSpans(lx, line, kind, active, p.offset) == [])
  {
    assert p.enabled + [] == p.enabled;
    assert p.pending + [] == p.pending;
  }

  /** A line of a stanza moves its spans from the rest to what is pending. */
  lemma ValueStep(lx: Lexer, p: Progress, rest: seq<string>)
    requires Cuts(lx) && rest != [] && lx.kind(p.field, rest[0]) != Blank
    ensures Found(lx, p, rest) == Found(lx, AfterLine(lx, p, rest[0]), rest[1..])
  {
    var kind, active := lx.kind(p.field, rest[0]), Active(lx, rest, p.field, p.enabled);
    FragmentsStep(lx, rest, p.field, p.enabled, p.offset);
    LaterStep(lx, rest, p.field, p.enabled);
    LineProgress(lx, p, rest[0], kind, active);
    var q := AfterLine(lx, p, rest[0]);
    MovePending(p.result, p.pending, q.pending, LineSpans(lx, rest[0], kind, active, p.offset),
                Positions(Fragments(lx, rest[1..], q.field, q.enabled), q.offset), active);
  }

  lemma MovePending(a: seq<Span>, b: seq<Span>, b': seq<Span>, c: seq<Span>, d: seq<Span>, active: bool)
    requires if active then b' == b + c else c == []
    ensures a + (if active then b else []) + (c + d) == a + (if active then b' else []) + d
  {
    if active {
      Regroup(a, b, c, d);
    }
  }

  lemma Regroup(a: seq<Span>, b: seq<Span>, c: seq<Span>, d: seq<Span>)
    ensures (a + b) + (c + d) == a + (b + c) + d
  {
  }

  function LineSpans(lx: Lexer, line: string, kind: Kind, active: bool, at: nat): seq<Span> {
    if kind.Value? && kind.field == Uris && active then WordSpans(lx, line, kind.start, at) else []
  }

  /** The spans of the first line, and then those of the rest. */
  lemma FragmentsStep(lx: Lexer, rest: seq<string>, field: Field, enabled: seq<string>, offset: nat)
    requires Cuts(lx) && rest != []
    ensures var kind := lx.kind(field, rest[0]);
            Positions(Fragments(lx, rest, field, enabled), offset)
            == LineSpans(lx, rest[0], kind, Active(lx, rest, field, enabled), offset)
             + Positions(Fragments(lx, rest[1..], NextField(kind, field), NextEnabled(lx, kind, rest[0], enabled)),
                         offset + |rest[0]|)
  {
    var kind := lx.kind(field, rest[0]);
    var active := Active(lx, rest, field, enabled);
    var first := LineFragments(lx, rest[0], kind, active);
    var more := Fragments(lx, rest[1..], NextField(kind, field), NextEnabled(lx, kind, rest[0], enabled));
    assert Fragments(lx, rest, field, enabled) == first + more;
    LineFragmentsText(lx, rest[0], kind, active);
    assert Text(first) == rest[0];
    LinePositions(lx, rest[0], kind, active, offset);
    assert Positions(first, offset) == LineSpans(lx, rest[0], kind, active, offset);
    PositionsAppend(first, more, offset);
  }

  /** The Enabled value of the whole stanza does not change as its lines are read. */
  lemma LaterStep(lx: Lexer, rest: seq<string>, field: Field, enabled: seq<string>)
    requires rest != []
    ensures var kind := lx.kind(field, rest[0]);
            kind != Blank ==>
              enabled + Later(lx, rest, field)
              == NextEnabled(lx, kind, rest[0], enabled) + Later(lx, rest[1..], NextField(kind, field))
  {
    var kind := lx.kind(field, rest[0]);
    var a, b := EnabledWords(lx, kind, rest[0]), Later(lx, rest[1..], NextField(kind, field));
    assert enabled + (a + b) == enabled + a + b;
  }

  lemma LineFragmentsText(lx: Lexer, line: string, kind: Kind, active: bool)
    requires Cuts(lx)
    ensures Text(LineFragments(lx, line, kind, active)) == line
  {
    TextOne(line);
    if kind.Value? {
      TextAppend([Keep(Head(line, kind.start))], lx.words(Tail(line, kind.start)));
      TextOne(Head(line, kind.start));
    }
  }

  lemma LinePositions(lx: Lexer, line: string, kind: Kind, active: bool, at: nat)
    ensures Positions(LineFragments(lx, line, kind, active), at) == LineSpans(lx, line, kind, active, at)
  {
    if kind.Value? && kind.field == Uris && active {
      assert LineFragments(lx, line, kind, active)[1..] == lx.words(Tail(line, kind.start));
    }
  }
}
