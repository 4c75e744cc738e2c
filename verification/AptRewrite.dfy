/** `rewrite` of scripts/browser_acquisition.py: parsing a source file and replacing its URIs. */
module AptRewrite {
  import opened Wrappers
  import opened Splice
  import opened AptText
  import opened AptSources
  import Lines

  /** A line with its words replaced from `start` on. */
  function RewriteLine(lx: Lexer, rule: Rule, line: string, start: nat): string {
    Head(line, start) + Text(Rewrite(rule, lx.words(Tail(line, start))))
  }

  ghost predicate RewritesLine(lx: Lexer, rule: Rule, line: string, line': string, field: Field, start: nat) {
    lx.kind(field, line) == Value(Uris, start) && line' == RewriteLine(lx, rule, line, start)
  }

  /** Each line is as it was, or has the words of its URI value replaced. */
  ghost predicate LineByLine(lx: Lexer, rule: Rule, lines: seq<string>, lines': seq<string>) {
    && |lines'| == |lines|
    && forall i :: 0 <= i < |lines| ==>
         lines'[i] == lines[i] || exists field, start :: RewritesLine(lx, rule, lines[i], lines'[i], field, start)
  }

  /** A replaced URI value is still a URI value with the replaced words in it; the lines of the
      replaced text are the replaced lines; and replacing a word again changes nothing. */
  ghost predicate Stable(lx: Lexer, rule: Rule) {
    && Cuts(lx)
    && (forall field, line, line', start :: RewritesLine(lx, rule, line, line', field, start) ==>
          && lx.kind(field, line') == Value(Uris, start) && Head(line', start) == Head(line, start)
          && lx.words(Tail(line', start)) == Rewrite(rule, lx.words(Tail(line, start))))
    && (forall text, lines' :: LineByLine(lx, rule, lx.lines(text), lines') ==>
         lx.lines(Lines.Concat(lines')) == lines')
    && (forall s :: Settled(rule, lx.words(s)))
  }

  ghost predicate Settled(rule: Rule, fragments: seq<Fragment>) {
    forall f :: f in fragments && f.Token? ==>
      f.text != "" && Rewritten(rule, Rewritten(rule, f.text)) == Rewritten(rule, f.text)
  }

  function NewLine(lx: Lexer, rule: Rule, line: string, kind: Kind, active: bool): string {
    if kind.Value? && kind.field == Uris && active then RewriteLine(lx, rule, line, kind.start) else line
  }

  function NewLines(lx: Lexer, rule: Rule, lines: seq<string>, field: Field, enabled: seq<string>): seq<string> {
    if lines == [] then []
    else
      var kind := lx.kind(field, lines[0]);
      [NewLine(lx, rule, lines[0], kind, Active(lx, lines, field, enabled))]
      + NewLines(lx, rule, lines[1..], NextField(kind, field), NextEnabled(lx, kind, lines[0], enabled))
  }

  lemma NewLineFragments(lx: Lexer, rule: Rule, line: string, field: Field, active: bool)
    requires Stable(lx, rule)
    ensures var kind := lx.kind(field, line);
            var line' := NewLine(lx, rule, line, kind, active);
            && lx.kind(field, line') == kind
            && EnabledWords(lx, kind, line') == EnabledWords(lx, kind, line)
            && LineFragments(lx, line', kind, active) == Rewrite(rule, LineFragments(lx, line, kind, active))
            && line' == Text(Rewrite(rule, LineFragments(lx, line, kind, active)))
  {
    var kind := lx.kind(field, line);
    if kind.Value? && kind.field == Uris && active {
      var line' := RewriteLine(lx, rule, line, kind.start);
      assert RewritesLine(lx, rule, line, line', field, kind.start);
      RewriteSplit(rule, [Keep(Head(line, kind.start))], lx.words(Tail(line, kind.start)));
      RewriteKeep(rule, Head(line, kind.start));
      TextAppend([Keep(Head(line, kind.start))], Rewrite(rule, lx.words(Tail(line, kind.start))));
      TextOne(Head(line, kind.start));
    } else {
      RewriteKeep(rule, line);
      TextOne(line);
    }
  }

  lemma NewFirst(lx: Lexer, rule: Rule, lines: seq<string>, field: Field, enabled: seq<string>)
    requires lines != []
    ensures var kind := lx.kind(field, lines[0]);
            var lines' := NewLines(lx, rule, lines, field, enabled);
            && lines' != [] && lines'[0] == NewLine(lx, rule, lines[0], kind, Active(lx, lines, field, enabled))
            && lines'[1..] == NewLines(lx, rule, lines[1..], NextField(kind, field),
                 NextEnabled(lx, kind, lines[0], enabled))
  {
  }

  /** The rewrite does not touch the value of Enabled. */
  lemma {:induction false} NewLater(lx: Lexer, rule: Rule, lines: seq<string>, field: Field, enabled: seq<string>)
    requires Stable(lx, rule)
    ensures Later(lx, NewLines(lx, rule, lines, field, enabled), field) == Later(lx, lines, field)
    decreases |lines|
  {
    if lines != [] {
      var kind := lx.kind(field, lines[0]);
      NewFirst(lx, rule, lines, field, enabled);
      NewLineFragments(lx, rule, lines[0], field, Active(lx, lines, field, enabled));
      NewLater(lx, rule, lines[1..], NextField(kind, field), NextEnabled(lx, kind, lines[0], enabled));
    }
  }

  lemma NewActive(lx: Lexer, rule: Rule, lines: seq<string>, field: Field, enabled: seq<string>)
    requires Stable(lx, rule) && lines != []
    ensures NewLines(lx, rule, lines, field, enabled) != []
    ensures Active(lx, NewLines(lx, rule, lines, field, enabled), field, enabled) == Active(lx, lines, field, enabled)
    ensures var kind := lx.kind(field, lines[0]);
            NextEnabled(lx, kind, NewLines(lx, rule, lines, field, enabled)[0], enabled)
              == NextEnabled(lx, kind, lines[0], enabled)
  {
    var kind := lx.kind(field, lines[0]);
    NewFirst(lx, rule, lines, field, enabled);
    NewLineFragments(lx, rule, lines[0], field, Active(lx, lines, field, enabled));
    NewLater(lx, rule, lines[1..], NextField(kind, field), NextEnabled(lx, kind, lines[0], enabled));
  }

  /** Parsing the rewritten lines finds the same fragments with every token replaced. */
  lemma {:induction false} NewFragments(lx: Lexer, rule: Rule, lines: seq<string>, field: Field, enabled: seq<string>)
    requires Stable(lx, rule)
    ensures Fragments(lx, NewLines(lx, rule, lines, field, enabled), field, enabled)
         == Rewrite(rule, Fragments(lx, lines, field, enabled))
    ensures Lines.Concat(NewLines(lx, rule, lines, field, enabled))
      == Text(Rewrite(rule, Fragments(lx, lines, field, enabled)))
    decreases |lines|
  {
    if lines != [] {
      var kind := lx.kind(field, lines[0]);
      var active := Active(lx, lines, field, enabled);
      var first := LineFragments(lx, lines[0], kind, active);
      var more := Fragments(lx, lines[1..], NextField(kind, field), NextEnabled(lx, kind, lines[0], enabled));
      assert Fragments(lx, lines, field, enabled) == first + more;
      NewFirst(lx, rule, lines, field, enabled);
      NewLineFragments(lx, rule, lines[0], field, active);
      NewActive(lx, rule, lines, field, enabled);
      NewFragments(lx, rule, lines[1..], NextField(kind, field), NextEnabled(lx, kind, lines[0], enabled));
      RewriteSplit(rule, first, more);
      TextAppend(Rewrite(rule, first), Rewrite(rule, more));
    }
  }

  lemma {:induction false} NewLinesByLine(lx: Lexer, rule: Rule, lines: seq<string>, field: Field, enabled: seq<string>)
    ensures LineByLine(lx, rule, lines, NewLines(lx, rule, lines, field, enabled))
    decreases |lines|
  {
    if lines != [] {
      var kind := lx.kind(field, lines[0]);
      var lines' := NewLines(lx, rule, lines, field, enabled);
      NewFirst(lx, rule, lines, field, enabled);
      NewLinesByLine(lx, rule, lines[1..], NextField(kind, field), NextEnabled(lx, kind, lines[0], enabled));
      assert lines'[0] != lines[0] ==> RewritesLine(lx, rule, lines[0], lines'[0], field, kind.start);
      forall i | 0 < i < |lines|
        ensures lines'[i] == lines[i] || exists field, start ::
          RewritesLine(lx, rule, lines[i], lines'[i], field, start)
      {
        assert lines[1..][i - 1] == lines[i] && lines'[1..][i - 1] == lines'[i];
      }
    }
  }

  /** `rewrite`: parse, then splice from the right. */
  method RewriteText(lx: Lexer, rule: Rule, text: string) returns (r: string)
    requires Stable(lx, rule)
    ensures r == Text(Rewrite(rule, Document(lx, text)))
  {
    var spans := UriSpans(lx, text);
    DocumentCuts(lx, rule, text);
    SpliceRewrites(rule, Document(lx, text));
    r := ReplaceUris(rule, text, spans);
  }

  lemma {:induction false} FragmentsCut(lx: Lexer, rule: Rule, lines: seq<string>, field: Field, enabled: seq<string>)
    requires Stable(lx, rule)
    ensures Text(Fragments(lx, lines, field, enabled)) == Lines.Concat(lines)
    ensures Settled(rule, Fragments(lx, lines, field, enabled))
    decreases |lines|
  {
    if lines != [] {
      var kind := lx.kind(field, lines[0]);
      var first := LineFragments(lx, lines[0], kind, Active(lx, lines, field, enabled));
      var more := Fragments(lx, lines[1..], NextField(kind, field), NextEnabled(lx, kind, lines[0], enabled));
      LineFragmentsText(lx, lines[0], kind, Active(lx, lines, field, enabled));
      FragmentsCut(lx, rule, lines[1..], NextField(kind, field), NextEnabled(lx, kind, lines[0], enabled));
      TextAppend(first, more);
      assert kind.Value? ==> Settled(rule, lx.words(Tail(lines[0], kind.start)));
    }
  }

  lemma DocumentCuts(lx: Lexer, rule: Rule, text: string)
    requires Stable(lx, rule)
    ensures Text(Document(lx, text)) == text
    ensures Settled(rule, Document(lx, text)) && TokensNotEmpty(Document(lx, text))
  {
    FragmentsCut(lx, rule, lx.lines(text), Other, []);
  }

  /** Main result: parsing the rewritten file gives the tokens of the file, each replaced, each
      moved by what changed before it, in the same fragments of untouched text. */
  lemma RewriteParsesAgain(lx: Lexer, rule: Rule, text: string)
    requires Stable(lx, rule)
    ensures Document(lx, Text(Rewrite(rule, Document(lx, text)))) == Rewrite(rule, Document(lx, text))
  {
    var lines := lx.lines(text);
    var lines' := NewLines(lx, rule, lines, Other, []);
    NewFragments(lx, rule, lines, Other, []);
    NewLinesByLine(lx, rule, lines, Other, []);
    assert lx.lines(Lines.Concat(lines')) == lines';
  }

  /** Main result: rewriting a file a second time changes nothing. */
  lemma RewriteTwice(lx: Lexer, rule: Rule, text: string)
    requires Stable(lx, rule)
    ensures var once := Text(Rewrite(rule, Document(lx, text)));
            Text(Rewrite(rule, Document(lx, once))) == once
  {
    RewriteParsesAgain(lx, rule, text);
    DocumentCuts(lx, rule, text);
    var fs := Document(lx, text);
    assert Rewrite(rule, Rewrite(rule, fs)) == Rewrite(rule, fs);
  }
}
