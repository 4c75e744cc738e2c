/** Lines of both source formats: deb822 stanzas and the one-line format. */
module AptLexer {
  import opened Wrappers
  import opened Splice
  import opened AptText
  import opened AptSources
  import opened AptRewrite
  import Lines

  // ---------------------------------------------------------------------------------
  // Rewritten lines keep their line breaks

  /** The line break and the first character of a line are kept, and no line break added. */
  ghost predicate SameShape(al: Alphabet, line: string, line': string) {
    && line != "" && line' != "" && line'[0] == line[0]
    && exists body :: NoBreak(al, body) && line' == body + line[Body(al, line)..]
  }

  lemma BodyClean(al: Alphabet, line: string)
    ensures NoBreak(al, line[..Body(al, line)])
  {
  }

  lemma ShapeParts(al: Alphabet, line: string, line': string)
    returns (head: string, body: string, ending: string)
    requires SameShape(al, line, line')
    ensures line == head + ending && line' == body + ending && NoBreak(al, head) && NoBreak(al, body)
    ensures ending == "" || al.lineBreak(ending[0])
  {
    var n := Body(al, line);
    body :| NoBreak(al, body) && line' == body + line[n..];
    head, ending := line[..n], line[n..];
    BodyClean(al, line);
  }

  lemma SameShapeEnds(al: Alphabet, line: string, line': string, rest: string, rest': string)
    requires SameShape(al, line, line') && LineEnd(al, line + rest) == |line|
    requires (rest == "" <==> rest' == "") && (rest != "" ==> rest'[0] == rest[0])
    ensures LineEnd(al, line' + rest') == |line'|
  {
    var head, body, ending := ShapeParts(al, line, line');
    SameNextChar(al, head, ending, rest, body, rest');
  }

  ghost predicate ShapesKept(al: Alphabet, lines: seq<string>, lines': seq<string>) {
    && |lines'| == |lines|
    && forall i :: 0 <= i < |lines| ==> lines'[i] == lines[i] || SameShape(al, lines[i], lines'[i])
  }

  lemma SelfShape(al: Alphabet, line: string)
    requires line != ""
    ensures SameShape(al, line, line)
  {
    BodyClean(al, line);
    assert line == line[..Body(al, line)] + line[Body(al, line)..];
  }

  lemma {:induction false} ProperStays(al: Alphabet, lines: seq<string>, lines': seq<string>)
    requires Proper(al, lines) && ShapesKept(al, lines, lines')
    ensures Proper(al, lines')
    ensures Lines.Concat(lines') == "" <==> Lines.Concat(lines) == ""
    ensures Lines.Concat(lines) != "" ==> Lines.Concat(lines')[0] == Lines.Concat(lines)[0]
  {
    if lines != [] {
      forall i | 0 <= i < |lines| - 1
        ensures lines'[1..][i] == lines[1..][i] || SameShape(al, lines[1..][i], lines'[1..][i])
      {
        assert lines[1..][i] == lines[i + 1] && lines'[1..][i] == lines'[i + 1];
      }
      ProperStays(al, lines[1..], lines'[1..]);
      SelfShape(al, lines[0]);
      SameShapeEnds(al, lines[0], lines'[0], Lines.Concat(lines[1..]), Lines.Concat(lines'[1..]));
    }
  }

  /** After the body of a line there is nothing but its line break. */
  lemma EndingIsBreak(al: Alphabet, line: string, rest: string)
    requires Sensible(al) && LineEnd(al, line + rest) == |line|
    ensures forall k :: Body(al, line) <= k < |line| ==> al.lineBreak(line[k])
  {
    var n := Body(al, line);
    BodyClean(al, line);
    LineEndAfter(al, line[..n], line[n..] + rest);
    assert line + rest == line[..n] + (line[n..] + rest);
    if n < |line| {
      assert (line[n..] + rest)[0] == line[n];
      assert |line[n..]| == 2 ==> (line[n..] + rest)[1] == line[n + 1];
    }
  }

  lemma {:induction false} ProperEndings(al: Alphabet, lines: seq<string>, i: nat)
    requires Sensible(al) && Proper(al, lines) && i < |lines|
    ensures lines[i] != "" && forall k :: Body(al, lines[i]) <= k < |lines[i]| ==> al.lineBreak(lines[i][k])
  {
    if i == 0 { EndingIsBreak(al, lines[0], Lines.Concat(lines[1..])); } else { ProperEndings(al, lines[1..], i - 1); }
  }

  // ---------------------------------------------------------------------------------
  // deb822

  function NameRun(al: Alphabet, s: string): (n: nat)
    ensures n <= |s|
  {
    if s == "" || al.space(s[0]) || s[0] == ':' then 0 else 1 + NameRun(al, s[1..])
  }

  /** What a line is, given the field that the lines before it left open. */
  function KindOf(al: Alphabet, names: string -> Field, field: Field, line: string): Kind {
    var i := SpaceRun(al, line);
    if i == |line| then Blank
    else if line[i] == '#' then Comment
    else if i > 0 then Value(field, 0)
    else
      var n := NameRun(al, line);
      if 0 < n < |line| && line[n] == ':' then Value(names(line[..n]), n + 1) else Value(Other, 0)
  }

  function Deb822(al: Alphabet, names: string -> Field, disables: seq<string> -> bool): Lexer {
    Lexer(text => SplitLines(al, text), (field, line) => KindOf(al, names, field, line), s => Words(al, s), disables)
  }

  lemma {:induction false} NameRunOf(al: Alphabet, s: string, t: string, n: nat)
    requires n == NameRun(al, s) < |s| && s[n] == ':' && n < |t| && t[..n + 1] == s[..n + 1]
    ensures NameRun(al, t) == n
    ensures NoBreak(al, s[..n]) || !Sensible(al)
  {
    assert t[0] == s[..n + 1][0];
    if n > 0 {
      assert t[1..][..n] == t[..n + 1][1..] && s[1..][..n] == s[..n + 1][1..];
      NameRunOf(al, s[1..], t[1..], n - 1);
      assert s[..n] == [s[0]] + s[1..][..n - 1];
    } else {
      assert s[..0] == "";
    }
  }

  lemma HeaderStays(al: Alphabet, names: string -> Field, field: Field, line: string, tail: string)
    requires Sensible(al) && SpaceRun(al, line) == 0 && line != "" && line[0] != '#'
    requires var n := NameRun(al, line); 0 < n < |line| && line[n] == ':'
    ensures var n := NameRun(al, line);
            KindOf(al, names, field, line[..n + 1] + tail) == Value(names(line[..n]), n + 1)
            && NoBreak(al, line[..n + 1])
  {
    var n := NameRun(al, line);
    var line' := line[..n + 1] + tail;
    assert line'[..n + 1] == line[..n + 1] && line'[0] == line[0];
    NameRunOf(al, line, line', n);
    assert line'[..n] == line[..n + 1][..n] == line[..n];
    assert line[..n + 1] == line[..n] + ":";
  }

  lemma UrisLineStays(al: Alphabet, names: string -> Field, rule: Rule, field: Field, line: string, start: nat)
    requires Sensible(al) && KeepsWords(al, rule) && KindOf(al, names, field, line) == Value(Uris, start)
    ensures start <= |line|
    ensures var line' := line[..start] + Rewords(al, rule, line[start..]);
            KindOf(al, names, field, line') == Value(Uris, start) && line' != "" && line'[0] == line[0]
            && line'[..start] == line[..start] && line'[start..] == Rewords(al, rule, line[start..])
    ensures NoBreak(al, line[..start])
  {
    if SpaceRun(al, line) > 0 {
      assert line[..0] + Rewords(al, rule, line[0..]) == Rewords(al, rule, line) && line[0..] == line;
      RewordsWords(al, rule, line);
      RewordsStart(al, rule, line);
    } else {
      HeaderStays(al, names, field, line, Rewords(al, rule, line[start..]));
    }
  }

  lemma UrisLineShape(al: Alphabet, names: string -> Field, rule: Rule, field: Field, line: string, start: nat)
    requires Sensible(al) && KeepsWords(al, rule) && KindOf(al, names, field, line) == Value(Uris, start)
    requires forall k :: Body(al, line) <= k < |line| ==> al.lineBreak(line[k])
    ensures start <= |line| && SameShape(al, line, line[..start] + Rewords(al, rule, line[start..]))
  {
    UrisLineStays(al, names, rule, field, line, start);
    BodyAfter(al, line, start);
    var s := line[start..];
    assert forall k :: Body(al, s) <= k < |s| ==> s[k] == line[start + k];
    var body := RewordsEnding(al, rule, s);
    assert s[Body(al, s)..] == line[Body(al, line)..];
    assert NoBreak(al, line[..start] + body);
    Associative(line[..start], body, line[Body(al, line)..]);
  }

  lemma Deb822Cuts(al: Alphabet, names: string -> Field, disables: seq<string> -> bool)
    ensures Cuts(Deb822(al, names, disables))
  {
    var lx := Deb822(al, names, disables);
    forall text ensures Lines.Concat(lx.lines(text)) == text { SplitLinesProper(al, text); }
    forall s ensures Text(lx.words(s)) == s { WordsCut(al, s); }
  }

  lemma WordsSettled(al: Alphabet, rule: Rule, s: string)
    requires KeepsWords(al, rule)
    ensures Settled(rule, Words(al, s))
  {
    WordsAreWords(al, s);
  }

  lemma Deb822Lines(al: Alphabet,
      names: string -> Field, disables: seq<string> -> bool, rule: Rule, text: string, lines': seq<string>)
    requires Sensible(al) && KeepsWords(al, rule)
    requires LineByLine(Deb822(al, names, disables), rule, SplitLines(al, text), lines')
    ensures SplitLines(al, Lines.Concat(lines')) == lines'
  {
    var lx := Deb822(al, names, disables);
    var lines := SplitLines(al, text);
    SplitLinesProper(al, text);
    forall i | 0 <= i < |lines|
      ensures lines'[i] == lines[i] || SameShape(al, lines[i], lines'[i])
    {
      if lines'[i] != lines[i] {
        var field, start :| RewritesLine(lx, rule, lines[i], lines'[i], field, start);
        ProperEndings(al, lines, i);
        UrisLineShape(al, names, rule, field, lines[i], start);
      }
    }
    ProperStays(al, lines, lines');
    ProperSplit(al, lines');
  }

  /** The deb822 format is stable under any rule that replaces words with words once and for all. */
  lemma Deb822Stable(al: Alphabet, names: string -> Field, disables: seq<string> -> bool, rule: Rule)
    requires Sensible(al) && KeepsWords(al, rule)
    ensures Stable(Deb822(al, names, disables), rule)
  {
    var lx := Deb822(al, names, disables);
    Deb822Cuts(al, names, disables);
    forall field, line, line', start | RewritesLine(lx, rule, line, line', field, start)
      ensures lx.kind(field, line') == Value(Uris, start) && Head(line', start) == Head(line, start)
      ensures lx.words(Tail(line', start)) == Rewrite(rule, lx.words(Tail(line, start)))
    {
      UrisLineStays(al, names, rule, field, line, start);
      RewordsWords(al, rule, line[start..]);
    }
    forall text, lines' | LineByLine(lx, rule, lx.lines(text), lines')
      ensures lx.lines(Lines.Concat(lines')) == lines'
    {
      Deb822Lines(al, names, disables, rule, text, lines');
    }
    forall s ensures Settled(rule, lx.words(s)) { WordsSettled(al, rule, s); }
  }
}
