/** Lines and words of an apt source file, as Python's str methods and patterns see them. */
module AptText {
  import opened Wrappers
  import opened Splice
  import Lines

  /** What counts as white space and as the end of a line, and whether a carriage return and a
      newline end one line together. */
  datatype Alphabet = Alphabet(space: char -> bool, lineBreak: char -> bool, crlf: bool)

  ghost predicate Sensible(al: Alphabet) {
    && (forall c :: al.lineBreak(c) ==> al.space(c))
    && !al.space('#') && !al.lineBreak(':') && al.lineBreak('\n')
  }

  // ---------------------------------------------------------------------------------
  // Lines

  /** The length of the first line, its line break included. */
  function LineEnd(al: Alphabet, text: string): (n: nat)
    ensures n <= |text| && (text != "" ==> n > 0)
  {
    if text == "" then 0
    else if al.lineBreak(text[0]) then
      if al.crlf && text[0] == '\r' && |text| > 1 && text[1] == '\n' then 2 else 1
    else 1 + LineEnd(al, text[1..])
  }

  function SplitLines(al: Alphabet, text: string): seq<string> {
    if text == "" then []
    else [text[..LineEnd(al, text)]] + SplitLines(al, text[LineEnd(al, text)..])
  }

  /** Lines that splitting their text finds again. */
  ghost predicate Proper(al: Alphabet, lines: seq<string>) {
    lines == [] ||
    (lines[0] != "" && LineEnd(al, lines[0] + Lines.Concat(lines[1..])) == |lines[0]| && Proper(al, lines[1..]))
  }

  lemma {:induction false} SplitLinesProper(al: Alphabet, text: string)
    ensures Lines.Concat(SplitLines(al, text)) == text && Proper(al, SplitLines(al, text))
    decreases |text|
  {
    if text != "" {
      var n := LineEnd(al, text);
      SplitLinesProper(al, text[n..]);
      assert SplitLines(al, text)[1..] == SplitLines(al, text[n..]);
      assert text[..n] + text[n..] == text;
    }
  }

  lemma {:induction false} ProperSplit(al: Alphabet, lines: seq<string>)
    requires Proper(al, lines)
    ensures SplitLines(al, Lines.Concat(lines)) == lines
  {
    if lines != [] {
      ProperSplit(al, lines[1..]);
      var text := Lines.Concat(lines);
      assert text[..|lines[0]|] == lines[0] && text[|lines[0]|..] == Lines.Concat(lines[1..]);
    }
  }

  ghost predicate NoBreak(al: Alphabet, s: string) { forall i :: 0 <= i < |s| ==> !al.lineBreak(s[i]) }

  lemma {:induction false} LineEndAfter(al: Alphabet, s: string, rest: string)
    requires NoBreak(al, s)
    ensures LineEnd(al, s + rest) == |s| + LineEnd(al, rest)
  {
    if s == "" {
      assert s + rest == rest;
    } else {
      LineEndAfter(al, s[1..], rest);
      assert (s + rest)[1..] == s[1..] + rest;
    }
  }

  /** A line is text without breaks and then its line break, if it has one. */
  function Body(al: Alphabet, line: string): (n: nat)
    ensures n <= |line| && NoBreak(al, line[..n]) && (n < |line| ==> al.lineBreak(line[n]))
  {
    if line == "" || al.lineBreak(line[0]) then 0 else 1 + Body(al, line[1..])
  }

  lemma Associative(a: string, b: string, c: string)
    ensures a + (b + c) == a + b + c
  {
  }

  lemma SameEnding(al: Alphabet, ending: string, rest: string, rest': string)
    requires ending == "" || al.lineBreak(ending[0])
    requires LineEnd(al, ending + rest) == |ending|
    requires (rest == "" <==> rest' == "") && (rest != "" ==> rest'[0] == rest[0])
    ensures LineEnd(al, ending + rest') == |ending|
  {
    if ending == "" {
      assert ending + rest == rest && ending + rest' == rest';
    } else {
      assert (ending + rest)[0] == ending[0] && (ending + rest')[0] == ending[0];
    }
  }

  /** Whether a line ends where it does depends only on its line break and the next character. */
  lemma SameNextChar(al: Alphabet, body: string, ending: string, rest: string, body': string, rest': string)
    requires NoBreak(al, body) && NoBreak(al, body') && (ending == "" || al.lineBreak(ending[0]))
    requires LineEnd(al, body + ending + rest) == |body + ending|
    requires (rest == "" <==> rest' == "") && (rest != "" ==> rest'[0] == rest[0])
    ensures LineEnd(al, body' + ending + rest') == |body' + ending|
  {
    LineEndAfter(al, body, ending + rest);
    Associative(body, ending, rest);
    SameEnding(al, ending, rest, rest');
    LineEndAfter(al, body', ending + rest');
    Associative(body', ending, rest');
  }

  // ---------------------------------------------------------------------------------
  // Words

  function SpaceRun(al: Alphabet, s: string): (n: nat)
    ensures n <= |s| && (n < |s| ==> !al.space(s[n])) && (n > 0 ==> al.space(s[0]))
  {
    if s == "" || !al.space(s[0]) then 0 else 1 + SpaceRun(al, s[1..])
  }

  function WordRun(al: Alphabet, s: string): (n: nat)
    ensures n <= |s| && (n < |s| ==> al.space(s[n])) && (n > 0 ==> !al.space(s[0]))
  {
    if s == "" || al.space(s[0]) then 0 else 1 + WordRun(al, s[1..])
  }

  lemma {:induction false} Runs(al: Alphabet, s: string)
    ensures forall i :: 0 <= i < SpaceRun(al, s) ==> al.space(s[i])
    ensures forall i :: 0 <= i < WordRun(al, s) ==> !al.space(s[i])
  {
    if s != "" {
      Runs(al, s[1..]);
      forall i | 0 < i < SpaceRun(al, s) ensures al.space(s[i]) { assert s[1..][i - 1] == s[i]; }
      forall i | 0 < i < WordRun(al, s) ensures !al.space(s[i]) { assert s[1..][i - 1] == s[i]; }
    }
  }

  /** A word: what \S+ matches, and not the start of a comment. */
  ghost predicate IsWord(al: Alphabet, s: string) {
    s != "" && s[0] != '#' && forall i :: 0 <= i < |s| ==> !al.space(s[i])
  }

  /** The words of a value up to a comment, and what is between them. */
  function Words(al: Alphabet, s: string): seq<Fragment>
    decreases |s|
  {
    var i := SpaceRun(al, s);
    if i == |s| || s[i] == '#' then [Keep(s)]
    else
      var j := i + WordRun(al, s[i..]);
      [Keep(s[..i]), Token(s[i..j])] + Words(al, s[j..])
  }

  /** Replacing words leaves words, and replacing them again changes nothing. */
  ghost predicate KeepsWords(al: Alphabet, rule: Rule) {
    forall word :: IsWord(al, word) ==>
      IsWord(al, Rewritten(rule, word)) && Rewritten(rule, Rewritten(rule, word)) == Rewritten(rule, word)
  }

  ghost predicate AllWords(al: Alphabet, fragments: seq<Fragment>) {
    forall f :: f in fragments && f.Token? ==> IsWord(al, f.text)
  }

  lemma {:induction false} WordsCut(al: Alphabet, s: string)
    ensures Text(Words(al, s)) == s
    decreases |s|
  {
    var i := SpaceRun(al, s);
    if i < |s| && s[i] != '#' {
      var j := i + WordRun(al, s[i..]);
      WordsCut(al, s[j..]);
      TextTwo(Keep(s[..i]), Token(s[i..j]), Words(al, s[j..]));
      ThreeParts(s, i, j);
    } else {
      TextOne(s);
    }
  }

  lemma TextOne(s: string)
    ensures Text([Keep(s)]) == s
  {
    assert Text([Keep(s)]) == s + Text([]);
  }

  lemma ThreeParts(s: string, i: nat, j: nat)
    requires i <= j <= |s|
    ensures s[..i] + s[i..j] + s[j..] == s
  {
  }

  lemma {:induction false} WordsAreWords(al: Alphabet, s: string)
    ensures AllWords(al, Words(al, s))
    decreases |s|
  {
    var i := SpaceRun(al, s);
    if i < |s| && s[i] != '#' {
      FirstIsWord(al, s, i, i + WordRun(al, s[i..]));
      WordsAreWords(al, s[i + WordRun(al, s[i..])..]);
    }
  }

  lemma TextTwo(a: Fragment, b: Fragment, rest: seq<Fragment>)
    ensures Text([a, b] + rest) == a.text + b.text + Text(rest)
  {
    assert ([a, b] + rest)[1..] == [b] + rest && ([b] + rest)[1..] == rest;
  }

  // ---------------------------------------------------------------------------------
  // Rewriting words

  function Rewords(al: Alphabet, rule: Rule, s: string): string { Text(Rewrite(rule, Words(al, s))) }

  lemma RewriteSplit(rule: Rule, a: seq<Fragment>, b: seq<Fragment>)
    ensures Rewrite(rule, a + b) == Rewrite(rule, a) + Rewrite(rule, b)
  {
  }

  lemma RewriteKeep(rule: Rule, s: string)
    ensures Rewrite(rule, [Keep(s)]) == [Keep(s)]
  {
  }

  lemma RewriteTwo(rule: Rule, a: string, b: string)
    ensures Rewrite(rule, [Keep(a), Token(b)]) == [Keep(a), Token(Rewritten(rule, b))]
  {
  }

  /** No word before the end or a comment: nothing to rewrite. */
  lemma RewordsNone(al: Alphabet, rule: Rule, s: string)
    requires SpaceRun(al, s) == |s| || s[SpaceRun(al, s)] == '#'
    ensures Rewrite(rule, Words(al, s)) == Words(al, s) == [Keep(s)] && Rewords(al, rule, s) == s
  {
    RewriteKeep(rule, s);
    TextOne(s);
  }

  lemma FirstIsWord(al: Alphabet, s: string, i: nat, j: nat)
    requires i == SpaceRun(al, s) < |s| && s[i] != '#' && j == i + WordRun(al, s[i..])
    ensures i < j <= |s| && IsWord(al, s[i..j]) && (j < |s| ==> al.space(s[j]))
    ensures forall k :: 0 <= k < |s[..i]| ==> al.space(s[..i][k])
  {
    Runs(al, s);
    Runs(al, s[i..]);
  }

  /** Otherwise the first word is rewritten, and then the rest. */
  lemma RewordsFirst(al: Alphabet, rule: Rule, s: string, i: nat, j: nat)
    requires i == SpaceRun(al, s) < |s| && s[i] != '#' && j == i + WordRun(al, s[i..])
    ensures Rewrite(rule, Words(al, s))
      == [Keep(s[..i]), Token(Rewritten(rule, s[i..j]))] + Rewrite(rule, Words(al, s[j..]))
    ensures Rewords(al, rule, s) == s[..i] + Rewritten(rule, s[i..j]) + Rewords(al, rule, s[j..])
  {
    RewriteSplit(rule, [Keep(s[..i]), Token(s[i..j])], Words(al, s[j..]));
    RewriteTwo(rule, s[..i], s[i..j]);
    TextTwo(Keep(s[..i]), Token(Rewritten(rule, s[i..j])), Rewrite(rule, Words(al, s[j..])));
  }

  lemma {:induction false} SpaceRunOf(al: Alphabet, a: string, b: string)
    requires (forall i :: 0 <= i < |a| ==> al.space(a[i])) && b != "" && !al.space(b[0])
    ensures SpaceRun(al, a + b) == |a|
  {
    if a == "" {
      assert a + b == b;
    } else {
      SpaceRunOf(al, a[1..], b);
      assert (a + b)[1..] == a[1..] + b;
    }
  }

  lemma {:induction false} WordRunOf(al: Alphabet, a: string, b: string)
    requires (forall i :: 0 <= i < |a| ==> !al.space(a[i])) && (b == "" || al.space(b[0]))
    ensures WordRun(al, a + b) == |a|
  {
    if a == "" {
      assert a + b == b;
    } else {
      WordRunOf(al, a[1..], b);
      assert (a + b)[1..] == a[1..] + b;
    }
  }

  /** The first character stays, unless a word starts there. */
  lemma RewordsStart(al: Alphabet, rule: Rule, s: string)
    requires KeepsWords(al, rule)
    ensures s == "" <==> Rewords(al, rule, s) == ""
    ensures s != "" && al.space(s[0]) ==> Rewords(al, rule, s)[0] == s[0]
  {
    var i := SpaceRun(al, s);
    if i == |s| || s[i] == '#' {
      RewordsNone(al, rule, s);
    } else {
      var j := i + WordRun(al, s[i..]);
      FirstIsWord(al, s, i, j);
      RewordsFirst(al, rule, s, i, j);
      assert IsWord(al, Rewritten(rule, s[i..j]));
    }
  }

  /** Rewritten text has the same words, rewritten, in the same places between the same gaps. */
  lemma {:induction false} RewordsWords(al: Alphabet, rule: Rule, s: string)
    requires KeepsWords(al, rule)
    ensures Words(al, Rewords(al, rule, s)) == Rewrite(rule, Words(al, s))
    ensures SpaceRun(al, Rewords(al, rule, s)) == SpaceRun(al, s)
    ensures SpaceRun(al, s) == |s| <==> SpaceRun(al, s) == |Rewords(al, rule, s)|
    ensures SpaceRun(al, s) < |s| ==> (s[SpaceRun(al, s)] == '#' <==> Rewords(al, rule, s)[SpaceRun(al, s)] == '#')
    decreases |s|
  {
    var i := SpaceRun(al, s);
    if i == |s| || s[i] == '#' {
      RewordsNone(al, rule, s);
    } else {
      var j := i + WordRun(al, s[i..]);
      FirstIsWord(al, s, i, j);
      RewordsFirst(al, rule, s, i, j);
      RewordsWords(al, rule, s[j..]);
      RewordsStart(al, rule, s[j..]);
      FirstWord(al, s[..i], Rewritten(rule, s[i..j]), Rewords(al, rule, s[j..]));
    }
  }

  lemma FirstWord(al: Alphabet, gap: string, word: string, rest: string)
    requires (forall i :: 0 <= i < |gap| ==> al.space(gap[i])) && IsWord(al, word) && (rest == "" || al.space(rest[0]))
    ensures SpaceRun(al, gap + word + rest) == |gap| < |gap + word + rest| && (gap + word + rest)[|gap|] == word[0]
    ensures Words(al, gap + word + rest) == [Keep(gap), Token(word)] + Words(al, rest)
  {
    var s := gap + word + rest;
    assert s == gap + (word + rest);
    SpaceRunOf(al, gap, word + rest);
    assert s[|gap|..] == word + rest;
    WordRunOf(al, word, rest);
    assert s[..|gap|] == gap && s[|gap|..|gap| + |word|] == word && s[|gap| + |word|..] == rest;
  }

  /** The line break at the end stays, and no other appears. */
  lemma {:induction false} RewordsEnding(al: Alphabet, rule: Rule, s: string) returns (body: string)
    requires Sensible(al) && KeepsWords(al, rule) && forall k :: Body(al, s) <= k < |s| ==> al.space(s[k])
    ensures NoBreak(al, body) && Rewords(al, rule, s) == body + s[Body(al, s)..]
    decreases |s|
  {
    var i, n := SpaceRun(al, s), Body(al, s);
    if i == |s| || s[i] == '#' {
      RewordsNone(al, rule, s);
      body := s[..n];
    } else {
      var j := i + WordRun(al, s[i..]);
      RewordsFirst(al, rule, s, i, j);
      WordBeforeEnding(al, rule, s, i, j);
      var rest := RewordsEnding(al, rule, s[j..]);
      body := s[..i] + Rewritten(rule, s[i..j]) + rest;
      NoBreakInParts(al, s[..i], Rewritten(rule, s[i..j]), rest);
      Glue(s, i, j, n, Rewritten(rule, s[i..j]), rest);
    }
  }

  lemma Glue(s: string, i: nat, j: nat, n: nat, word: string, rest: string)
    requires i <= j <= n <= |s|
    ensures s[..i] + word + (rest + s[j..][n - j..]) == s[..i] + word + rest + s[n..]
  {
    assert s[j..][n - j..] == s[n..];
    Associative(s[..i] + word, rest, s[n..]);
  }

  /** What is left of a text that ends in white space ends in white space. */
  lemma StaysEnding(al: Alphabet, s: string, j: nat)
    requires j <= Body(al, s) && Body(al, s[j..]) == Body(al, s) - j
    requires forall k :: Body(al, s) <= k < |s| ==> al.space(s[k])
    ensures forall k :: Body(al, s[j..]) <= k < |s[j..]| ==> al.space(s[j..][k])
  {
    forall k | Body(al, s[j..]) <= k < |s[j..]|
      ensures al.space(s[j..][k])
    {
      assert s[j..][k] == s[k + j];
    }
  }

  /** The first word lies before the line break, and so does the space before it. */
  lemma WordBeforeEnding(al: Alphabet, rule: Rule, s: string, i: nat, j: nat)
    requires Sensible(al) && KeepsWords(al, rule) && forall k :: Body(al, s) <= k < |s| ==> al.space(s[k])
    requires i == SpaceRun(al, s) < |s| && s[i] != '#' && j == i + WordRun(al, s[i..])
    ensures i < j <= Body(al, s) && Body(al, s[j..]) == Body(al, s) - j
    ensures forall k :: Body(al, s[j..]) <= k < |s[j..]| ==> al.space(s[j..][k])
    ensures NoBreak(al, s[..i]) && IsWord(al, Rewritten(rule, s[i..j]))
  {
    FirstIsWord(al, s, i, j);
    WordInBody(al, s, i, j);
    BodyAfter(al, s, j);
    StaysEnding(al, s, j);
    assert forall k :: 0 <= k < i ==> s[..i][k] == s[..j][k];
  }

  lemma WordInBody(al: Alphabet, s: string, i: nat, j: nat)
    requires Sensible(al) && i < j <= |s| && IsWord(al, s[i..j])
    requires forall k :: Body(al, s) <= k < |s| ==> al.space(s[k])
    ensures j <= Body(al, s) && NoBreak(al, s[..j])
  {
    forall k | i <= k < j
      ensures !al.space(s[k])
    {
      assert s[i..j][k - i] == s[k];
    }
  }

  lemma NoBreakInParts(al: Alphabet, gap: string, word: string, rest: string)
    requires Sensible(al) && NoBreak(al, gap) && IsWord(al, word) && NoBreak(al, rest)
    ensures NoBreak(al, gap + word + rest)
  {
  }

  /** A run without breaks does not end the body. */
  lemma {:induction false} BodyAfter(al: Alphabet, s: string, j: nat)
    requires j <= |s| && NoBreak(al, s[..j])
    ensures j <= Body(al, s) && Body(al, s[j..]) == Body(al, s) - j
  {
    if j > 0 {
      assert s[..j][0] == s[0] && s[1..][..j - 1] == s[..j][1..] && s[1..][j - 1..] == s[j..];
      BodyAfter(al, s[1..], j - 1);
    }
  }
}
