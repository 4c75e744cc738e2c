/** The one-line format of scripts/browser_acquisition.py: `deb [options] uri suite ...`. */
module AptOneLine {
  import opened Wrappers
  import opened Splice
  import opened AptText
  import opened AptSources
  import opened AptRewrite
  import opened AptLexer
  import Lines

  function Run(p: char -> bool, s: string): (n: nat)
    ensures n <= |s| && (n < |s| ==> !p(s[n]))
  {
    if s == "" || !p(s[0]) then 0 else 1 + Run(p, s[1..])
  }

  /** A run that stops inside a common prefix, or just after it at a character that ends it. */
  lemma {:induction false} RunSame(p: char -> bool, a: string, b: string, n: nat)
    requires n == Run(p, a) && n < |b| && !p(b[n]) && n <= |a| && a[..n] == b[..n]
    ensures Run(p, b) == n
  {
    if n > 0 {
      assert a[0] == a[..n][0] && b[0] == b[..n][0];
      assert a[1..][..n - 1] == a[..n][1..] && b[1..][..n - 1] == b[..n][1..];
      RunSame(p, a[1..], b[1..], n - 1);
    }
  }

  predicate IsGap(c: char) { c == ' ' || c == '\t' }

  predicate IsOption(c: char) { c != ']' && c != '\r' && c != '\n' }

  /** [^\s#], the characters of a token. */
  function TokenChar(al: Alphabet): char -> bool { c => !al.space(c) && c != '#' }

  predicate TokenAt(al: Alphabet, line: string, i: nat) {
    i < |line| && !al.space(line[i]) && line[i] != '#'
  }

  predicate StartsAt(line: string, i: nat, word: string) {
    i + |word| <= |line| && line[i..i + |word|] == word
  }

  function Skip(p: char -> bool, line: string, i: nat): (j: nat)
    requires i <= |line|
    ensures i <= j <= |line| && (j < |line| ==> !p(line[j]))
  {
    i + Run(p, line[i..])
  }

  /** Two lines that agree up to `at`. */
  ghost predicate Agree(line: string, line': string, at: nat) {
    at <= |line| && at < |line'| && line'[..at] == line[..at]
  }

  lemma AgreeInside(line: string, line': string, at: nat, i: nat, j: nat)
    requires Agree(line, line', at) && i <= j <= at
    ensures line'[i..j] == line[i..j] && (i < at ==> line'[i] == line[i])
  {
    assert line'[..at][i..j] == line[..at][i..j];
    assert i < at ==> line'[..at][i] == line[..at][i];
  }

  lemma SkipSame(p: char -> bool, line: string, line': string, i: nat, at: nat)
    requires Agree(line, line', at) && i <= at && Skip(p, line, i) <= at
    requires Skip(p, line, i) == at ==> !p(line'[at])
    ensures Skip(p, line', i) == Skip(p, line, i)
  {
    var j := Skip(p, line, i);
    AgreeInside(line, line', at, i, j);
    AgreeInside(line, line', at, j, at);
    assert line[i..][..j - i] == line[i..j] && line'[i..][..j - i] == line'[i..j];
    RunSame(p, line[i..], line'[i..], j - i);
  }

  /** After `deb` or `deb-src`. */
  function TypeEnd(line: string): (r: Option<nat>)
    ensures r.Some? ==> 3 <= r.value <= |line|
  {
    var i := Skip(IsGap, line, 0);
    if !StartsAt(line, i, "deb") then None
    else Some(if StartsAt(line, i + 3, "-src") then i + 7 else i + 3)
  }

  /** After the type and the blanks that must follow it. */
  function AfterType(line: string): (r: Option<nat>)
    ensures r.Some? ==> 3 < r.value <= |line|
  {
    match TypeEnd(line)
    case None => None
    case Some(j) => var k := Skip(IsGap, line, j); if k == j then None else Some(k)
  }

  /** The bracket that closes an option group. */
  function Closing(line: string, i: nat): (r: Option<nat>)
    requires i <= |line|
    ensures r.Some? ==> i < r.value < |line|
  {
    if i == |line| || line[i] != '[' then None
    else var close := Skip(IsOption, line, i + 1); if close == |line| || line[close] != ']' then None else Some(close)
  }

  /** After an option group and blanks, if there is one. */
  function AfterOptions(line: string, i: nat): (r: Option<nat>)
    requires i <= |line|
    ensures r.Some? ==> i < r.value <= |line|
  {
    match Closing(line, i)
    case None => None
    case Some(close) => var k := Skip(IsGap, line, close + 1); if k == close + 1 then None else Some(k)
  }

  /** Where the pattern's token starts: after the options, or else where they would start. */
  function TokenStart(al: Alphabet, line: string): (r: Option<nat>)
    ensures r.Some? ==> 0 < r.value < |line| && TokenAt(al, line, r.value)
  {
    match AfterType(line)
    case None => None
    case Some(i) =>
      var options := AfterOptions(line, i);
      if options.Some? && TokenAt(al, line, options.value) then options
      else if TokenAt(al, line, i) then Some(i) else None
  }

  /** The token ends where its characters do. */
  function TokenWords(al: Alphabet, s: string): seq<Fragment> {
    var n := Run(TokenChar(al), s);
    if n == 0 then [Keep(s)] else [Token(s[..n]), Keep(s[n..])]
  }

  /** One token a line at most; nothing is continued and nothing disabled. */
  function OneLine(al: Alphabet): Lexer {
    Lexer(text => SplitLines(al, text),
          (_, line) => match TokenStart(al, line) case Some(i) => Value(Uris, i) case None => Comment,
          s => TokenWords(al, s), _ => false)
  }

  /** What a rule must do here: replace tokens with tokens, once and for all, and leave what
      looks like an option group alone. */
  ghost predicate KeepsTokens(al: Alphabet, rule: Rule) {
    forall token {:trigger rule(token)} :: token != "" ==>
      && Rewritten(rule, Rewritten(rule, token)) == Rewritten(rule, token)
      && (rule(token).Some? ==>
            token[0] != '[' && rule(token).value != "" && rule(token).value[0] != '['
            && forall c :: c in rule(token).value ==> TokenChar(al)(c))
  }

  lemma StartsSame(line: string, line': string, at: nat, i: nat, word: string)
    requires Agree(line, line', at) && i + |word| <= at
    ensures StartsAt(line', i, word) <==> StartsAt(line, i, word)
  {
    AgreeInside(line, line', at, i, i + |word|);
  }

  lemma DashFirst(line: string, i: nat)
    ensures StartsAt(line, i, "-src") ==> line[i] == '-'
  {
    if StartsAt(line, i, "-src") { assert line[i..i + 4][0] == line[i]; }
  }

  lemma TypeEndStays(line: string, line': string, at: nat, j: nat)
    requires TypeEnd(line) == Some(j) && Agree(line, line', at) && j < at && IsGap(line[j])
    ensures TypeEnd(line') == Some(j)
  {
    var i := Skip(IsGap, line, 0);
    SkipSame(IsGap, line, line', 0, at);
    StartsSame(line, line', at, i, "deb");
    if j == i + 7 {
      StartsSame(line, line', at, i + 3, "-src");
    } else {
      AgreeInside(line, line', at, j, j);
      DashFirst(line', j);
    }
  }

  lemma GapFirst(line: string, j: nat)
    requires j <= |line| && Skip(IsGap, line, j) > j
    ensures j < |line| && IsGap(line[j])
  {
    assert line[j..][0] == line[j];
  }

  lemma TypeStays(line: string, line': string, at: nat, start: nat)
    requires AfterType(line) == Some(start) && start <= at && Agree(line, line', at)
    requires start == at ==> !IsGap(line'[at])
    ensures AfterType(line') == Some(start)
  {
    var j := TypeEnd(line).value;
    GapFirst(line, j);
    TypeEndStays(line, line', at, j);
    SkipSame(IsGap, line, line', j, at);
  }

  lemma ClosingStays(line: string, line': string, i: nat, at: nat, close: nat)
    requires Agree(line, line', at) && i <= |line| && Closing(line, i) == Some(close) && close < at
    ensures Closing(line', i) == Some(close)
  {
    AgreeInside(line, line', at, i, i);
    AgreeInside(line, line', at, close, close);
    SkipSame(IsOption, line, line', i + 1, at);
  }

  /** An option group is kept when the token after it is the one that changed. */
  lemma OptionsStay(line: string, line': string, i: nat, at: nat)
    requires Agree(line, line', at) && i < at && AfterOptions(line, i) == Some(at)
    requires !IsGap(line'[at])
    ensures AfterOptions(line', i) == Some(at)
  {
    var close := Closing(line, i).value;
    ClosingStays(line, line', i, at, close);
    SkipSame(IsGap, line, line', close + 1, at);
  }

  /** Up to the token nothing has changed, so the pattern gets there again. */
  lemma TokenStartStays(al: Alphabet, line: string, line': string, at: nat)
    requires TokenStart(al, line) == Some(at) && Agree(line, line', at)
    requires TokenAt(al, line', at) && al.space(' ') && al.space('\t')
    requires line[at] != '[' && line'[at] != '['
    ensures TokenStart(al, line') == Some(at)
  {
    var start := AfterType(line).value;
    assert start <= at;
    TypeStays(line, line', at, start);
    if start < at {
      AgreeInside(line, line', at, start, at);
      OptionsStay(line, line', start, at);
    }
  }

  // ---------------------------------------------------------------------------------
  // The one-line format is stable

  lemma {:induction false} RunOf(p: char -> bool, a: string, b: string)
    requires (forall c :: c in a ==> p(c)) && (b == "" || !p(b[0]))
    ensures Run(p, a + b) == |a|
  {
    if a == "" {
      assert a + b == b;
    } else {
      assert (a + b)[1..] == a[1..] + b && a[0] in a;
      RunOf(p, a[1..], b);
    }
  }

  lemma {:induction false} RunChars(p: char -> bool, s: string)
    ensures forall c :: c in s[..Run(p, s)] ==> p(c)
  {
    if s != "" && p(s[0]) {
      RunChars(p, s[1..]);
      assert s[..Run(p, s)] == [s[0]] + s[1..][..Run(p, s[1..])];
    }
  }

  lemma WordsRewritten(al: Alphabet, rule: Rule, s: string)
    requires KeepsTokens(al, rule)
    ensures var n := Run(TokenChar(al), s);
            && Rewrite(rule, TokenWords(al, s))
                 == (if n == 0 then [Keep(s)] else [Token(Rewritten(rule, s[..n])), Keep(s[n..])])
            && Text(Rewrite(rule, TokenWords(al, s))) == if n == 0 then s else Rewritten(rule, s[..n]) + s[n..]
  {
    var n := Run(TokenChar(al), s);
    TextOne(s);
    var parts := [Token(Rewritten(rule, s[..n])), Keep(s[n..])];
    assert parts + [] == parts;
    TextTwo(parts[0], parts[1], []);
    assert Rewritten(rule, s[..n]) + s[n..] + "" == Rewritten(rule, s[..n]) + s[n..];
  }

  lemma TokenWordsCut(al: Alphabet, rule: Rule, s: string)
    requires KeepsTokens(al, rule)
    ensures Text(TokenWords(al, s)) == s && Settled(rule, TokenWords(al, s))
  {
    var n := Run(TokenChar(al), s);
    if n == 0 {
      TextOne(s);
    } else {
      var parts := [Token(s[..n]), Keep(s[n..])];
      assert parts + [] == parts;
      TextTwo(parts[0], parts[1], []);
      assert s[..n] + s[n..] + "" == s && s[..n] != "";
      assert Rewritten(rule, s[..n]) == Rewritten(rule, s[..n]);
      SettledToken(al, rule, s[..n]);
    }
  }

  lemma SettledToken(al: Alphabet, rule: Rule, token: string)
    requires KeepsTokens(al, rule) && token != ""
    ensures Rewritten(rule, Rewritten(rule, token)) == Rewritten(rule, token)
  {
    var r := rule(token);
  }

  /** A replaced token is a token again, and one that is replaced looks like no option group. */
  lemma TokenStaysToken(al: Alphabet, rule: Rule, token: string)
    requires KeepsTokens(al, rule) && token != "" && forall c :: c in token ==> TokenChar(al)(c)
    ensures var r := Rewritten(rule, token);
      && r != "" && (forall c :: c in r ==> TokenChar(al)(c)) && (r == token || (token[0] != '[' && r[0] != '['))
  {
    var r := rule(token);
  }

  lemma TokenThenRest(al: Alphabet, token: string, rest: string)
    requires token != "" && (forall c :: c in token ==> TokenChar(al)(c)) && (rest == "" || !TokenChar(al)(rest[0]))
    ensures TokenWords(al, token + rest) == [Token(token), Keep(rest)] && TokenAt(al, token + rest, 0)
  {
    RunOf(TokenChar(al), token, rest);
    assert (token + rest)[..|token|] == token && (token + rest)[|token|..] == rest;
    assert (token + rest)[0] == token[0] && token[0] in token;
  }

  lemma {:induction false} RunStops(p: char -> bool, s: string)
    ensures Run(p, s) < |s| ==> !p(s[Run(p, s)])
  {
    if s != "" && p(s[0]) {
      RunStops(p, s[1..]);
    }
  }

  lemma TokenRewritten(al: Alphabet, rule: Rule, s: string)
    requires KeepsTokens(al, rule) && Run(TokenChar(al), s) > 0
    ensures var s' := Text(Rewrite(rule, TokenWords(al, s)));
            && TokenWords(al, s') == Rewrite(rule, TokenWords(al, s)) && TokenAt(al, s', 0)
            && (s' == s || (s[0] != '[' && s'[0] != '['))
  {
    var n := Run(TokenChar(al), s);
    var front, rest := s[..n], s[n..];
    WordsRewritten(al, rule, s);
    RunChars(TokenChar(al), s);
    RunStops(TokenChar(al), s);
    assert front != "" && front[0] == s[0] && front + rest == s;
    TokenStaysToken(al, rule, front);
    TokenThenRest(al, Rewritten(rule, front), rest);
  }

  lemma OneLineStays(al: Alphabet, rule: Rule, line: string, at: nat)
    requires KeepsTokens(al, rule) && TokenStart(al, line) == Some(at) && al.space(' ') && al.space('\t')
    ensures var line' := line[..at] + Text(Rewrite(rule, TokenWords(al, line[at..])));
            && TokenStart(al, line') == Some(at) && line'[..at] == line[..at]
            && TokenWords(al, line'[at..]) == Rewrite(rule, TokenWords(al, line[at..]))
            && line' != "" && line'[0] == line[0]
  {
    var s := line[at..];
    var s' := Text(Rewrite(rule, TokenWords(al, s)));
    var line' := line[..at] + s';
    assert s[0] == line[at];
    TokenRewritten(al, rule, s);
    assert line'[..at] == line[..at] && line'[at..] == s' && line'[at] == s'[0];
    assert line'[0] == line'[..at][0] == line[..at][0] == line[0];
    if s' == s {
      assert line' == line;
    } else {
      TokenStartStays(al, line, line', at);
    }
  }

  lemma TokenLine(al: Alphabet, rule: Rule, line: string, at: nat) returns (body: string)
    requires Sensible(al) && KeepsTokens(al, rule) && TokenAt(al, line, at)
    requires forall k :: Body(al, line) <= k < |line| ==> al.lineBreak(line[k])
    ensures NoBreak(al, body)
    ensures line[..at] + Text(Rewrite(rule, TokenWords(al, line[at..]))) == body + line[Body(al, line)..]
  {
    var s := line[at..];
    var n, m := Run(TokenChar(al), s), Body(al, line);
    WordsRewritten(al, rule, s);
    TokenInBody(al, line, at);
    BodyClean(al, line);
    TokenClean(al, rule, s[..n]);
    var token := Rewritten(rule, s[..n]);
    BodyParts(al, line, at, at + n, m, token);
    SplitTail(line, at, n, m);
    Reassemble(line[..at], token, line[at + n..m], line[m..]);
    body := line[..at] + token + line[at + n..m];
  }

  lemma OneLineShape(al: Alphabet, rule: Rule, line: string, at: nat)
    requires Sensible(al) && KeepsTokens(al, rule)
    requires TokenStart(al, line) == Some(at) && al.space(' ') && al.space('\t')
    requires forall k :: Body(al, line) <= k < |line| ==> al.lineBreak(line[k])
    ensures SameShape(al, line, line[..at] + Text(Rewrite(rule, TokenWords(al, line[at..]))))
  {
    OneLineStays(al, rule, line, at);
    var body := TokenLine(al, rule, line, at);
    IsShape(al, line, line[..at] + Text(Rewrite(rule, TokenWords(al, line[at..]))), body);
  }

  lemma TokenInBody(al: Alphabet, line: string, at: nat)
    requires Sensible(al) && TokenAt(al, line, at)
    requires forall k :: Body(al, line) <= k < |line| ==> al.lineBreak(line[k])
    ensures var n := Run(TokenChar(al), line[at..]);
            0 < n && at + n <= Body(al, line) && forall c :: c in line[at..][..n] ==> TokenChar(al)(c)
  {
    var s := line[at..];
    var n := Run(TokenChar(al), s);
    assert s[0] == line[at];
    RunChars(TokenChar(al), s);
    forall k | at <= k < at + n
      ensures !al.lineBreak(line[k])
    {
      assert s[..n][k - at] == line[k] && line[k] in s[..n];
    }
  }

  lemma Reassemble(a: string, b: string, c: string, d: string)
    ensures a + (b + (c + d)) == a + b + c + d
  {
  }

  lemma IsShape(al: Alphabet, line: string, line': string, body: string)
    requires line != "" && line' != "" && line'[0] == line[0]
    requires NoBreak(al, body) && line' == body + line[Body(al, line)..]
    ensures SameShape(al, line, line')
  {
  }

  lemma SplitTail(line: string, at: nat, n: nat, m: nat)
    requires at + n <= m <= |line|
    ensures line[at..][n..] == line[at + n..m] + line[m..]
  {
  }

  lemma BodyParts(al: Alphabet, line: string, i: nat, j: nat, m: nat, token: string)
    requires i <= j <= m <= |line| && NoBreak(al, line[..m]) && NoBreak(al, token)
    ensures NoBreak(al, line[..i] + token + line[j..m])
  {
    assert forall k :: 0 <= k < i ==> line[..i][k] == line[..m][k];
    assert forall k :: 0 <= k < m - j ==> line[j..m][k] == line[..m][j + k];
  }

  lemma TokenClean(al: Alphabet, rule: Rule, token: string)
    requires Sensible(al) && KeepsTokens(al, rule) && token != "" && forall c :: c in token ==> TokenChar(al)(c)
    ensures NoBreak(al, Rewritten(rule, token))
  {
    var r := rule(token);
    var t := Rewritten(rule, token);
    assert forall c :: c in t ==> TokenChar(al)(c);
    forall i | 0 <= i < |t| ensures !al.lineBreak(t[i]) { assert t[i] in t; assert !al.space(t[i]); }
  }

  lemma OneLineRewrites(al: Alphabet, rule: Rule, line: string, line': string, field: Field, start: nat)
    requires RewritesLine(OneLine(al), rule, line, line', field, start)
    ensures TokenStart(al, line) == Some(start)
    ensures line' == line[..start] + Text(Rewrite(rule, TokenWords(al, line[start..])))
  {
  }

  lemma OneLineLines(al: Alphabet, rule: Rule, text: string, lines': seq<string>)
    requires Sensible(al) && KeepsTokens(al, rule) && al.space(' ') && al.space('\t')
    requires LineByLine(OneLine(al), rule, SplitLines(al, text), lines')
    ensures SplitLines(al, Lines.Concat(lines')) == lines'
  {
    var lines := SplitLines(al, text);
    SplitLinesProper(al, text);
    forall i | 0 <= i < |lines|
      ensures lines'[i] == lines[i] || SameShape(al, lines[i], lines'[i])
    {
      if lines'[i] != lines[i] {
        var field, start :| RewritesLine(OneLine(al), rule, lines[i], lines'[i], field, start);
        ProperEndings(al, lines, i);
        OneLineRewrites(al, rule, lines[i], lines'[i], field, start);
        OneLineShape(al, rule, lines[i], start);
      }
    }
    ProperStays(al, lines, lines');
    ProperSplit(al, lines');
  }

  lemma OneLineStable(al: Alphabet, rule: Rule)
    requires Sensible(al) && KeepsTokens(al, rule) && al.space(' ') && al.space('\t')
    ensures Stable(OneLine(al), rule)
  {
    var lx := OneLine(al);
    forall text ensures Lines.Concat(lx.lines(text)) == text { SplitLinesProper(al, text); }
    forall s ensures Text(lx.words(s)) == s && Settled(rule, lx.words(s)) { TokenWordsCut(al, rule, s); }
    forall field, line, line', start | RewritesLine(lx, rule, line, line', field, start)
      ensures lx.kind(field, line') == Value(Uris, start) && Head(line', start) == Head(line, start)
      ensures lx.words(Tail(line', start)) == Rewrite(rule, lx.words(Tail(line, start)))
    {
      OneLineStays(al, rule, line, start);
    }
    forall text, lines' | LineByLine(lx, rule, lx.lines(text), lines')
      ensures lx.lines(Lines.Concat(lines')) == lines'
    {
      OneLineLines(al, rule, text, lines');
    }
  }
}
