/** The pattern of one-line sources, as the texts that it matches: blanks, deb or deb-src, blanks,
    perhaps options in brackets and blanks, and then a token. */
module AptPattern {
  import opened Wrappers
  import opened Splice
  import opened AptText
  import opened AptSources
  import opened AptRewrite
  import opened AptLexer
  import opened AptOneLine
  import opened AptFormats
  import opened AptMeaning
  import Lines

  ghost predicate Blanks(s: string) { forall i :: 0 <= i < |s| ==> s[i] == ' ' || s[i] == '\t' }

  /** What may stand between the brackets. */
  ghost predicate Bracketed(s: string) { forall i :: 0 <= i < |s| ==> s[i] != ']' && s[i] != '\r' && s[i] != '\n' }

  /** The line up to `at` is blanks, a type and blanks. */
  ghost predicate TypeUpTo(line: string, at: nat, lead: string, kind: string, gap: string) {
    && Blanks(lead) && (kind == "deb" || kind == "deb-src") && Blanks(gap) && gap != ""
    && at <= |line| && line[..at] == lead + kind + gap
  }

  ghost predicate AfterTypeAt(line: string, at: nat) { exists lead, kind, gap :: TypeUpTo(line, at, lead, kind, gap) }

  /** From `i` to `at` are options in brackets and blanks. */
  ghost predicate OptionsFrom(line: string, i: nat, at: nat, options: string, gap: string) {
    && i <= at <= |line| && Bracketed(options) && Blanks(gap) && gap != ""
    && line[i..at] == "[" + options + "]" + gap
  }

  ghost predicate AfterOptionsAt(line: string, at: nat) {
    exists i: nat, options, gap :: AfterTypeAt(line, i) && OptionsFrom(line, i, at, options, gap)
  }

  /** A token can start here: neither white space nor a comment. */
  ghost predicate StartsToken(al: Alphabet, line: string, at: nat) {
    at < |line| && !al.space(line[at]) && line[at] != '#'
  }

  /** Where the pattern's group matches: after options if there is a token there, or else after the type. */
  ghost predicate MatchesAt(al: Alphabet, line: string, at: nat) {
    && StartsToken(al, line, at)
    && (|| AfterOptionsAt(line, at)
        || (AfterTypeAt(line, at)
            && forall other: nat :: AfterOptionsAt(line, other) ==> !StartsToken(al, line, other)))
  }

  // ---------------------------------------------------------------------------------

  /** A run of characters that stops there. */
  lemma SkipOf(p: char -> bool, line: string, i: nat, j: nat)
    requires i <= j <= |line| && (forall k :: i <= k < j ==> p(line[k])) && (j < |line| ==> !p(line[j]))
    ensures Skip(p, line, i) == j
  {
    var a, b := line[i..j], line[j..];
    assert line[i..] == a + b;
    forall c | c in a
      ensures p(c)
    {
      var k :| 0 <= k < |a| && a[k] == c;
      assert line[i + k] == c;
    }
    RunOf(p, a, b);
  }

  lemma {:induction false} RunAll(p: char -> bool, s: string)
    ensures forall k :: 0 <= k < Run(p, s) ==> p(s[k])
  {
    if s != "" && p(s[0]) {
      RunAll(p, s[1..]);
    }
  }

  lemma SkipAll(p: char -> bool, line: string, i: nat)
    requires i <= |line|
    ensures forall k :: i <= k < Skip(p, line, i) ==> p(line[k])
  {
    RunAll(p, line[i..]);
    assert forall k :: i <= k < Skip(p, line, i) ==> line[k] == line[i..][k - i];
  }

  /** The parser's position after the type is one that the pattern reaches... */
  lemma TypeReached(line: string)
    requires AfterType(line).Some?
    ensures AfterTypeAt(line, AfterType(line).value)
  {
    var i, j, k := Skip(IsGap, line, 0), TypeEnd(line).value, AfterType(line).value;
    SkipAll(IsGap, line, 0);
    SkipAll(IsGap, line, j);
    var lead, kind, gap := line[..i], line[i..j], line[j..k];
    assert j == i + 7 ==> line[i..i + 7] == line[i..i + 3] + line[i + 3..i + 7];
    assert lead + kind + gap == line[..k];
    assert TypeUpTo(line, k, lead, kind, gap);
  }

  /** ...and the only one at which no blank follows. */
  lemma TypeIsReached(line: string, at: nat, lead: string, kind: string, gap: string)
    requires TypeUpTo(line, at, lead, kind, gap) && at < |line| && !IsGap(line[at])
    ensures AfterType(line) == Some(at)
  {
    var i, j := |lead|, |lead| + |kind|;
    var front := lead + kind + gap;
    assert forall k :: 0 <= k < at ==> line[k] == front[k];
    SkipOf(IsGap, line, 0, i);
    assert line[i..j] == front[i..j] == kind;
    assert line[i..i + 3] == kind[..3] == "deb";
    if kind == "deb" {
      assert line[i + 3] == gap[0];
      DashFirst(line, i + 3);
    } else {
      assert line[i + 3..i + 7] == kind[3..] == "-src";
    }
    assert forall k :: j <= k < at ==> line[k] == gap[k - j];
    SkipOf(IsGap, line, j, at);
  }

  lemma OptionsReached(line: string, i: nat)
    requires i <= |line| && AfterOptions(line, i).Some?
    ensures var at := AfterOptions(line, i).value;
      exists options, gap :: OptionsFrom(line, i, at, options, gap)
  {
    var close, at := Closing(line, i).value, AfterOptions(line, i).value;
    SkipAll(IsOption, line, i + 1);
    SkipAll(IsGap, line, close + 1);
    var options, gap := line[i + 1..close], line[close + 1..at];
    assert line[i..at] == [line[i]] + options + [line[close]] + gap;
    assert OptionsFrom(line, i, at, options, gap);
  }

  lemma OptionsIsReached(line: string, i: nat, at: nat, options: string, gap: string)
    requires OptionsFrom(line, i, at, options, gap) && at < |line| && !IsGap(line[at])
    ensures AfterOptions(line, i) == Some(at)
  {
    var part := "[" + options + "]" + gap;
    var close := i + 1 + |options|;
    assert forall k :: i <= k < at ==> line[k] == line[i..at][k - i] == part[k - i];
    assert forall k :: i < k < close ==> line[k] == options[k - i - 1];
    assert line[close] == ']';
    SkipOf(IsOption, line, i + 1, close);
    assert forall k :: close < k < at ==> line[k] == gap[k - close - 1];
    SkipOf(IsGap, line, close + 1, at);
  }

  lemma AfterTypeIsUnique(line: string, at: nat)
    requires AfterTypeAt(line, at) && at < |line| && !IsGap(line[at])
    ensures AfterType(line) == Some(at)
  {
    var lead, kind, gap :| TypeUpTo(line, at, lead, kind, gap);
    TypeIsReached(line, at, lead, kind, gap);
  }

  lemma OptionsStart(line: string, i: nat, at: nat, options: string, gap: string)
    requires OptionsFrom(line, i, at, options, gap)
    ensures i < |line| && line[i] == '['
  {
    assert line[i..at][0] == line[i];
  }

  lemma AfterOptionsIsUnique(line: string, at: nat)
    requires AfterOptionsAt(line, at) && at < |line| && !IsGap(line[at])
    ensures AfterType(line).Some? && AfterOptions(line, AfterType(line).value) == Some(at)
  {
    var i: nat, options, gap :| AfterTypeAt(line, i) && OptionsFrom(line, i, at, options, gap);
    OptionsStart(line, i, at, options, gap);
    AfterTypeIsUnique(line, i);
    OptionsIsReached(line, i, at, options, gap);
  }

  lemma OptionsAreReached(line: string)
    requires AfterType(line).Some? && AfterOptions(line, AfterType(line).value).Some?
    ensures AfterOptionsAt(line, AfterOptions(line, AfterType(line).value).value)
  {
    TypeReached(line);
    OptionsReached(line, AfterType(line).value);
  }

  /** Main result: the parser finds the pattern's group where, and only where, the text matches. */
  lemma TokenStartMeans(al: Alphabet, line: string, at: nat)
    requires al.space(' ') && al.space('\t')
    ensures TokenStart(al, line) == Some(at) <==> MatchesAt(al, line, at)
  {
    if TokenStart(al, line) == Some(at) {
      FoundMatches(al, line, at);
    }
    if MatchesAt(al, line, at) {
      if AfterOptionsAt(line, at) {
        AfterOptionsIsUnique(line, at);
      } else {
        AfterTypeIsUnique(line, at);
        if AfterOptions(line, at).Some? {
          OptionsAreReached(line);
        }
      }
    }
  }

  lemma FoundMatches(al: Alphabet, line: string, at: nat)
    requires al.space(' ') && al.space('\t') && TokenStart(al, line) == Some(at)
    ensures MatchesAt(al, line, at)
  {
    var i := AfterType(line).value;
    TypeReached(line);
    if AfterOptions(line, i) == Some(at) {
      OptionsAreReached(line);
    } else {
      forall other: nat | AfterOptionsAt(line, other)
        ensures !StartsToken(al, line, other)
      {
        if StartsToken(al, line, other) {
          AfterOptionsIsUnique(line, other);
        }
      }
    }
  }

  // ---------------------------------------------------------------------------------
  // The rewrite

  /** A token reaches to the next white space or comment. */
  ghost predicate TokenTo(al: Alphabet, line: string, at: nat, end: nat) {
    && at < end <= |line| && (forall k: nat :: at <= k < end ==> StartsToken(al, line, k))
    && !StartsToken(al, line, end)
  }

  /** A line after the rewrite: its token replaced if the pattern matches. */
  ghost predicate LineAsSaid(al: Alphabet, line: string, line': string) {
    && ((forall at: nat :: !MatchesAt(al, line, at)) ==> line' == line)
    && forall at: nat, end: nat :: MatchesAt(al, line, at) && TokenTo(al, line, at, end) ==>
         line' == line[..at] + Rewritten(Normalize, line[at..end]) + line[end..]
  }

  lemma TokenEnd(al: Alphabet, line: string, at: nat, end: nat)
    requires TokenTo(al, line, at, end)
    ensures Run(TokenChar(al), line[at..]) == end - at
  {
    forall k | at <= k < end
      ensures TokenChar(al)(line[k])
    {
      assert StartsToken(al, line, k);
    }
    SkipOf(TokenChar(al), line, at, end);
  }

  lemma KindIsMatch(al: Alphabet, open: Field, line: string)
    requires al.space(' ') && al.space('\t')
    ensures var kind := OneLine(al).kind(open, line);
      && (kind.Value? <==> exists at: nat :: MatchesAt(al, line, at))
      && (kind.Value? ==> kind.field == Uris && MatchesAt(al, line, kind.start))
      && forall at: nat :: MatchesAt(al, line, at) ==> kind == Value(Uris, at)
  {
    forall at: nat
      ensures TokenStart(al, line) == Some(at) <==> MatchesAt(al, line, at)
    {
      TokenStartMeans(al, line, at);
    }
    assert TokenStart(al, line).Some? ==> MatchesAt(al, line, TokenStart(al, line).value);
  }

  lemma TokenReplaced(al: Alphabet, line: string, at: nat, end: nat)
    requires KeepsTokens(al, Normalize) && TokenTo(al, line, at, end)
    ensures NewLine(OneLine(al), Normalize, line, Value(Uris, at), true)
      == line[..at] + Rewritten(Normalize, line[at..end]) + line[end..]
  {
    TokenEnd(al, line, at, end);
    WordsRewritten(al, Normalize, line[at..]);
    Pieces3(line, at, end, Rewritten(Normalize, line[at..end]));
  }

  lemma NewIsAsSaid(al: Alphabet, open: Field, line: string)
    requires KeepsTokens(al, Normalize) && al.space(' ') && al.space('\t')
    ensures LineAsSaid(al, line, NewLine(OneLine(al), Normalize, line, OneLine(al).kind(open, line), true))
  {
    KindIsMatch(al, open, line);
    forall at: nat, end: nat | MatchesAt(al, line, at) && TokenTo(al, line, at, end)
      ensures NewLine(OneLine(al), Normalize, line, OneLine(al).kind(open, line), true)
        == line[..at] + Rewritten(Normalize, line[at..end]) + line[end..]
    {
      TokenReplaced(al, line, at, end);
    }
  }

  lemma LineIsAsSaid(al: Alphabet, lines: seq<string>, i: nat)
    requires i < |lines| && KeepsTokens(al, Normalize) && al.space(' ') && al.space('\t')
    ensures LineAsSaid(al, lines[i], LineAt(OneLine(al), Normalize, lines, i))
  {
    NewIsAsSaid(al, FieldBefore(OneLine(al), lines, i), lines[i]);
  }

  lemma Pieces3(line: string, at: nat, end: nat, token: string)
    requires at <= end <= |line|
    ensures line[at..][..end - at] == line[at..end] && line[at..][end - at..] == line[end..]
    ensures line[..at] + (token + line[end..]) == line[..at] + token + line[end..]
  {
  }

  /** Main result: rewriting a one-line source replaces the token of each line that the pattern
      matches, and nothing else. */
  lemma RewriteListMeans(text: string) returns (lines': seq<string>)
    ensures Text(Rewrite(Normalize, Document(LexerOf(List), text))) == Lines.Concat(lines')
    ensures var lines := SplitLines(MULTILINE, text);
      |lines'| == |lines| && forall i :: 0 <= i < |lines| ==> LineAsSaid(MULTILINE, lines[i], lines'[i])
  {
    var lines := SplitLines(MULTILINE, text);
    FormatsStable(List);
    NormalizeKeepsTokens(MULTILINE);
    NewText(LexerOf(List), Normalize, text);
    lines' := AllLines(LexerOf(List), Normalize, lines);
    forall i: nat | i < |lines|
      ensures LineAsSaid(MULTILINE, lines[i], lines'[i])
    {
      LineIsAsSaid(MULTILINE, lines, i);
    }
  }
}
