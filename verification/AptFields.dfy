/** What the lines, names and values of a deb822 source are, said of their characters. */
module AptFields {
  import opened Wrappers
  import opened Splice
  import opened AptText
  import opened AptSources
  import opened AptLexer
  import opened AptFormats

  // ---------------------------------------------------------------------------------
  // Characters

  /** The lines of a stanza file end at any of ten characters, or at a carriage return and a newline together;
      those of a list only at a newline. */
  lemma LineBreaksAre(c: char)
    ensures SPLITLINES.lineBreak(c) <==>
      c in {'\n', '\U{0B}', '\U{0C}', '\r', '\U{1C}', '\U{1D}', '\U{1E}', '\U{85}', '\U{2028}', '\U{2029}'}
    ensures MULTILINE.lineBreak(c) <==> c == '\n'
    ensures SPLITLINES.crlf && !MULTILINE.crlf
  {
  }

  // ---------------------------------------------------------------------------------
  // Names and values

  /** The word in any mixture of small and capital letters. */
  ghost predicate Spelled(name: string, small: string, capital: string) {
    && |name| == |small| == |capital|
    && forall i :: 0 <= i < |name| ==> name[i] == small[i] || name[i] == capital[i]
  }

  /** `capital` is `small` in capitals. */
  ghost predicate Cases(small: string, capital: string) {
    && |small| == |capital|
    && forall i :: 0 <= i < |small| ==> 'a' <= small[i] <= 'z' && capital[i] as int == small[i] as int - 32
  }

  lemma LowerIs(name: string, small: string, capital: string)
    requires Cases(small, capital)
    ensures Lower(name) == small <==> Spelled(name, small, capital)
  {
    if Spelled(name, small, capital) {
      assert forall i :: 0 <= i < |name| ==> Lower(name)[i] == small[i];
    } else if |name| == |small| {
      var i :| 0 <= i < |name| && name[i] != small[i] && name[i] != capital[i];
      assert Lower(name)[i] != small[i];
    }
  }

  ghost predicate NamesUris(name: string) { Spelled(name, "uris", "URIS") }

  ghost predicate NamesEnabled(name: string) { Spelled(name, "enabled", "ENABLED") }

  lemma FieldIsNamed(name: string)
    ensures FieldOf(name) == if NamesUris(name) then Uris else if NamesEnabled(name) then Enabled else Other
  {
    LowerIs(name, "uris", "URIS");
    LowerIs(name, "enabled", "ENABLED");
  }

  ghost predicate IsZeroOf(s: string, sign: string, prefix: string, zeros: string) {
    && sign in {"", "+", "-"} && prefix in {"", "0x", "0X"} && zeros != ""
    && (forall i :: 0 <= i < |zeros| ==> zeros[i] == '0') && s == sign + prefix + zeros
  }

  /** Zeros, perhaps after 0x or 0X, perhaps after a sign. */
  ghost predicate ZeroForm(s: string) { exists sign, prefix, zeros :: IsZeroOf(s, sign, prefix, zeros) }

  ghost predicate SaysNo(word: string) {
    || Spelled(word, "no", "NO") || Spelled(word, "false", "FALSE") || Spelled(word, "off", "OFF")
    || Spelled(word, "without", "WITHOUT") || Spelled(word, "disable", "DISABLE") || ZeroForm(word)
  }

  lemma LowerChar(s: string, i: nat)
    requires i < |s|
    ensures Lower(s)[i] == s[i] || 'A' <= s[i] <= 'Z'
    ensures 'A' <= s[i] <= 'Z' ==> Lower(s)[i] as int == s[i] as int + 32
  {
  }

  lemma LowerAppend(a: string, b: string)
    ensures Lower(a + b) == Lower(a) + Lower(b)
  {
  }

  lemma LowerSame(s: string)
    requires forall i :: 0 <= i < |s| ==> !('A' <= s[i] <= 'Z')
    ensures Lower(s) == s
  {
  }

  lemma AfterSign(sign: string, digits: string)
    requires sign in {"", "+", "-"} && digits != "" && digits[0] == '0'
    ensures var s := sign + digits;
      (if s != "" && (s[0] == '+' || s[0] == '-') then s[1..] else s) == digits
  {
    assert sign == "" ==> sign + digits == digits;
  }

  lemma ZeroParts(sign: string, prefix: string, zeros: string)
    requires sign in {"", "+", "-"} && prefix in {"", "0x"} && AllZeros(zeros)
    ensures IsZero(sign + (prefix + zeros))
  {
    var digits := prefix + zeros;
    if prefix == "" {
      assert digits == zeros;
    } else {
      assert digits[..2] == prefix && digits[2..] == zeros && digits[0] == prefix[0];
    }
    AfterSign(sign, digits);
  }

  lemma ZeroIsZero(s: string)
    requires ZeroForm(s)
    ensures IsZero(Lower(s))
  {
    var sign, prefix, zeros :| IsZeroOf(s, sign, prefix, zeros);
    assert s == sign + (prefix + zeros);
    LowerAppend(sign, prefix + zeros);
    LowerAppend(prefix, zeros);
    LowerSame(sign);
    LowerSame(zeros);
    assert Lower("0X") == "0x" && Lower("0x") == "0x" && Lower("") == "";
    ZeroParts(sign, Lower(prefix), zeros);
  }

  lemma ZeroTail(s: string, k: nat)
    requires k <= |s| && AllZeros(Lower(s)[k..])
    ensures s[k..] != "" && forall i :: 0 <= i < |s[k..]| ==> s[k..][i] == '0'
  {
    forall i | 0 <= i < |s[k..]|
      ensures s[k..][i] == '0'
    {
      LowerChar(s, k + i);
      assert Lower(s)[k..][i] == '0' == Lower(s)[k + i];
    }
  }

  lemma HexPrefix(s: string, k: nat)
    requires k + 2 <= |s| && Lower(s)[k] == '0' && Lower(s)[k + 1] == 'x'
    ensures s[k..k + 2] == "0x" || s[k..k + 2] == "0X"
  {
    LowerChar(s, k);
    LowerChar(s, k + 1);
    assert s[k..k + 2] == [s[k], s[k + 1]];
  }

  lemma SignOf(s: string) returns (k: nat)
    requires s != ""
    ensures k <= 1 && s[..k] in {"", "+", "-"} && (k == 1 <==> Lower(s)[0] == '+' || Lower(s)[0] == '-')
  {
    LowerChar(s, 0);
    k := if s[0] == '+' || s[0] == '-' then 1 else 0;
    assert k == 1 ==> s[..k] == [s[0]];
  }

  lemma IsZeroForm(s: string)
    requires IsZero(Lower(s))
    ensures ZeroForm(s)
  {
    var t := Lower(s);
    var k := SignOf(s);
    var digits := t[k..];
    assert k == 0 ==> digits == t;
    if AllZeros(digits) {
      ZeroTail(s, k);
      assert s == s[..k] + "" + s[k..];
      assert IsZeroOf(s, s[..k], "", s[k..]);
    } else {
      assert digits[0] == digits[..2][0] && digits[1] == digits[..2][1];
      assert digits[2..] == t[k + 2..];
      HexPrefix(s, k);
      ZeroTail(s, k + 2);
      assert s == s[..k] + s[k..k + 2] + s[k + 2..];
      assert IsZeroOf(s, s[..k], s[k..k + 2], s[k + 2..]);
    }
  }

  lemma JoinedHasSpace(words: seq<string>)
    requires |words| >= 2
    ensures ' ' in Joined(words)
  {
    assert Joined(words)[|words[0]|] == ' ';
  }

  lemma LowerKeepsSpace(s: string)
    requires ' ' in s
    ensures ' ' in Lower(s)
  {
    var i :| 0 <= i < |s| && s[i] == ' ';
    assert Lower(s)[i] == ' ';
  }

  lemma NoSpaceInNo(t: string)
    requires t in {"no", "false", "off", "without", "disable"} || IsZero(t)
    ensures ' ' !in t && t != ""
  {
    if IsZero(t) {
      var k := if t[0] == '+' || t[0] == '-' then 1 else 0;
      var digits := t[k..];
      assert k == 0 ==> digits == t;
      forall i | 0 <= i < |t|
        ensures t[i] != ' '
      {
        if AllZeros(digits) {
          assert i >= k ==> t[i] == digits[i - k];
        } else if i >= k + 2 {
          assert t[i] == digits[2..][i - k - 2];
        } else if i >= k {
          assert t[i] == digits[..2][i - k];
        }
      }
    }
  }

  /** A stanza is switched off by one word: no, false, off, without or disable in any letters, or
      a zero; and by nothing else. */
  lemma DisablesMeans(words: seq<string>)
    ensures Disables(words) <==> |words| == 1 && SaysNo(words[0])
  {
    if |words| == 1 {
      var word := words[0];
      LowerIs(word, "no", "NO");
      LowerIs(word, "false", "FALSE");
      LowerIs(word, "off", "OFF");
      LowerIs(word, "without", "WITHOUT");
      LowerIs(word, "disable", "DISABLE");
      if ZeroForm(word) { ZeroIsZero(word); }
      if IsZero(Lower(word)) { IsZeroForm(word); }
    } else if Disables(words) {
      NoSpaceInNo(Lower(Joined(words)));
      JoinedHasSpace(words);
      LowerKeepsSpace(Joined(words));
    }
  }

  function AzureUri(scheme: string, slash: string): string {
    scheme + "://azure.archive.ubuntu.com/ubuntu" + slash
  }

  lemma AzureUris()
    ensures HTTP == AzureUri("http", "") && HTTPS == AzureUri("https", "")
    ensures HTTP + "/" == AzureUri("http", "/") && HTTPS + "/" == AzureUri("https", "/")
    ensures HTTP + "/" != HTTPS && HTTP != HTTPS + "/"
  {
    assert HTTP + "" == HTTP && HTTPS + "" == HTTPS;
    assert (HTTP + "/")[4] == ':' && HTTPS[4] == 's' && (HTTPS + "/")[4] == 's' && HTTP[4] == ':';
  }

  /** The Azure mirror under either scheme becomes the archive over https; a slash at the end stays,
      and no other token is replaced. */
  lemma NormalizeMeans(token: string, r: string)
    ensures Normalize(token) == Some(r) <==>
      exists scheme, slash :: scheme in {"http", "https"} && slash in {"", "/"}
        && token == AzureUri(scheme, slash) && r == "https://archive.ubuntu.com/ubuntu" + slash
  {
    AzureUris();
    assert ARCHIVE == "https://archive.ubuntu.com/ubuntu" + "";
    if Normalize(token) == Some(r) {
      var scheme := if token == HTTP || token == HTTP + "/" then "http" else "https";
      var slash := if token == HTTP || token == HTTPS then "" else "/";
      assert token == AzureUri(scheme, slash) && r == "https://archive.ubuntu.com/ubuntu" + slash;
    }
  }

  // ---------------------------------------------------------------------------------
  // Lines

  ghost predicate AllSpace(al: Alphabet, s: string) { forall i :: 0 <= i < |s| ==> al.space(s[i]) }

  /** White space and then the start of a comment. */
  ghost predicate IsComment(al: Alphabet, s: string) {
    exists n :: 0 <= n < |s| && s[n] == '#' && forall i :: 0 <= i < n ==> al.space(s[i])
  }

  /** The line starts with this name and a colon. */
  ghost predicate HasHeader(al: Alphabet, line: string, name: string) {
    && 0 < |name| < |line| && line[..|name|] == name && line[|name|] == ':'
    && forall i :: 0 <= i < |name| ==> !al.space(name[i]) && name[i] != ':'
  }

  /** Part of some field: neither blank nor a comment. */
  ghost predicate IsPlain(al: Alphabet, line: string) { !AllSpace(al, line) && !IsComment(al, line) }

  lemma {:induction false} NameRunMeans(al: Alphabet, s: string)
    ensures var n := NameRun(al, s);
      && (forall i :: 0 <= i < n ==> !al.space(s[i]) && s[i] != ':')
      && (n < |s| ==> al.space(s[n]) || s[n] == ':')
  {
    if s != "" && !al.space(s[0]) && s[0] != ':' {
      NameRunMeans(al, s[1..]);
    }
  }

  lemma SpaceRunMeans(al: Alphabet, s: string)
    ensures SpaceRun(al, s) == |s| <==> AllSpace(al, s)
    ensures !al.space('#') ==> (SpaceRun(al, s) < |s| && s[SpaceRun(al, s)] == '#' <==> IsComment(al, s))
    ensures SpaceRun(al, s) > 0 <==> s != "" && al.space(s[0])
  {
    Runs(al, s);
    if !al.space('#') && IsComment(al, s) {
      var n :| 0 <= n < |s| && s[n] == '#' && forall i :: 0 <= i < n ==> al.space(s[i]);
      assert n == SpaceRun(al, s);
    }
  }

  lemma HeaderRun(al: Alphabet, line: string, name: string)
    requires al.space(':') == false && HasHeader(al, line, name)
    ensures NameRun(al, line) == |name|
  {
    var n := NameRun(al, line);
    NameRunMeans(al, line);
    assert forall i :: 0 <= i < |name| ==> line[i] == name[i];
    assert n >= |name|;
  }

  /** What a line is, for any set of names: blank, a comment, a continuation of the open field, the
      start of the field that its header names, or the start of no known field. */
  lemma KindMeans(al: Alphabet, names: string -> Field, open: Field, line: string, name: string)
    requires !al.space('#') && !al.space(':')
    ensures var kind := KindOf(al, names, open, line);
      && (kind == Blank <==> AllSpace(al, line)) && (kind == Comment <==> IsComment(al, line))
      && (IsPlain(al, line) && al.space(line[0]) ==> kind == Value(open, 0))
      && (IsPlain(al, line) && HasHeader(al, line, name) ==> kind == Value(names(name), |name| + 1))
      && (IsPlain(al, line) && !al.space(line[0]) && (forall n :: !HasHeader(al, line, n)) ==> kind == Value(Other, 0))
  {
    SpaceRunMeans(al, line);
    NameRunMeans(al, line);
    if HasHeader(al, line, name) {
      HeaderRun(al, line, name);
      assert line[0] == line[..|name|][0] == name[0];
    }
    var n := NameRun(al, line);
    if 0 < n < |line| && line[n] == ':' {
      assert HasHeader(al, line, line[..n]);
    }
  }

  /** The fragments of a value: gaps of white space and words by turns, up to the end or a comment.
      What follows a word is set off from it. */
  ghost predicate GapsAndWords(al: Alphabet, fs: seq<Fragment>) {
    && fs != [] && fs[0].Keep?
    && if |fs| == 1 then AllSpace(al, fs[0].text) || IsComment(al, fs[0].text)
       else
         && |fs| > 2 && AllSpace(al, fs[0].text) && fs[1].Token? && IsWord(al, fs[1].text)
         && (if fs[2].text == "" then |fs| == 3 else al.space(fs[2].text[0]))
         && GapsAndWords(al, fs[2..])
  }

  lemma FirstGap(al: Alphabet, s: string, fs: seq<Fragment>)
    requires GapsAndWords(al, fs) && Text(fs) == s && (s != "" ==> al.space(s[0]))
    ensures if fs[0].text == "" then |fs| == 1 else al.space(fs[0].text[0])
  {
  }

  lemma WordThenRest(al: Alphabet, gap: string, word: string, rest: seq<Fragment>)
    requires AllSpace(al, gap) && IsWord(al, word) && GapsAndWords(al, rest)
    requires if rest[0].text == "" then |rest| == 1 else al.space(rest[0].text[0])
    ensures GapsAndWords(al, [Keep(gap), Token(word)] + rest)
  {
    var fs := [Keep(gap), Token(word)] + rest;
    assert fs[2..] == rest && fs[2] == rest[0];
  }

  lemma EndIsGap(al: Alphabet, s: string)
    requires SpaceRun(al, s) == |s| || s[SpaceRun(al, s)] == '#'
    ensures GapsAndWords(al, [Keep(s)])
  {
    Runs(al, s);
    SpaceRunMeans(al, s);
    if SpaceRun(al, s) < |s| {
      assert IsComment(al, s);
    }
  }

  lemma FirstWordShape(al: Alphabet, s: string, i: nat, j: nat)
    requires i == SpaceRun(al, s) < |s| && s[i] != '#' && j == i + WordRun(al, s[i..])
    requires GapsAndWords(al, Words(al, s[j..]))
    ensures GapsAndWords(al, [Keep(s[..i]), Token(s[i..j])] + Words(al, s[j..]))
  {
    FirstIsWord(al, s, i, j);
    WordsCut(al, s[j..]);
    FirstGap(al, s[j..], Words(al, s[j..]));
    WordThenRest(al, s[..i], s[i..j], Words(al, s[j..]));
  }

  /** The words of a value are its maximal runs of other characters than white space, up to one that
      starts a comment. */
  lemma {:induction false} WordsMean(al: Alphabet, s: string)
    ensures GapsAndWords(al, Words(al, s))
    decreases |s|
  {
    var i := SpaceRun(al, s);
    if i < |s| && s[i] != '#' {
      var j := i + WordRun(al, s[i..]);
      WordsMean(al, s[j..]);
      FirstWordShape(al, s, i, j);
    } else {
      EndIsGap(al, s);
    }
  }

  // ---------------------------------------------------------------------------------
  // Line ends

  /** A line ends at its only line break, or without one at the end of the text. */
  ghost predicate IsLine(al: Alphabet, line: string, last: bool) {
    exists n: nat :: EndsAt(al, line, last, n)
  }

  ghost predicate EndsAt(al: Alphabet, line: string, last: bool, n: nat) {
    && n <= |line| && line != "" && NoBreak(al, line[..n])
    && if n == |line| then last
       else al.lineBreak(line[n]) && (|line| == n + 1 || (al.crlf && line[n..] == "\r\n"))
  }

  lemma {:induction false} LineEndMeans(al: Alphabet, text: string) returns (n: nat)
    requires text != "" && (al.crlf ==> al.lineBreak('\r'))
    ensures EndsAt(al, text[..LineEnd(al, text)], LineEnd(al, text) == |text|, n)
    ensures var end := LineEnd(al, text);
      al.crlf && end < |text| && text[end - 1] == '\r' ==> text[end] != '\n'
  {
    var end := LineEnd(al, text);
    if al.lineBreak(text[0]) {
      n := 0;
      assert end == 2 ==> text[..end] == "\r\n";
    } else if |text| == 1 {
      n := 1;
    } else {
      n := LineEndMeans(al, text[1..]);
      OneCharMore(al, text, n);
      n := n + 1;
    }
  }

  lemma EndsOneLater(al: Alphabet, c: char, rest: string, last: bool, n: nat)
    requires !al.lineBreak(c) && EndsAt(al, rest, last, n)
    ensures EndsAt(al, [c] + rest, last, n + 1)
  {
    var line := [c] + rest;
    assert line[..n + 1] == [c] + rest[..n] && line[n + 1..] == rest[n..];
  }

  lemma OneCharMore(al: Alphabet, text: string, n: nat)
    requires |text| > 1 && !al.lineBreak(text[0])
    requires EndsAt(al, text[1..][..LineEnd(al, text[1..])], LineEnd(al, text[1..]) == |text| - 1, n)
    ensures EndsAt(al, text[..LineEnd(al, text)], LineEnd(al, text) == |text|, n + 1)
  {
    var rest := text[1..][..LineEnd(al, text[1..])];
    EndsOneLater(al, text[0], rest, LineEnd(al, text[1..]) == |text| - 1, n);
    assert text[..LineEnd(al, text)] == [text[0]] + rest;
  }

  /** The end of the i-th line does not cut a carriage return off from its newline. */
  ghost predicate NotCut(al: Alphabet, lines: seq<string>, i: nat) {
    al.crlf && i + 1 < |lines| ==>
      lines[i] != "" && lines[i + 1] != "" && (lines[i][|lines[i]| - 1] == '\r' ==> lines[i + 1][0] != '\n')
  }

  /** `str.splitlines` with its line ends kept: every line ends at a line break of its own, which
      only the last may lack, and a carriage return is not cut off from its newline. */
  lemma {:induction false} LinesMean(al: Alphabet, text: string)
    requires al.crlf ==> al.lineBreak('\r')
    ensures var lines := SplitLines(al, text);
      forall i: nat :: i < |lines| ==> IsLine(al, lines[i], i == |lines| - 1) && NotCut(al, lines, i)
    decreases |text|
  {
    if text != "" {
      var end := LineEnd(al, text);
      var n := LineEndMeans(al, text);
      LinesMean(al, text[end..]);
      var lines, rest := SplitLines(al, text), SplitLines(al, text[end..]);
      assert |text[end..]| == |text| - end && lines == [text[..end]] + rest;
      assert rest == [] <==> end == |text|;
      forall i: nat | i < |lines|
        ensures IsLine(al, lines[i], i == |lines| - 1) && NotCut(al, lines, i)
      {
        if i > 0 {
          var j: nat := i - 1;
          var last := j == |rest| - 1;
          assert lines[i] == rest[j] && NotCut(al, rest, j) && IsLine(al, rest[j], last);
          assert i + 1 < |lines| ==> lines[i + 1] == rest[j + 1];
        } else {
          assert IsLine(al, text[..end], end == |text|);
          FirstIsNotCut(al, text, rest);
        }
      }
    }
  }

  lemma FirstIsNotCut(al: Alphabet, text: string, rest: seq<string>)
    requires text != "" && rest == SplitLines(al, text[LineEnd(al, text)..])
    requires var end := LineEnd(al, text);
      al.crlf && end < |text| && text[end - 1] == '\r' ==> text[end] != '\n'
    ensures NotCut(al, [text[..LineEnd(al, text)]] + rest, 0)
  {
    var end := LineEnd(al, text);
    if rest != [] {
      var more := text[end..];
      assert rest[0] == more[..LineEnd(al, more)] && rest[0][0] == more[0] == text[end];
      assert text[..end][end - 1] == text[end - 1];
    }
  }
}
