/** The source formats and the URIs of scripts/browser_acquisition.py. */
module AptFormats {
  import opened Wrappers
  import opened Splice
  import opened AptText
  import opened AptSources
  import opened AptRewrite
  import opened AptLexer
  import opened AptOneLine

  /** `str.isspace` and the pattern \s. */
  predicate IsSpace(c: char) {
    || '\t' <= c <= '\r' || '\U{1C}' <= c <= ' ' || c == '\U{85}' || c == '\U{A0}' || c == '\U{1680}'
    || '\U{2000}' <= c <= '\U{200A}' || c == '\U{2028}' || c == '\U{2029}' || c == '\U{202F}'
    || c == '\U{205F}' || c == '\U{3000}'
  }

  /** What `str.splitlines` ends lines at. */
  predicate IsLineBoundary(c: char) {
    || '\n' <= c <= '\r' || '\U{1C}' <= c <= '\U{1E}' || c == '\U{85}' || c == '\U{2028}' || c == '\U{2029}'
  }

  const SPLITLINES := Alphabet(IsSpace, IsLineBoundary, true)

  /** `^` with re.MULTILINE. */
  const MULTILINE := Alphabet(IsSpace, c => c == '\n', false)

  function Lower(s: string): string {
    seq(|s|, i requires 0 <= i < |s| => if 'A' <= s[i] <= 'Z' then s[i] - 'A' + 'a' else s[i])
  }

  function FieldOf(name: string): Field {
    if Lower(name) == "uris" then Uris else if Lower(name) == "enabled" then Enabled else Other
  }

  function Joined(words: seq<string>): string {
    if words == [] then "" else if |words| == 1 then words[0] else words[0] + " " + Joined(words[1..])
  }

  predicate AllZeros(s: string) { s != "" && forall i :: 0 <= i < |s| ==> s[i] == '0' }

  /** `[+-]?(?:0+|0x0+)`. */
  predicate IsZero(s: string) {
    var digits := if s != "" && (s[0] == '+' || s[0] == '-') then s[1..] else s;
    AllZeros(digits) || (|digits| > 2 && digits[..2] == "0x" && AllZeros(digits[2..]))
  }

  predicate Disables(words: seq<string>) {
    var value := Lower(Joined(words));
    value in {"no", "false", "off", "without", "disable"} || IsZero(value)
  }

  const AZURE := "://azure.archive.ubuntu.com/ubuntu"
  const HTTP := "http" + AZURE
  const HTTPS := "https" + AZURE
  const ARCHIVE := "https://archive.ubuntu.com/ubuntu"

  /** `AZURE.fullmatch`, and what takes the place of the match. */
  function Normalize(token: string): Option<string> {
    if token == HTTP || token == HTTPS then Some(ARCHIVE)
    else if token == HTTP + "/" || token == HTTPS + "/" then Some(ARCHIVE + "/")
    else None
  }

  lemma AlphabetsSensible()
    ensures Sensible(SPLITLINES) && Sensible(MULTILINE)
  {
  }

  lemma ArchiveIsToken()
    ensures forall i :: 0 <= i < |ARCHIVE| ==> !IsSpace(ARCHIVE[i]) && ARCHIVE[i] != '#'
    ensures |ARCHIVE| == 33 && ARCHIVE[0] == 'h' && ARCHIVE[4] == 's' && ARCHIVE[9] == 'r'
  {
  }

  lemma ArchiveStays()
    ensures Normalize(ARCHIVE) == None && Normalize(ARCHIVE + "/") == None
  {
    ArchiveIsToken();
    assert HTTP[4] == ':' && HTTPS[9] == 'z';
    assert (HTTP + "/")[4] == ':' && (HTTPS + "/")[9] == 'z';
    assert (ARCHIVE + "/")[4] == 's' && (ARCHIVE + "/")[9] == 'r';
  }

  lemma NormalizedIsToken(token: string)
    requires Normalize(token).Some?
    ensures var t := Normalize(token).value;
            t != "" && t[0] == 'h' && Normalize(t) == None && forall i :: 0 <= i < |t| ==> !IsSpace(t[i]) && t[i] != '#'
    ensures token != "" && token[0] == 'h'
  {
    ArchiveIsToken();
    ArchiveStays();
    assert HTTP[0] == 'h' && HTTPS[0] == 'h';
  }

  lemma NormalizeKeepsWords(al: Alphabet)
    requires al.space == IsSpace
    ensures KeepsWords(al, Normalize)
  {
    forall word | IsWord(al, word)
      ensures IsWord(al, Rewritten(Normalize, word))
      ensures Rewritten(Normalize, Rewritten(Normalize, word)) == Rewritten(Normalize, word)
    {
      if Normalize(word).Some? { NormalizedIsToken(word); }
    }
  }

  lemma NormalizeKeepsTokens(al: Alphabet)
    requires al.space == IsSpace
    ensures KeepsTokens(al, Normalize)
  {
    forall token: string | token != ""
      ensures Rewritten(Normalize, Rewritten(Normalize, token)) == Rewritten(Normalize, token)
      ensures Normalize(token).Some? ==>
        && token[0] != '[' && Normalize(token).value != "" && Normalize(token).value[0] != '['
        && forall c :: c in Normalize(token).value ==> TokenChar(al)(c)
    {
      if Normalize(token).Some? { NormalizedIsToken(token); }
    }
  }

  datatype Suffix = List | Sources | Unsupported

  function LexerOf(suffix: Suffix): Lexer {
    if suffix == List then OneLine(MULTILINE) else Deb822(SPLITLINES, FieldOf, Disables)
  }

  /** Both formats are stable under the replacement. */
  lemma FormatsStable(suffix: Suffix)
    ensures Stable(LexerOf(suffix), Normalize)
  {
    AlphabetsSensible();
    if suffix == List {
      NormalizeKeepsTokens(MULTILINE);
      OneLineStable(MULTILINE, Normalize);
    } else {
      NormalizeKeepsWords(SPLITLINES);
      Deb822Stable(SPLITLINES, FieldOf, Disables, Normalize);
    }
  }

  /** `rewrite`: every enabled URI token replaced, everything else as it was. */
  method RewriteSource(text: string, suffix: Suffix) returns (r: Option<string>)
    ensures r == if suffix == Unsupported then None
                 else Some(Text(Rewrite(Normalize, Document(LexerOf(suffix), text))))
  {
    if suffix == Unsupported {
      return None;
    }
    FormatsStable(suffix);
    var s := RewriteText(LexerOf(suffix), Normalize, text);
    r := Some(s);
  }

  /** Main result: for every text in either format, the rewritten text parses into the same
      fragments with the tokens replaced, and rewriting it again changes nothing. */
  lemma RewriteIsStable(text: string, suffix: Suffix)
    ensures var lx := LexerOf(suffix);
            var once := Text(Rewrite(Normalize, Document(lx, text)));
            && Text(Document(lx, text)) == text
            && Document(lx, once) == Rewrite(Normalize, Document(lx, text))
            && Text(Rewrite(Normalize, Document(lx, once))) == once
  {
    FormatsStable(suffix);
    DocumentCuts(LexerOf(suffix), Normalize, text);
    RewriteParsesAgain(LexerOf(suffix), Normalize, text);
    RewriteTwice(LexerOf(suffix), Normalize, text);
  }

  /** A stanza whose Enabled value switches it off has no tokens, wherever in the stanza that
      value stands. */
  lemma {:induction false} DisabledStanzaUntouched(lx: Lexer, lines: seq<string>, field: Field,
      enabled: seq<string>, n: nat)
    requires n <= |lines| && lx.disables(enabled + Later(lx, lines, field))
    requires StanzaOf(lx, lines, field) >= n
    ensures |Fragments(lx, lines, field, enabled)| >= n
    ensures forall i :: 0 <= i < n ==> Fragments(lx, lines, field, enabled)[i] == Keep(lines[i])
    decreases n
  {
    if n > 0 {
      var kind := lx.kind(field, lines[0]);
      LaterStep(lx, lines, field, enabled);
      DisabledStanzaUntouched(lx, lines[1..], NextField(kind, field), NextEnabled(lx, kind, lines[0], enabled), n - 1);
    }
  }

  /** How many lines belong to the stanza the lines start in. */
  function StanzaOf(lx: Lexer, lines: seq<string>, field: Field): nat {
    if lines == [] || lx.kind(field, lines[0]) == Blank then 0
    else 1 + StanzaOf(lx, lines[1..], NextField(lx.kind(field, lines[0]), field))
  }
}
