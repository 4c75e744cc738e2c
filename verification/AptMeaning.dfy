/** What rewriting a deb822 source does, line by line: a reference that looks at the whole stanza a
    line is in and knows nothing of how it is parsed. */
module AptMeaning {
  import opened Wrappers
  import opened Splice
  import opened AptText
  import opened AptSources
  import opened AptRewrite
  import opened AptLexer
  import opened AptFormats
  import opened AptFields
  import Lines

  // ---------------------------------------------------------------------------------
  // The reference

  predicate IsIndented(al: Alphabet, line: string) { line != "" && al.space(line[0]) }

  ghost predicate HeaderNames(al: Alphabet, line: string, f: Field) {
    exists name :: HasHeader(al, line, name) && match f
      case Uris => NamesUris(name)
      case Enabled => NamesEnabled(name)
      case Other => false
  }

  /** The h-th line starts the field that is still open after the i-th: no blank line and no start of
      another field is between them. */
  ghost predicate Opens(al: Alphabet, lines: seq<string>, h: nat, i: nat) {
    && h <= i < |lines| && IsPlain(al, lines[h]) && !IsIndented(al, lines[h])
    && forall k :: h < k <= i ==>
         !AllSpace(al, lines[k]) && (IsPlain(al, lines[k]) ==> IsIndented(al, lines[k]))
  }

  ghost predicate OpensField(al: Alphabet, lines: seq<string>, h: nat, i: nat, f: Field) {
    Opens(al, lines, h, i) && HeaderNames(al, lines[h], f)
  }

  ghost predicate OpenAfter(al: Alphabet, lines: seq<string>, i: nat, f: Field) {
    exists h: nat :: OpensField(al, lines, h, i, f)
  }

  /** The line holds part of the value of such a field. */
  ghost predicate InField(al: Alphabet, lines: seq<string>, i: nat, f: Field)
    requires i < |lines|
  {
    IsPlain(al, lines[i]) && OpenAfter(al, lines, i, f)
  }

  function FirstColon(line: string): (n: nat)
    ensures n <= |line|
  {
    if line == "" || line[0] == ':' then 0 else 1 + FirstColon(line[1..])
  }

  /** Where the value starts in a line of a field: after the header if it has one. */
  function ValueStart(al: Alphabet, line: string): (n: nat)
    ensures n <= |line|
  {
    if IsIndented(al, line) || FirstColon(line) == |line| then 0 else FirstColon(line) + 1
  }

  /** The words of a line that belong to an Enabled field. */
  ghost function EnabledIn(al: Alphabet, lines: seq<string>, i: nat): seq<string>
    requires i < |lines|
  {
    if InField(al, lines, i, Enabled) then TokenTexts(Words(al, lines[i][ValueStart(al, lines[i])..])) else []
  }

  /** Those of each line. */
  ghost function Pieces(al: Alphabet, lines: seq<string>): seq<seq<string>> {
    seq(|lines|, i requires 0 <= i < |lines| => EnabledIn(al, lines, i))
  }

  /** The words of the Enabled fields in some lines. */
  ghost function EnabledValue(al: Alphabet, lines: seq<string>, a: nat, b: nat): seq<string>
    requires a <= b <= |lines|
  {
    Lines.Concat(Pieces(al, lines)[a..b])
  }

  /** The lines from a to b, between blank lines or the ends of the text. */
  ghost predicate IsStanza(al: Alphabet, lines: seq<string>, a: nat, b: nat) {
    && a <= b <= |lines| && (forall k :: a <= k < b ==> !AllSpace(al, lines[k]))
    && (a > 0 ==> AllSpace(al, lines[a - 1])) && (b < |lines| ==> AllSpace(al, lines[b]))
  }

  ghost predicate SaysOff(value: seq<string>) { |value| == 1 && SaysNo(value[0]) }

  ghost predicate SwitchedOff(al: Alphabet, lines: seq<string>, a: nat, b: nat)
    requires a <= b <= |lines|
  {
    SaysOff(EnabledValue(al, lines, a, b))
  }

  /** A line of a stanza after the rewrite. */
  ghost function LineAfter(al: Alphabet, lines: seq<string>, a: nat, b: nat, i: nat): string
    requires a <= i < b <= |lines|
  {
    var line := lines[i];
    if InField(al, lines, i, Uris) && !SwitchedOff(al, lines, a, b)
    then line[..ValueStart(al, line)] + Rewords(al, Normalize, line[ValueStart(al, line)..])
    else line
  }

  // ---------------------------------------------------------------------------------
  // What the parser knows before each line

  function FieldBefore(lx: Lexer, lines: seq<string>, i: nat): Field
    requires i <= |lines|
  {
    if i == 0 then Other
    else NextField(lx.kind(FieldBefore(lx, lines, i - 1), lines[i - 1]), FieldBefore(lx, lines, i - 1))
  }

  function KindAt(lx: Lexer, lines: seq<string>, i: nat): Kind
    requires i < |lines|
  {
    lx.kind(FieldBefore(lx, lines, i), lines[i])
  }

  function EnabledBefore(lx: Lexer, lines: seq<string>, i: nat): seq<string>
    requires i <= |lines|
  {
    if i == 0 then []
    else NextEnabled(lx, KindAt(lx, lines, i - 1), lines[i - 1], EnabledBefore(lx, lines, i - 1))
  }

  /** The Enabled value of a stanza, as the parser has it when it stands before line `i`: what it has
      seen and what is to come. */
  function ValueAround(lx: Lexer, lines: seq<string>, i: nat): seq<string>
    requires i <= |lines|
  {
    EnabledBefore(lx, lines, i) + Later(lx, lines[i..], FieldBefore(lx, lines, i))
  }

  predicate ActiveAt(lx: Lexer, lines: seq<string>, i: nat)
    requires i < |lines|
  {
    !lx.disables(ValueAround(lx, lines, i + 1))
  }

  /** The rewritten lines from the k-th on. */
  function NewFrom(lx: Lexer, rule: Rule, lines: seq<string>, k: nat): seq<string>
    requires k <= |lines|
  {
    NewLines(lx, rule, lines[k..], FieldBefore(lx, lines, k), EnabledBefore(lx, lines, k))
  }

  lemma ActiveIsAt(lx: Lexer, lines: seq<string>, k: nat)
    requires k < |lines|
    ensures Active(lx, lines[k..], FieldBefore(lx, lines, k), EnabledBefore(lx, lines, k)) == ActiveAt(lx, lines, k)
  {
    assert lines[k..][0] == lines[k] && lines[k..][1..] == lines[k + 1..];
  }

  function LineAt(lx: Lexer, rule: Rule, lines: seq<string>, i: nat): string
    requires i < |lines|
  {
    NewLine(lx, rule, lines[i], KindAt(lx, lines, i), ActiveAt(lx, lines, i))
  }

  lemma NewStep(lx: Lexer, rule: Rule, lines: seq<string>, k: nat)
    requires k < |lines|
    ensures NewFrom(lx, rule, lines, k) ==
      [LineAt(lx, rule, lines, k)] + NewFrom(lx, rule, lines, k + 1)
  {
    ActiveIsAt(lx, lines, k);
    assert lines[k..][0] == lines[k] && lines[k..][1..] == lines[k + 1..];
  }

  /** All rewritten lines, each by itself. */
  function AllLines(lx: Lexer, rule: Rule, lines: seq<string>): seq<string> {
    seq(|lines|, i requires 0 <= i < |lines| => LineAt(lx, rule, lines, i))
  }

  lemma Prepend(x: string, all: seq<string>, k: nat)
    requires k < |all| && all[k] == x
    ensures [x] + all[k + 1..] == all[k..]
  {
  }

  lemma {:induction false} NewIsAll(lx: Lexer, rule: Rule, lines: seq<string>, k: nat)
    requires k <= |lines|
    ensures NewFrom(lx, rule, lines, k) == AllLines(lx, rule, lines)[k..]
    decreases |lines| - k
  {
    if k < |lines| {
      NewStep(lx, rule, lines, k);
      NewIsAll(lx, rule, lines, k + 1);
      Prepend(LineAt(lx, rule, lines, k), AllLines(lx, rule, lines), k);
    }
  }

  // ---------------------------------------------------------------------------------
  // Fields

  /** The lexer of .sources files, over any alphabet in which # and : are no white space. */
  ghost predicate IsSources(al: Alphabet, lx: Lexer) {
    && !al.space('#') && !al.space(':')
    && (forall open, line :: lx.kind(open, line) == KindOf(al, FieldOf, open, line))
    && (forall s :: lx.words(s) == Words(al, s))
    && (forall value :: lx.disables(value) == Disables(value))
  }

  /** Names and their fields, with the fields that matter. */
  lemma HeaderKind(al: Alphabet, open: Field, line: string, f: Field)
    requires !al.space('#') && !al.space(':') && IsPlain(al, line) && !IsIndented(al, line) && f != Other
    ensures var kind := KindOf(al, FieldOf, open, line);
      && kind.Value? && (kind.field == f <==> HeaderNames(al, line, f))
      && (kind.field == f ==> kind.start == ValueStart(al, line))
  {
    KindMeans(al, FieldOf, open, line, "");
    if name :| HasHeader(al, line, name) {
      KindMeans(al, FieldOf, open, line, name);
      FieldIsNamed(name);
      ColonOf(al, line, name);
      forall other | HasHeader(al, line, other)
        ensures other == name
      {
        ColonOf(al, line, other);
      }
    }
  }

  lemma ColonOf(al: Alphabet, line: string, name: string)
    requires HasHeader(al, line, name)
    ensures FirstColon(line) == |name| && line[..FirstColon(line)] == name
  {
    assert forall i :: 0 <= i < |name| ==> line[i] == name[i];
    ColonAt(line, |name|);
  }

  lemma {:induction false} ColonAt(line: string, n: nat)
    requires n < |line| && line[n] == ':' && forall i :: 0 <= i < n ==> line[i] != ':'
    ensures FirstColon(line) == n
  {
    if n > 0 {
      ColonAt(line[1..], n - 1);
    }
  }

  lemma OpensLater(al: Alphabet, lines: seq<string>, j: nat, i: nat, f: Field)
    requires i == j + 1 < |lines| && !AllSpace(al, lines[i]) && (IsPlain(al, lines[i]) ==> IsIndented(al, lines[i]))
    ensures OpenAfter(al, lines, i, f) <==> OpenAfter(al, lines, j, f)
  {
    if h: nat :| OpensField(al, lines, h, i, f) {
      assert OpensField(al, lines, h, j, f);
    }
    if h: nat :| OpensField(al, lines, h, j, f) {
      assert OpensField(al, lines, h, i, f);
    }
  }

  lemma OpensHere(al: Alphabet, lines: seq<string>, i: nat, f: Field)
    requires i < |lines|
    requires AllSpace(al, lines[i]) || (IsPlain(al, lines[i]) && !IsIndented(al, lines[i])) || i == 0
    ensures OpenAfter(al, lines, i, f) <==>
      IsPlain(al, lines[i]) && !IsIndented(al, lines[i]) && HeaderNames(al, lines[i], f)
  {
    if h: nat :| OpensField(al, lines, h, i, f) {
      assert h == i;
    }
    if IsPlain(al, lines[i]) && !IsIndented(al, lines[i]) && HeaderNames(al, lines[i], f) {
      assert OpensField(al, lines, i, i, f);
    }
  }

  /** The field that the parser has open is the one that the last header opened. */
  lemma {:induction false} FieldMeans(al: Alphabet, lx: Lexer, lines: seq<string>, i: nat, f: Field)
    requires IsSources(al, lx) && i < |lines| && f != Other
    ensures FieldBefore(lx, lines, i + 1) == f <==> OpenAfter(al, lines, i, f)
  {
    var open, line := FieldBefore(lx, lines, i), lines[i];
    KindMeans(al, FieldOf, open, line, "");
    assert FieldBefore(lx, lines, i + 1) == NextField(KindOf(al, FieldOf, open, line), open);
    if i > 0 {
      FieldMeans(al, lx, lines, i - 1, f);
    }
    if IsPlain(al, line) && !IsIndented(al, line) {
      HeaderKind(al, open, line, f);
      OpensHere(al, lines, i, f);
    } else if AllSpace(al, line) || i == 0 {
      OpensHere(al, lines, i, f);
    } else {
      OpensLater(al, lines, i - 1, i, f);
    }
  }

  lemma IndentedStart(al: Alphabet, line: string)
    requires IsIndented(al, line)
    ensures ValueStart(al, line) == 0
  {
  }

  /** What the parser takes a line for is the field that it is in. */
  lemma KindIsField(al: Alphabet, lx: Lexer, lines: seq<string>, i: nat, f: Field)
    requires IsSources(al, lx) && i < |lines| && f != Other
    ensures var kind := KindAt(lx, lines, i);
      && (kind.Value? && kind.field == f <==> InField(al, lines, i, f))
      && (kind.Value? && kind.field == f ==> kind.start == ValueStart(al, lines[i]))
      && (kind == Blank <==> AllSpace(al, lines[i]))
  {
    var open, line := FieldBefore(lx, lines, i), lines[i];
    KindMeans(al, FieldOf, open, line, "");
    FieldMeans(al, lx, lines, i, f);
    if IsPlain(al, line) && !IsIndented(al, line) {
      HeaderKind(al, open, line, f);
    }
  }

  // ---------------------------------------------------------------------------------
  // Stanzas

  /** The words that the parser adds to the Enabled value at a line. */
  function WordsAt(lx: Lexer, lines: seq<string>, i: nat): seq<string>
    requires i < |lines|
  {
    EnabledWords(lx, KindAt(lx, lines, i), lines[i])
  }

  function ValueBetween(lx: Lexer, lines: seq<string>, a: nat, b: nat): seq<string>
    requires a <= b <= |lines|
  {
    if a == b then [] else ValueBetween(lx, lines, a, b - 1) + WordsAt(lx, lines, b - 1)
  }

  predicate BlankAt(lx: Lexer, lines: seq<string>, i: nat)
    requires i < |lines|
  {
    KindAt(lx, lines, i) == Blank
  }

  ghost predicate IsRun(lx: Lexer, lines: seq<string>, a: nat, b: nat) {
    && a <= b <= |lines| && (forall k :: a <= k < b ==> !BlankAt(lx, lines, k))
    && (a > 0 ==> BlankAt(lx, lines, a - 1)) && (b < |lines| ==> BlankAt(lx, lines, b))
  }

  lemma BeforeNext(lx: Lexer, lines: seq<string>, i: nat)
    requires i < |lines|
    ensures EnabledBefore(lx, lines, i + 1)
      == if BlankAt(lx, lines, i) then [] else EnabledBefore(lx, lines, i) + WordsAt(lx, lines, i)
  {
  }

  lemma {:induction false} ValueBefore(lx: Lexer, lines: seq<string>, a: nat, b: nat, i: nat)
    requires IsRun(lx, lines, a, b) && a <= i <= b
    ensures EnabledBefore(lx, lines, i) == ValueBetween(lx, lines, a, i)
    decreases i
  {
    if i > 0 {
      BeforeNext(lx, lines, i - 1);
    }
    if i > a {
      ValueBefore(lx, lines, a, b, i - 1);
    }
  }

  lemma {:induction false} ValueAppend(lx: Lexer, lines: seq<string>, a: nat, i: nat, b: nat)
    requires a <= i <= b <= |lines|
    ensures ValueBetween(lx, lines, a, b) == ValueBetween(lx, lines, a, i) + ValueBetween(lx, lines, i, b)
    decreases b
  {
    var front := ValueBetween(lx, lines, a, i);
    if i == b {
      assert front + [] == front;
    } else {
      ValueAppend(lx, lines, a, i, b - 1);
      Reassociate(front, ValueBetween(lx, lines, i, b - 1), WordsAt(lx, lines, b - 1));
    }
  }

  lemma Reassociate(a: seq<string>, b: seq<string>, c: seq<string>)
    ensures (a + b) + c == a + (b + c)
  {
  }

  lemma OneLineValue(lx: Lexer, lines: seq<string>, i: nat)
    requires i < |lines|
    ensures ValueBetween(lx, lines, i, i + 1) == WordsAt(lx, lines, i)
  {
    assert ValueBetween(lx, lines, i, i) == [] && [] + WordsAt(lx, lines, i) == WordsAt(lx, lines, i);
  }

  lemma LaterAt(lx: Lexer, lines: seq<string>, i: nat)
    requires i < |lines|
    ensures Later(lx, lines[i..], FieldBefore(lx, lines, i)) ==
      if BlankAt(lx, lines, i) then []
      else WordsAt(lx, lines, i) + Later(lx, lines[i + 1..], FieldBefore(lx, lines, i + 1))
  {
    assert lines[i..][0] == lines[i] && lines[i..][1..] == lines[i + 1..];
  }

  lemma {:induction false} ValueLater(lx: Lexer, lines: seq<string>, a: nat, b: nat, i: nat)
    requires IsRun(lx, lines, a, b) && a <= i <= b
    ensures Later(lx, lines[i..], FieldBefore(lx, lines, i)) == ValueBetween(lx, lines, i, b)
    decreases b - i
  {
    if i < |lines| {
      LaterAt(lx, lines, i);
    }
    if i < b {
      ValueLater(lx, lines, a, b, i + 1);
      ValueAppend(lx, lines, i, i + 1, b);
      OneLineValue(lx, lines, i);
    }
  }

  /** Wherever in a stanza the parser stands, the whole of its Enabled value is around it. */
  lemma WholeValue(lx: Lexer, lines: seq<string>, a: nat, b: nat, i: nat)
    requires IsRun(lx, lines, a, b) && a <= i <= b
    ensures ValueAround(lx, lines, i) == ValueBetween(lx, lines, a, b)
  {
    ValueBefore(lx, lines, a, b, i);
    ValueLater(lx, lines, a, b, i);
    ValueAppend(lx, lines, a, i, b);
  }

  lemma WordsMeanEnabled(al: Alphabet, lx: Lexer, lines: seq<string>, i: nat)
    requires IsSources(al, lx) && i < |lines|
    ensures WordsAt(lx, lines, i) == EnabledIn(al, lines, i)
    ensures BlankAt(lx, lines, i) <==> AllSpace(al, lines[i])
  {
    KindIsField(al, lx, lines, i, Enabled);
  }

  lemma {:induction false} ValueByPieces(lx: Lexer, lines: seq<string>, pieces: seq<seq<string>>, a: nat, b: nat)
    requires a <= b <= |lines| == |pieces| && forall k :: 0 <= k < |lines| ==> pieces[k] == WordsAt(lx, lines, k)
    ensures ValueBetween(lx, lines, a, b) == Lines.Concat(pieces[a..b])
    decreases b
  {
    if a < b {
      ValueByPieces(lx, lines, pieces, a, b - 1);
      assert pieces[a..b] == pieces[a..b - 1] + [pieces[b - 1]];
      Lines.ConcatMore(pieces[a..b - 1], pieces[b - 1]);
    }
  }

  lemma ValueMeans(al: Alphabet, lx: Lexer, lines: seq<string>, a: nat, b: nat)
    requires IsSources(al, lx) && a <= b <= |lines|
    ensures ValueBetween(lx, lines, a, b) == EnabledValue(al, lines, a, b)
  {
    forall k | 0 <= k < |lines|
      ensures Pieces(al, lines)[k] == WordsAt(lx, lines, k)
    {
      WordsMeanEnabled(al, lx, lines, k);
    }
    ValueByPieces(lx, lines, Pieces(al, lines), a, b);
  }

  lemma StanzaIsRun(al: Alphabet, lx: Lexer, lines: seq<string>, a: nat, b: nat)
    requires IsSources(al, lx) && IsStanza(al, lines, a, b)
    ensures IsRun(lx, lines, a, b)
  {
    forall k: nat | k < |lines|
      ensures BlankAt(lx, lines, k) <==> AllSpace(al, lines[k])
    {
      WordsMeanEnabled(al, lx, lines, k);
    }
  }

  lemma DisablesIs(al: Alphabet, lx: Lexer, value: seq<string>)
    requires IsSources(al, lx)
    ensures lx.disables(value) <==> SaysOff(value)
  {
    DisablesMeans(value);
  }

  lemma ActiveInRun(lx: Lexer, lines: seq<string>, a: nat, b: nat, i: nat)
    requires IsRun(lx, lines, a, b) && a <= i < b
    ensures ActiveAt(lx, lines, i) <==> !lx.disables(ValueBetween(lx, lines, a, b))
  {
    WholeValue(lx, lines, a, b, i + 1);
  }

  /** A stanza is on or off as a whole. */
  lemma ActiveMeans(al: Alphabet, lx: Lexer, lines: seq<string>, a: nat, b: nat, i: nat)
    requires IsSources(al, lx) && IsStanza(al, lines, a, b) && a <= i < b
    ensures ActiveAt(lx, lines, i) <==> !lx.disables(EnabledValue(al, lines, a, b))
  {
    StanzaIsRun(al, lx, lines, a, b);
    ActiveInRun(lx, lines, a, b, i);
    ValueMeans(al, lx, lines, a, b);
  }

  /** Every line that is not blank is in some stanza. */
  lemma InSomeStanza(al: Alphabet, lines: seq<string>, i: nat) returns (a: nat, b: nat)
    requires i < |lines| && !AllSpace(al, lines[i])
    ensures IsStanza(al, lines, a, b) && a <= i < b
  {
    a, b := i, i + 1;
    while a > 0 && !AllSpace(al, lines[a - 1])
      invariant a <= i && forall k :: a <= k <= i ==> !AllSpace(al, lines[k])
    {
      a := a - 1;
    }
    while b < |lines| && !AllSpace(al, lines[b])
      invariant i < b <= |lines| && forall k :: a <= k < b ==> !AllSpace(al, lines[k])
    {
      b := b + 1;
    }
  }

  lemma LineByKind(lx: Lexer, rule: Rule, line: string, kind: Kind, active: bool)
    ensures NewLine(lx, rule, line, kind, active)
      == if kind.Value? && kind.field == Uris && active
         then Head(line, kind.start) + Text(Rewrite(rule, lx.words(Tail(line, kind.start)))) else line
  {
  }

  /** A rewritten line, in the terms of its field. */
  lemma LineIs(al: Alphabet, lx: Lexer, lines: seq<string>, i: nat)
    requires IsSources(al, lx) && i < |lines|
    ensures LineAt(lx, Normalize, lines, i)
      == if InField(al, lines, i, Uris) && ActiveAt(lx, lines, i)
         then lines[i][..ValueStart(al, lines[i])] + Rewords(al, Normalize, lines[i][ValueStart(al, lines[i])..])
         else lines[i]
  {
    KindIsField(al, lx, lines, i, Uris);
    LineByKind(lx, Normalize, lines[i], KindAt(lx, lines, i), ActiveAt(lx, lines, i));
  }

  lemma LineMeans(al: Alphabet, lx: Lexer, lines: seq<string>, a: nat, b: nat, i: nat)
    requires IsSources(al, lx) && IsStanza(al, lines, a, b) && a <= i < b
    ensures LineAt(lx, Normalize, lines, i) == LineAfter(al, lines, a, b, i)
  {
    ActiveMeans(al, lx, lines, a, b, i);
    DisablesIs(al, lx, EnabledValue(al, lines, a, b));
    LineIs(al, lx, lines, i);
  }

  lemma SourcesAre()
    ensures IsSources(SPLITLINES, LexerOf(Sources)) && LexerOf(Sources).lines == (text => SplitLines(SPLITLINES, text))
  {
  }

  lemma NewText(lx: Lexer, rule: Rule, text: string)
    requires Stable(lx, rule)
    ensures Text(Rewrite(rule, Document(lx, text))) == Lines.Concat(AllLines(lx, rule, lx.lines(text)))
  {
    var lines := lx.lines(text);
    assert lines[0..] == lines && AllLines(lx, rule, lines)[0..] == AllLines(lx, rule, lines);
    NewIsAll(lx, rule, lines, 0);
    NewFragments(lx, rule, lines, Other, []);
  }

  /** The rewritten lines are the ones that the reference gives. */
  ghost predicate AsSaid(al: Alphabet, lines: seq<string>, lines': seq<string>) {
    && |lines'| == |lines|
    && (forall i :: 0 <= i < |lines| && AllSpace(al, lines[i]) ==> lines'[i] == lines[i])
    && forall a: nat, b: nat, i: nat :: IsStanza(al, lines, a, b) && a <= i < b ==>
         lines'[i] == LineAfter(al, lines, a, b, i)
  }

  lemma AllAsSaid(al: Alphabet, lx: Lexer, lines: seq<string>)
    requires IsSources(al, lx)
    ensures AsSaid(al, lines, AllLines(lx, Normalize, lines))
  {
    forall i: nat | i < |lines| && AllSpace(al, lines[i])
      ensures LineAt(lx, Normalize, lines, i) == lines[i]
    {
      LineIs(al, lx, lines, i);
    }
    forall a: nat, b: nat, i: nat | IsStanza(al, lines, a, b) && a <= i < b
      ensures LineAt(lx, Normalize, lines, i) == LineAfter(al, lines, a, b, i)
    {
      LineMeans(al, lx, lines, a, b, i);
    }
  }

  /** Main result: rewriting a deb822 source acts on each line by itself. A line of a URIs field, in a
      stanza whose Enabled fields together do not say no, has its words replaced; every other line
      stays. `lines'` are the lines of the result. */
  lemma RewriteMeans(text: string) returns (lines': seq<string>)
    ensures Text(Rewrite(Normalize, Document(LexerOf(Sources), text))) == Lines.Concat(lines')
    ensures AsSaid(SPLITLINES, SplitLines(SPLITLINES, text), lines')
  {
    var lines := SplitLines(SPLITLINES, text);
    SourcesAre();
    FormatsStable(Sources);
    NewText(LexerOf(Sources), Normalize, text);
    lines' := AllLines(LexerOf(Sources), Normalize, lines);
    AllAsSaid(SPLITLINES, LexerOf(Sources), lines);
  }

  /** A line that begins with the name of a field and a colon holds its value from there on. */
  lemma HeaderLine(open: Field, name: string, rest: string)
    requires NamesUris(name) || NamesEnabled(name)
    ensures LexerOf(Sources).kind(open, name + ":" + rest)
      == if NamesUris(name) then Value(Uris, 5) else Value(Enabled, 8)
  {
    var line := name + ":" + rest;
    assert line[..|name|] == name && line[|name|] == ':' && line[0] == name[0];
    assert !IsSpace(line[0]) && HasHeader(SPLITLINES, line, name);
    KindMeans(SPLITLINES, FieldOf, open, line, name);
    FieldIsNamed(name);
  }
}
