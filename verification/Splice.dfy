/** Replacing spans of a text: `replace_uris` of scripts/browser_acquisition.py. */
module Splice {
  import opened Wrappers

  datatype Span = Span(start: nat, end: nat)

  /** What to put in place of a token; None leaves it. */
  type Rule = string -> Option<string>

  function Rewritten(rule: Rule, token: string): string {
    match rule(token)
    case Some(new') => new'
    case None => token
  }

  /** Spans in order, without overlap, each with something in it. */
  predicate Ordered(text: string, spans: seq<Span>) {
    && (forall i :: 0 <= i < |spans| ==> spans[i].start < spans[i].end <= |text|)
    && (forall i :: 0 < i < |spans| ==> spans[i - 1].end <= spans[i].start)
  }

  lemma OrderedRest(text: string, spans: seq<Span>, i: nat)
    requires Ordered(text, spans) && i <= |spans|
    ensures Ordered(text, spans[i..])
    ensures i > 0 && i < |spans| ==> spans[i - 1].end <= spans[i].start
  {
  }

  /** All spans replaced at once; what lies before `from` is left out. */
  function ReplaceFrom(rule: Rule, text: string, spans: seq<Span>, from: nat): string
    requires Ordered(text, spans) && from <= |text| && (spans != [] ==> from <= spans[0].start)
    decreases |spans|
  {
    if spans == [] then text[from..]
    else
      OrderedRest(text, spans, 1);
      text[from..spans[0].start] + Rewritten(rule, text[spans[0].start..spans[0].end])
      + ReplaceFrom(rule, text, spans[1..], spans[0].end)
  }

  function ReplaceAll(rule: Rule, text: string, spans: seq<Span>): string
    requires Ordered(text, spans)
  {
    ReplaceFrom(rule, text, spans, 0)
  }

  /** Where the spans from the i-th on begin. */
  function Top(text: string, spans: seq<Span>, i: nat): nat
    requires i <= |spans|
  {
    if i < |spans| then spans[i].start else |text|
  }

  lemma Associate(a: string, b: string, c: string, d: string)
    ensures (a + b) + c + d == a + (b + c + d)
  {
  }

  lemma ReplaceLater(rule: Rule, text: string, spans: seq<Span>, from: nat, to: nat)
    requires Ordered(text, spans) && from <= to <= |text| && (spans != [] ==> to <= spans[0].start)
    ensures ReplaceFrom(rule, text, spans, from) == text[from..to] + ReplaceFrom(rule, text, spans, to)
  {
    if spans == [] {
      assert text[from..] == text[from..to] + text[to..];
    } else {
      assert text[from..spans[0].start] == text[from..to] + text[to..spans[0].start];
      Associate(text[from..to], text[to..spans[0].start], Rewritten(rule, text[spans[0].start..spans[0].end]),
                ReplaceFrom(rule, text, spans[1..], spans[0].end));
    }
  }

  /** The text while the i-th span is next: untouched before it, finished from it on. */
  function Half(rule: Rule, text: string, spans: seq<Span>, i: nat): string
    requires Ordered(text, spans) && i <= |spans|
  {
    OrderedRest(text, spans, i);
    text[..Top(text, spans, i)] + ReplaceFrom(rule, text, spans[i..], Top(text, spans, i))
  }

  lemma Assemble(a: string, none: string, w: string, c: string)
    requires none == ""
    ensures a + (none + w + c) == a + w + c
  {
    assert none + w == w;
  }

  /** The parts of a text that is as it was up to `top`. */
  lemma PartsOf(text: string, rest: string, start: nat, end: nat, top: nat)
    requires start <= end <= top <= |text|
    ensures var r := text[..top] + rest;
      && r[..start] == text[..start] && r[start..end] == text[start..end] && r[end..] == text[end..top] + rest
  {
  }

  lemma HalfAt(rule: Rule, text: string, spans: seq<Span>, i: nat)
    requires Ordered(text, spans) && i < |spans|
    ensures Ordered(text, spans[i + 1..]) && spans[i].end <= Top(text, spans, i + 1) <= |text|
    ensures i + 1 < |spans| ==> spans[i].end <= spans[i + 1..][0].start
    ensures Half(rule, text, spans, i) == text[..spans[i].start]
      + Rewritten(rule, text[spans[i].start..spans[i].end]) + ReplaceFrom(rule, text, spans[i + 1..], spans[i].end)
  {
    var span := spans[i];
    OrderedRest(text, spans, i);
    OrderedRest(text, spans, i + 1);
    assert spans[i..][0] == span && spans[i..][1..] == spans[i + 1..];
    Assemble(text[..span.start], text[span.start..span.start], Rewritten(rule, text[span.start..span.end]),
             ReplaceFrom(rule, text, spans[i + 1..], span.end));
  }

  lemma StepLeft(rule: Rule, text: string, spans: seq<Span>, i: nat)
    requires Ordered(text, spans) && i < |spans|
    ensures var r, span := Half(rule, text, spans, i + 1), spans[i];
            && span.end <= |r| && r[span.start..span.end] == text[span.start..span.end]
            && Half(rule, text, spans, i)
                 == r[..span.start] + Rewritten(rule, text[span.start..span.end]) + r[span.end..]
  {
    var span, top := spans[i], Top(text, spans, i + 1);
    HalfAt(rule, text, spans, i);
    ReplaceLater(rule, text, spans[i + 1..], span.end, top);
    PartsOf(text, ReplaceFrom(rule, text, spans[i + 1..], top), span.start, span.end, top);
  }

  /** One round of `replace_uris`. */
  method ReplaceOne(rule: Rule, text: string, span: Span) returns (r: string)
    requires span.start <= span.end <= |text|
    ensures r == text[..span.start] + Rewritten(rule, text[span.start..span.end]) + text[span.end..]
  {
    var replacement := rule(text[span.start..span.end]);
    if replacement.Some? {
      r := text[..span.start] + replacement.value + text[span.end..];
    } else {
      r := text;
    }
  }

  /** `replace_uris`: the last span first, so earlier offsets stay good. */
  method ReplaceUris(rule: Rule, text: string, spans: seq<Span>) returns (r: string)
    requires Ordered(text, spans)
    ensures r == ReplaceAll(rule, text, spans)
  {
    r := text;
    var i: nat := |spans|;
    assert text[..|text|] + text[|text|..] == text;
    while i > 0
      invariant i <= |spans| && r == Half(rule, text, spans, i)
    {
      i := i - 1;
      StepLeft(rule, text, spans, i);
      r := ReplaceOne(rule, r, spans[i]);
    }
    HalfDone(rule, text, spans);
  }

  lemma HalfDone(rule: Rule, text: string, spans: seq<Span>)
    requires Ordered(text, spans)
    ensures Half(rule, text, spans, 0) == ReplaceAll(rule, text, spans)
  {
    assert spans[0..] == spans;
    ReplaceLater(rule, text, spans, 0, Top(text, spans, 0));
    assert text[..Top(text, spans, 0)] == text[0..Top(text, spans, 0)];
  }

  // ---------------------------------------------------------------------------------
  // Texts as fragments

  /** A text cut up into what must stay and the tokens that may be replaced. */
  datatype Fragment = Keep(text: string) | Token(text: string)

  function Text(fragments: seq<Fragment>): string {
    if fragments == [] then "" else fragments[0].text + Text(fragments[1..])
  }

  /** Where the tokens are in a text whose fragments start at `at`. */
  function Positions(fragments: seq<Fragment>, at: nat): seq<Span> {
    if fragments == [] then []
    else
      var end := at + |fragments[0].text|;
      (if fragments[0].Token? then [Span(at, end)] else []) + Positions(fragments[1..], end)
  }

  function RewriteOne(rule: Rule, f: Fragment): Fragment {
    if f.Token? then Token(Rewritten(rule, f.text)) else f
  }

  /** Every token replaced, everything else as it was. */
  function Rewrite(rule: Rule, fragments: seq<Fragment>): seq<Fragment> {
    seq(|fragments|, i requires 0 <= i < |fragments| => RewriteOne(rule, fragments[i]))
  }

  ghost predicate TokensNotEmpty(fragments: seq<Fragment>) {
    forall f :: f in fragments && f.Token? ==> f.text != ""
  }

  lemma {:induction false} TextAppend(a: seq<Fragment>, b: seq<Fragment>)
    ensures Text(a + b) == Text(a) + Text(b)
  {
    if a == [] {
      assert a + b == b;
    } else {
      assert (a + b)[1..] == a[1..] + b;
      TextAppend(a[1..], b);
    }
  }

  lemma {:induction false} PositionsAppend(a: seq<Fragment>, b: seq<Fragment>, at: nat)
    ensures Positions(a + b, at) == Positions(a, at) + Positions(b, at + |Text(a)|)
  {
    if a == [] {
      assert a + b == b;
    } else {
      var end := at + |a[0].text|;
      assert (a + b)[0] == a[0] && (a + b)[1..] == a[1..] + b;
      PositionsAppend(a[1..], b, end);
      assert end + |Text(a[1..])| == at + |Text(a)|;
    }
  }

  ghost predicate Cut(text: string, at: nat, fragments: seq<Fragment>) {
    at <= |text| && text[at..] == Text(fragments) && TokensNotEmpty(fragments)
  }

  lemma CutRest(text: string, at: nat, fragments: seq<Fragment>)
    requires Cut(text, at, fragments) && fragments != []
    ensures Cut(text, at + |fragments[0].text|, fragments[1..])
    ensures text[at..at + |fragments[0].text|] == fragments[0].text
    ensures fragments[0].Token? ==> fragments[0].text != ""
  {
    assert text[at..][|fragments[0].text|..] == text[at + |fragments[0].text|..];
  }

  lemma {:induction false} PositionsOrdered(text: string, at: nat, fragments: seq<Fragment>)
    requires Cut(text, at, fragments)
    ensures Ordered(text, Positions(fragments, at))
    ensures Positions(fragments, at) != [] ==> at <= Positions(fragments, at)[0].start
    decreases |fragments|
  {
    if fragments != [] {
      var end := at + |fragments[0].text|;
      CutRest(text, at, fragments);
      PositionsOrdered(text, end, fragments[1..]);
      if fragments[0].Token? {
        OrderedFront(text, at, end, Positions(fragments[1..], end));
      }
    }
  }

  lemma OrderedFront(text: string, at: nat, end: nat, rest: seq<Span>)
    requires at < end <= |text| && Ordered(text, rest) && (rest != [] ==> end <= rest[0].start)
    ensures Ordered(text, [Span(at, end)] + rest)
  {
    var all := [Span(at, end)] + rest;
    assert all[1..] == rest;
    assert forall i :: 1 <= i < |all| ==> all[i] == rest[i - 1];
  }

  /** Replacing the spans of a text that is given in fragments replaces its tokens. */
  lemma {:induction false} ReplaceFragments(rule: Rule, text: string, at: nat, fragments: seq<Fragment>)
    requires Cut(text, at, fragments)
    ensures Ordered(text, Positions(fragments, at))
    ensures Positions(fragments, at) != [] ==> at <= Positions(fragments, at)[0].start
    ensures ReplaceFrom(rule, text, Positions(fragments, at), at) == Text(Rewrite(rule, fragments))
    decreases |fragments|
  {
    PositionsOrdered(text, at, fragments);
    if fragments != [] {
      var first, rest := fragments[0], fragments[1..];
      var end := at + |first.text|;
      CutRest(text, at, fragments);
      ReplaceFragments(rule, text, end, rest);
      RewriteFirst(rule, fragments);
      var spans := Positions(rest, end);
      if first.Keep? {
        assert Positions(fragments, at) == spans;
        ReplaceLater(rule, text, spans, at, end);
      } else {
        assert Positions(fragments, at) == [Span(at, end)] + spans;
        ReplaceToken(rule, text, at, end, spans);
      }
    }
  }

  lemma RewriteFirst(rule: Rule, fragments: seq<Fragment>)
    requires fragments != []
    ensures Text(Rewrite(rule, fragments)) == RewriteOne(rule, fragments[0]).text + Text(Rewrite(rule, fragments[1..]))
  {
    assert Rewrite(rule, fragments)[1..] == Rewrite(rule, fragments[1..]);
  }

  lemma ReplaceToken(rule: Rule, text: string, at: nat, end: nat, rest: seq<Span>)
    requires at < end <= |text| && Ordered(text, rest) && (rest != [] ==> end <= rest[0].start)
    ensures Ordered(text, [Span(at, end)] + rest)
    ensures ReplaceFrom(rule, text, [Span(at, end)] + rest, at)
      == Rewritten(rule, text[at..end]) + ReplaceFrom(rule, text, rest, end)
  {
    OrderedFront(text, at, end, rest);
    assert ([Span(at, end)] + rest)[1..] == rest;
    assert text[at..at] + Rewritten(rule, text[at..end]) == Rewritten(rule, text[at..end]);
  }

  /** The splice, one span at a time from the right, leaves the text with every token replaced
      and every other fragment as it was. */
  lemma SpliceRewrites(rule: Rule, fragments: seq<Fragment>)
    requires TokensNotEmpty(fragments)
    ensures Ordered(Text(fragments), Positions(fragments, 0))
    ensures ReplaceAll(rule, Text(fragments), Positions(fragments, 0)) == Text(Rewrite(rule, fragments))
  {
    assert Text(fragments)[0..] == Text(fragments);
    ReplaceFragments(rule, Text(fragments), 0, fragments);
  }
}
