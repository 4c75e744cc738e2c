/** The guide itself: links of a republished section, the joined document, and what extracting a
    section from it gives. */
module SiteGuide {
  import opened Wrappers
  import opened SiteSections
  import Lines

  const LINK := "](#"
  const SERVICE := "](service.md#"

  /** How far `[^)\s]+` reaches. */
  function Reach(space: Space, s: string): (n: nat)
    ensures n <= |s| && forall i :: 0 <= i < n ==> s[i] != ')' && !space(s[i])
    ensures n < |s| ==> s[n] == ')' || space(s[n])
  {
    if s == "" || s[0] == ')' || space(s[0]) then 0 else 1 + Reach(space, s[1..])
  }

  predicate StartsWith(s: string, prefix: string) { |prefix| <= |s| && s[..|prefix|] == prefix }

  /** The length of a link's fragment, if `\]\(#([^)\s]+)\)` matches at the start. */
  function Fragment(space: Space, s: string): (r: Option<nat>)
    ensures r.Some? ==> r.value > 0 && |LINK| + r.value < |s| && s[|LINK| + r.value] == ')'
  {
    if !StartsWith(s, LINK) then None
    else
      var n := Reach(space, s[|LINK|..]);
      if n > 0 && |LINK| + n < |s| && s[|LINK| + n] == ')' then Some(n) else None
  }

  /** The match at the start, sent to docs/service.md. */
  function Linked(s: string, n: nat): string
    requires |LINK| + n <= |s|
  {
    SERVICE + s[|LINK|..|LINK| + n] + ")"
  }

  /** The replacement of every match, from the left. */
  function Rewrite(space: Space, s: string): string
    decreases |s|
  {
    if s == "" then ""
    else match Fragment(space, s)
      case None => [s[0]] + Rewrite(space, s[1..])
      case Some(n) => Linked(s, n) + Rewrite(space, s[|LINK| + n + 1..])
  }

  /** `serviceSections`, for any headings. */
  function ServiceSections(space: Space, service: string, headings: seq<string>): Option<seq<string>> {
    if headings == [] then Some([])
    else match (Section(space, service, headings[0]), ServiceSections(space, service, headings[1..]))
      case (Some(text), Some(rest)) => Some([Rewrite(space, text)] + rest)
      case _ => None
  }

  /** `proxyGuideMarkdown`. */
  function Guide(space: Space, proxy: string, service: string, headings: seq<string>): Option<string> {
    match ServiceSections(space, service, headings)
    case None => None
    case Some(sections) => Some(Lines.Join([TrimEnd(space, proxy)] + sections, "\n\n") + "\n")
  }

  // ---------------------------------------------------------------------------------
  // Lines put after one another

  lemma {:induction false} FenceAppend(fence: Option<Fence>, a: seq<string>, b: seq<string>)
    ensures FenceAfter(fence, a + b) == FenceAfter(FenceAfter(fence, a), b)
    decreases |a|
  {
    if a == [] {
      assert a + b == b;
    } else {
      assert (a + b)[1..] == a[1..] + b;
      FenceAppend(Step(fence, a[0]), a[1..], b);
    }
  }

  lemma {:induction false} UntilAppend(fence: Option<Fence>, a: seq<string>, b: seq<string>)
    ensures UntilHeading(fence, a + b) ==
      if UntilHeading(fence, a) < |a| then UntilHeading(fence, a) else |a| + UntilHeading(FenceAfter(fence, a), b)
    decreases |a|
  {
    if a == [] {
      assert a + b == b;
    } else if !(fence.None? && Heading(a[0])) {
      assert (a + b)[1..] == a[1..] + b;
      UntilAppend(Step(fence, a[0]), a[1..], b);
    }
  }

  /** No line outside a fence is the title. */
  predicate Lacks(fence: Option<Fence>, lines: seq<string>, title: string)
    decreases |lines|
  {
    lines == [] || (!(fence.None? && lines[0] == title) && Lacks(Step(fence, lines[0]), lines[1..], title))
  }

  lemma {:induction false} SectionSkips(fence: Option<Fence>, a: seq<string>, b: seq<string>, title: string)
    requires Lacks(fence, a, title)
    ensures SectionFrom(fence, a + b, title) == SectionFrom(FenceAfter(fence, a), b, title)
    decreases |a|
  {
    if a == [] {
      assert a + b == b;
    } else {
      assert (a + b)[1..] == a[1..] + b;
      SectionSkips(Step(fence, a[0]), a[1..], b, title);
    }
  }

  lemma {:induction false} LacksWithoutHeadings(fence: Option<Fence>, lines: seq<string>, title: string)
    requires UntilHeading(fence, lines) == |lines| && Heading(title)
    ensures Lacks(fence, lines, title)
    decreases |lines|
  {
    if lines != [] {
      LacksWithoutHeadings(Step(fence, lines[0]), lines[1..], title);
    }
  }

  // ---------------------------------------------------------------------------------
  // One section

  /** Lines that begin with this title and have no other level-2 heading outside a fence. */
  predicate OneHeading(lines: seq<string>, title: string) {
    lines != [] && lines[0] == title && UntilHeading(None, lines[1..]) == |lines| - 1
  }

  lemma {:induction false} PrefixUntil(fence: Option<Fence>, lines: seq<string>)
    ensures var n := UntilHeading(fence, lines);
      UntilHeading(fence, lines[..n]) == n && (n < |lines| ==> FenceAfter(fence, lines[..n]).None?)
    decreases |lines|
  {
    var n := UntilHeading(fence, lines);
    if n > 0 {
      PrefixUntil(Step(fence, lines[0]), lines[1..]);
      assert lines[..n][1..] == lines[1..][..n - 1];
    }
  }

  lemma TitleStep(heading: string)
    ensures Heading(Title(heading)) && Opening(Title(heading)).None? && Step(None, Title(heading)).None?
  {
  }

  /** A heading follows the first section with this title. */
  predicate Followed(fence: Option<Fence>, lines: seq<string>, title: string)
    decreases |lines|
  {
    if lines == [] then false
    else if fence.None? && lines[0] == title then UntilHeading(None, lines[1..]) < |lines| - 1
    else Followed(Step(fence, lines[0]), lines[1..], title)
  }

  lemma {:induction false} SectionLines(fence: Option<Fence>, lines: seq<string>, heading: string)
    requires SectionFrom(fence, lines, Title(heading)).Some?
    ensures OneHeading(SectionFrom(fence, lines, Title(heading)).value, Title(heading))
    ensures Followed(fence, lines, Title(heading)) ==>
      FenceAfter(None, SectionFrom(fence, lines, Title(heading)).value).None?
    decreases |lines|
  {
    var title := Title(heading);
    TitleStep(heading);
    if fence.None? && lines[0] == title {
      var rest := lines[1..];
      var n := UntilHeading(None, rest);
      PrefixUntil(None, rest);
      assert ([title] + rest[..n])[1..] == rest[..n];
    } else {
      SectionLines(Step(fence, lines[0]), lines[1..], heading);
    }
  }

  // ---------------------------------------------------------------------------------
  // Trimming

  lemma {:induction false} SplitSnoc(s: string, c: char)
    requires c != '\n'
    ensures var p := Lines.Split(s, '\n'); Lines.Split(s + [c], '\n') == p[..|p| - 1] + [p[|p| - 1] + [c]]
  {
    var p := Lines.Split(s, '\n');
    if s == "" {
      assert s + [c] == [c];
      Lines.SplitNoSep([c], '\n');
      assert p == [[]] && [] + [c] == [c];
    } else {
      var q := Lines.Split(s[1..], '\n');
      SplitSnoc(s[1..], c);
      assert (s + [c])[1..] == s[1..] + [c];
      if s[0] != '\n' && |q| == 1 {
        assert [s[0]] + (q[0] + [c]) == p[0] + [c];
      }
    }
  }

  lemma {:induction false} RunSnoc(line: string, c: char, m: char)
    requires c != m
    ensures Run(line + [c], m) == Run(line, m)
  {
    if line != "" && line[0] == m {
      assert (line + [c])[1..] == line[1..] + [c];
      RunSnoc(line[1..], c, m);
    }
  }

  lemma OpeningSnoc(line: string, c: char)
    requires c != '`' && c != '~'
    ensures Opening(line + [c]) == Opening(line)
  {
    RunSnoc(line, c, '`');
    RunSnoc(line, c, '~');
  }

  /** Taking one white character off the end of a text changes no fence. */
  lemma TrimStepFence(space: Space, s: string, c: char)
    requires Sane(space) && space(c)
    ensures FenceAfter(None, Lines.Split(s + [c], '\n')) == FenceAfter(None, Lines.Split(s, '\n'))
  {
    var p := Lines.Split(s, '\n');
    if c == '\n' {
      Lines.SplitEndsClean(s, '\n');
      FenceAppend(None, p, [[]]);
    } else {
      var last := p[|p| - 1];
      SplitSnoc(s, c);
      OpeningSnoc(last, c);
      FenceAppend(None, p[..|p| - 1], [last + [c]]);
      FenceAppend(None, p[..|p| - 1], [last]);
      assert p == p[..|p| - 1] + [last];
    }
  }

  lemma {:induction false} TrimKeepsFences(space: Space, s: string)
    requires Sane(space)
    ensures FenceAfter(None, Lines.Split(TrimEnd(space, s), '\n')) == FenceAfter(None, Lines.Split(s, '\n'))
  {
    if s != "" && space(s[|s| - 1]) {
      var before := s[..|s| - 1];
      assert s == before + [s[|s| - 1]];
      TrimKeepsFences(space, before);
      TrimStepFence(space, before, s[|s| - 1]);
    }
  }

  /** A heading ends in ink, so that trimming the section leaves it whole. */
  predicate Inked(space: Space, heading: string) { heading != "" && !space(heading[|heading| - 1]) && '\n' !in heading }

  lemma TitleEndsInInk(space: Space, line: string, c: char, heading: string)
    requires Inked(space, heading) && space(c)
    ensures line + [c] != Title(heading)
  {
    var title := Title(heading);
    assert title[|title| - 1] == heading[|heading| - 1];
    assert (line + [c])[|line|] == c;
  }

  lemma TrimStepHeading(space: Space, s: string, c: char, heading: string)
    requires Sane(space) && space(c) && Inked(space, heading)
    requires OneHeading(Lines.Split(s + [c], '\n'), Title(heading))
    ensures OneHeading(Lines.Split(s, '\n'), Title(heading))
  {
    var p := Lines.Split(s, '\n');
    var n, title := |p|, Title(heading);
    if c == '\n' {
      Lines.SplitEndsClean(s, '\n');
      assert (p + [[]])[1..] == p[1..] + [[]];
      UntilAppend(None, p[1..], [[]]);
    } else {
      var last := p[n - 1];
      SplitSnoc(s, c);
      OpeningSnoc(last, c);
      TitleEndsInInk(space, last, c, heading);
      if n > 1 {
        var more := p[..n - 1] + [last + [c]];
        assert more[1..] == p[1..n - 1] + [last + [c]] && p[1..] == p[1..n - 1] + [last];
        UntilAppend(None, p[1..n - 1], [last + [c]]);
        UntilAppend(None, p[1..n - 1], [last]);
        assert Heading(last) ==> Heading(last + [c]);
      }
    }
  }

  lemma {:induction false} TrimKeepsHeading(space: Space, s: string, heading: string)
    requires Sane(space) && Inked(space, heading) && OneHeading(Lines.Split(s, '\n'), Title(heading))
    ensures OneHeading(Lines.Split(TrimEnd(space, s), '\n'), Title(heading))
  {
    if s != "" && space(s[|s| - 1]) {
      var before := s[..|s| - 1];
      assert s == before + [s[|s| - 1]];
      TrimStepHeading(space, before, s[|s| - 1], heading);
      TrimKeepsHeading(space, before, heading);
    }
  }

  /** An extracted section begins with its heading outside any fence, has no other level-2
      heading outside a fence, ends in ink, and is closed if another heading follows it. */
  lemma ExtractedSection(space: Space, source: string, heading: string)
    requires Sane(space) && Inked(space, heading) && Section(space, source, heading).Some?
    ensures var text := Section(space, source, heading).value;
      && OneHeading(Lines.Split(text, '\n'), Title(heading)) && TrimEnd(space, text) == text
      && (Followed(None, Lines.Split(source, '\n'), Title(heading)) ==> FenceAfter(None, Lines.Split(text, '\n')).None?)
  {
    var all := Lines.Split(source, '\n');
    var lines := SectionFrom(None, all, Title(heading)).value;
    var text := Lines.Join(lines, "\n");
    SectionLines(None, all, heading);
    SectionHasNoBreaks(None, all, Title(heading), source);
    Lines.SplitJoin(lines, '\n');
    TrimKeepsHeading(space, text, heading);
    TrimKeepsFences(space, text);
    TrimTwice(space, text);
  }

  lemma {:induction false} TrimTwice(space: Space, s: string)
    ensures TrimEnd(space, TrimEnd(space, s)) == TrimEnd(space, s)
  {
    if s != "" && space(s[|s| - 1]) {
      TrimTwice(space, s[..|s| - 1]);
    }
  }

  lemma SectionHasNoBreaks(fence: Option<Fence>, all: seq<string>, title: string, source: string)
    requires all == Lines.Split(source, '\n') && SectionFrom(fence, all, title).Some?
    ensures forall line :: line in SectionFrom(fence, all, title).value ==> '\n' !in line
  {
    Lines.SplitClean(source, '\n');
    SectionFromLines(fence, all, title);
  }

  lemma {:induction false} SectionFromLines(fence: Option<Fence>, all: seq<string>, title: string)
    requires SectionFrom(fence, all, title).Some?
    ensures forall line :: line in SectionFrom(fence, all, title).value ==> line in all
    decreases |all|
  {
    if !(fence.None? && all[0] == title) {
      SectionFromLines(Step(fence, all[0]), all[1..], title);
    }
  }
}
