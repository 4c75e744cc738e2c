/** Extraction survives republication: a section cut from the joined guide is the section that
    was put into it. */
module SiteProofs {
  import opened Wrappers
  import opened SiteSections
  import opened SiteGuide
  import Lines

  // ---------------------------------------------------------------------------------
  // Rewriting links line by line

  lemma {:induction false} ReachAppend(space: Space, s: string, rest: string)
    requires rest != "" && (rest[0] == ')' || space(rest[0]))
    ensures Reach(space, s + rest) == Reach(space, s)
  {
    if s == "" {
      assert s + rest == rest;
    } else {
      assert (s + rest)[1..] == s[1..] + rest;
      ReachAppend(space, s[1..], rest);
    }
  }

  lemma BreakIsNoLink(s: string, i: nat)
    requires i < |LINK| && i < |s| && s[i] == '\n'
    ensures !StartsWith(s, LINK)
  {
    if |LINK| <= |s| {
      assert s[..|LINK|][i] == s[i];
    }
  }

  lemma StartsBeforeBreak(a: string, rest: string)
    requires rest != "" && rest[0] == '\n'
    ensures StartsWith(a + rest, LINK) <==> StartsWith(a, LINK)
  {
    if |a| >= |LINK| {
      assert (a + rest)[..|LINK|] == a[..|LINK|];
    } else {
      BreakIsNoLink(a + rest, |a|);
    }
  }

  /** A match does not cross a line break. */
  lemma FragmentAppend(space: Space, a: string, rest: string)
    requires Sane(space) && rest != "" && rest[0] == '\n'
    ensures Fragment(space, a + rest) == Fragment(space, a)
  {
    StartsBeforeBreak(a, rest);
    if StartsWith(a, LINK) {
      assert (a + rest)[|LINK|..] == a[|LINK|..] + rest;
      ReachAppend(space, a[|LINK|..], rest);
    }
  }

  lemma LinkedAppend(a: string, rest: string, n: nat)
    requires |LINK| + n < |a|
    ensures Linked(a + rest, n) == Linked(a, n)
  {
    assert (a + rest)[|LINK|..|LINK| + n] == a[|LINK|..|LINK| + n];
  }

  lemma {:induction false} RewriteAppend(space: Space, a: string, rest: string)
    requires Sane(space) && rest != "" && rest[0] == '\n'
    ensures Rewrite(space, a + rest) == Rewrite(space, a) + Rewrite(space, rest)
    decreases |a|
  {
    if a == "" {
      assert a + rest == rest;
    } else {
      FragmentAppend(space, a, rest);
      match Fragment(space, a)
      case None =>
        assert (a + rest)[1..] == a[1..] + rest;
        RewriteAppend(space, a[1..], rest);
      case Some(n) =>
        var m := |LINK| + n + 1;
        assert (a + rest)[m..] == a[m..] + rest;
        LinkedAppend(a, rest, n);
        RewriteAppend(space, a[m..], rest);
    }
  }

  lemma RewriteBreak(space: Space, b: string)
    requires Sane(space)
    ensures Rewrite(space, "\n" + b) == "\n" + Rewrite(space, b)
  {
    assert ("\n" + b)[1..] == b;
    BreakIsNoLink("\n" + b, 0);
  }

  function RewriteLines(space: Space, lines: seq<string>): seq<string> {
    seq(|lines|, i requires 0 <= i < |lines| => Rewrite(space, lines[i]))
  }

  lemma RewriteTwoLines(space: Space, line: string, rest: string)
    requires Sane(space)
    ensures Rewrite(space, line + "\n" + rest) == Rewrite(space, line) + "\n" + Rewrite(space, rest)
  {
    assert line + "\n" + rest == line + ("\n" + rest);
    RewriteAppend(space, line, "\n" + rest);
    RewriteBreak(space, rest);
  }

  lemma {:induction false} RewriteJoin(space: Space, lines: seq<string>)
    requires Sane(space) && lines != []
    ensures Rewrite(space, Lines.Join(lines, "\n")) == Lines.Join(RewriteLines(space, lines), "\n")
  {
    if |lines| > 1 {
      RewriteJoin(space, lines[1..]);
      assert RewriteLines(space, lines)[1..] == RewriteLines(space, lines[1..]);
      RewriteTwoLines(space, lines[0], Lines.Join(lines[1..], "\n"));
    }
  }

  lemma {:induction false} RewriteClean(space: Space, s: string)
    requires Sane(space) && '\n' !in s
    ensures '\n' !in Rewrite(space, s)
    decreases |s|
  {
    if s != "" {
      match Fragment(space, s)
      case None => RewriteClean(space, s[1..]);
      case Some(n) =>
        assert '\n' !in SERVICE && '\n' !in s[|LINK|..|LINK| + n];
        assert '\n' !in Linked(s, n);
        RewriteClean(space, s[|LINK| + n + 1..]);
    }
  }

  /** Rewriting a text rewrites its lines. */
  lemma RewriteSplit(space: Space, s: string)
    requires Sane(space)
    ensures Lines.Split(Rewrite(space, s), '\n') == RewriteLines(space, Lines.Split(s, '\n'))
  {
    var lines := Lines.Split(s, '\n');
    Lines.JoinSplit(s, '\n');
    Lines.SplitClean(s, '\n');
    RewriteJoin(space, lines);
    forall p | p in RewriteLines(space, lines)
      ensures '\n' !in p
    {
      var i :| 0 <= i < |lines| && p == Rewrite(space, lines[i]);
      RewriteClean(space, lines[i]);
    }
    Lines.SplitJoin(RewriteLines(space, lines), '\n');
  }

  lemma FirstKept(space: Space, s: string)
    requires s != ""
    ensures Rewrite(space, s) != "" && Rewrite(space, s)[0] == s[0]
    ensures s[0] != ']' ==> Rewrite(space, s)[1..] == Rewrite(space, s[1..])
  {
    if Fragment(space, s).Some? {
      assert s[..|LINK|][0] == ']' && SERVICE[0] == ']';
    }
  }

  lemma {:induction false} RunKept(space: Space, line: string, m: char)
    requires m != ']'
    ensures Run(Rewrite(space, line), m) == Run(line, m)
  {
    if line != "" {
      FirstKept(space, line);
      if line[0] == m {
        RunKept(space, line[1..], m);
      }
    }
  }

  lemma LineKept(space: Space, line: string)
    ensures Opening(Rewrite(space, line)) == Opening(line)
    ensures Heading(Rewrite(space, line)) <==> Heading(line)
  {
    RunKept(space, line, '`');
    RunKept(space, line, '~');
    HeadingKept(space, line);
  }

  lemma HeadingKept(space: Space, line: string)
    ensures Heading(Rewrite(space, line)) <==> Heading(line)
  {
    var out := Rewrite(space, line);
    if line != "" {
      FirstKept(space, line);
      if line[0] == '#' && |line| > 1 {
        FirstKept(space, line[1..]);
        assert out[1] == Rewrite(space, line[1..])[0];
        if line[1] == '#' && |line| > 2 {
          FirstKept(space, line[2..]);
          assert line[1..][1..] == line[2..];
          assert out[2] == Rewrite(space, line[1..])[1] == Rewrite(space, line[2..])[0];
        } else if line[1] == '#' {
          assert line[1..][1..] == "";
        }
      }
    }
  }

  lemma {:induction false} LinesKept(space: Space, fence: Option<Fence>, lines: seq<string>)
    ensures FenceAfter(fence, RewriteLines(space, lines)) == FenceAfter(fence, lines)
    ensures UntilHeading(fence, RewriteLines(space, lines)) == UntilHeading(fence, lines)
    decreases |lines|
  {
    if lines != [] {
      LineKept(space, lines[0]);
      assert RewriteLines(space, lines)[1..] == RewriteLines(space, lines[1..]);
      LinesKept(space, Step(fence, lines[0]), lines[1..]);
    }
  }

  lemma {:induction false} EndKept(space: Space, s: string)
    requires Sane(space) && s != "" && !space(s[|s| - 1])
    ensures Rewrite(space, s) != "" && !space(Rewrite(space, s)[|Rewrite(space, s)| - 1])
    decreases |s|
  {
    match Fragment(space, s)
    case None =>
      if |s| > 1 {
        EndKept(space, s[1..]);
      } else {
        assert s[1..] == "" && Rewrite(space, s) == [s[0]];
      }
    case Some(n) =>
      var m := |LINK| + n + 1;
      if m < |s| {
        EndKept(space, s[m..]);
      } else {
        assert s[m..] == "";
      }
  }

  /** A section as it is put into the guide. */
  predicate Block(space: Space, text: string, heading: string) {
    OneHeading(Lines.Split(text, '\n'), Title(heading)) && TrimEnd(space, text) == text
  }

  predicate Closed(text: string) { FenceAfter(None, Lines.Split(text, '\n')).None? }

  /** A heading that a section can be found by again: it ends in ink and has no link of its own
      to rewrite. */
  predicate Findable(space: Space, heading: string) {
    Inked(space, heading) && Rewrite(space, Title(heading)) == Title(heading)
  }

  /** Rewriting a section leaves its heading, its fences and its end alone. */
  lemma RewrittenSection(space: Space, text: string, heading: string)
    requires Sane(space) && Findable(space, heading) && Block(space, text, heading)
    ensures Block(space, Rewrite(space, text), heading) && (Closed(Rewrite(space, text)) <==> Closed(text))
  {
    var lines := Lines.Split(text, '\n');
    RewriteSplit(space, text);
    LinesKept(space, None, lines);
    LinesKept(space, None, lines[1..]);
    assert RewriteLines(space, lines)[1..] == RewriteLines(space, lines[1..]);
    if text != "" {
      TrimmedEnd(space, text);
      EndKept(space, text);
    }
  }

  lemma TrimmedEnd(space: Space, s: string)
    requires s != "" && TrimEnd(space, s) == s
    ensures !space(s[|s| - 1])
  {
    if space(s[|s| - 1]) {
      TrimShortens(space, s[..|s| - 1]);
    }
  }

  lemma {:induction false} TrimShortens(space: Space, s: string)
    ensures |TrimEnd(space, s)| <= |s|
  {
    if s != "" && space(s[|s| - 1]) {
      TrimShortens(space, s[..|s| - 1]);
    }
  }

  // ---------------------------------------------------------------------------------
  // The joined guide

  /** The lines after the proxy document. */
  function TailLines(blocks: seq<string>): seq<string> {
    if blocks == [] then [""] else [""] + Lines.Split(blocks[0], '\n') + TailLines(blocks[1..])
  }

  lemma SplitPair(a: string, b: string)
    ensures Lines.Split(a + "\n\n" + b, '\n') == Lines.Split(a, '\n') + ([""] + Lines.Split(b, '\n'))
  {
    assert a + "\n\n" + b == a + ['\n'] + ("" + ['\n'] + b);
    Lines.SplitAppend(a, '\n', "" + ['\n'] + b);
    Lines.SplitAppend("", '\n', b);
  }

  function GuideText(first: string, blocks: seq<string>): string {
    Lines.Join([first] + blocks, "\n\n") + "\n"
  }

  lemma GuideTextAfter(first: string, blocks: seq<string>)
    requires blocks != []
    ensures GuideText(first, blocks) == first + "\n\n" + GuideText(blocks[0], blocks[1..])
  {
    assert ([first] + blocks)[1..] == blocks;
    assert [blocks[0]] + blocks[1..] == blocks;
  }

  lemma {:induction false} GuideLines(first: string, blocks: seq<string>)
    ensures Lines.Split(GuideText(first, blocks), '\n') == Lines.Split(first, '\n') + TailLines(blocks)
    decreases |blocks|
  {
    if blocks == [] {
      assert [first] + blocks == [first];
      Lines.SplitEndsClean(first, '\n');
    } else {
      GuideTextAfter(first, blocks);
      GuideLines(blocks[0], blocks[1..]);
      SplitPair(first, GuideText(blocks[0], blocks[1..]));
      PutInFront(Lines.Split(first, '\n'), Lines.Split(blocks[0], '\n'), blocks);
    }
  }

  lemma PutInFront(before: seq<string>, lines: seq<string>, blocks: seq<string>)
    requires blocks != [] && lines == Lines.Split(blocks[0], '\n')
    ensures before + ([""] + (lines + TailLines(blocks[1..]))) == before + TailLines(blocks)
  {
    assert [""] + (lines + TailLines(blocks[1..])) == [""] + lines + TailLines(blocks[1..]);
  }

  ghost predicate Distinct(headings: seq<string>) {
    forall i, j :: 0 <= i < j < |headings| ==> headings[i] != headings[j]
  }

  ghost predicate GoodBlocks(space: Space, blocks: seq<string>, headings: seq<string>) {
    && |blocks| == |headings| && Distinct(headings)
    && (forall i :: 0 <= i < |blocks| ==> Block(space, blocks[i], headings[i]))
    && forall i :: 0 <= i < |blocks| - 1 ==> Closed(blocks[i])
  }

  lemma BlockLacks(text: string, own: string, other: string)
    requires OneHeading(Lines.Split(text, '\n'), Title(own)) && own != other
    ensures Lacks(None, [""] + Lines.Split(text, '\n'), Title(other))
    ensures FenceAfter(None, [""] + Lines.Split(text, '\n')) == FenceAfter(None, Lines.Split(text, '\n'))
  {
    var lines := Lines.Split(text, '\n');
    TitleStep(own);
    TitleStep(other);
    assert Title(own)[3..] == own && Title(other)[3..] == other;
    LacksWithoutHeadings(None, lines[1..], Title(other));
    assert ([""] + lines)[1..] == lines;
  }

  lemma BlankUntil(space: Space, blocks: seq<string>, headings: seq<string>)
    requires GoodBlocks(space, blocks, headings) && blocks != []
    ensures var lines, rest := Lines.Split(blocks[0], '\n'), TailLines(blocks[1..]);
      UntilHeading(FenceAfter(None, lines[1..]), rest) == 1 && rest[0] == ""
  {
    var lines, rest := Lines.Split(blocks[0], '\n'), TailLines(blocks[1..]);
    TitleStep(headings[0]);
    if |blocks| > 1 {
      var next := Lines.Split(blocks[1], '\n');
      assert Block(space, blocks[1], headings[1]) && Closed(blocks[0]);
      TitleStep(headings[1]);
      assert rest[1..][0] == next[0];
    }
  }

  lemma SectionUnfolds(lines: seq<string>, title: string)
    requires lines != [] && lines[0] == title
    ensures SectionFrom(None, lines, title) == Some([title] + lines[1..][..UntilHeading(None, lines[1..])])
  {
  }

  lemma UntilBlank(body: seq<string>, rest: seq<string>)
    requires UntilHeading(None, body) == |body|
    requires rest != [] && rest[0] == "" && UntilHeading(FenceAfter(None, body), rest) == 1
    ensures (body + rest)[..UntilHeading(None, body + rest)] == body + [""]
  {
    UntilAppend(None, body, rest);
  }

  lemma SectionOfLines(lines: seq<string>, rest: seq<string>, title: string)
    requires OneHeading(lines, title)
    requires rest != [] && rest[0] == "" && UntilHeading(FenceAfter(None, lines[1..]), rest) == 1
    ensures SectionFrom(None, lines + rest, title) == Some(lines + [""])
  {
    var body := lines[1..];
    UntilBlank(body, rest);
    assert (lines + rest)[1..] == body + rest;
    SectionUnfolds(lines + rest, title);
    assert [title] + (body + [""]) == lines + [""];
  }

  /** The first block's section runs to the blank line after it. */
  lemma FirstSection(space: Space, blocks: seq<string>, headings: seq<string>)
    requires GoodBlocks(space, blocks, headings) && blocks != []
    ensures SectionFrom(None, TailLines(blocks), Title(headings[0])) == Some(Lines.Split(blocks[0], '\n') + [""])
  {
    var lines, rest := Lines.Split(blocks[0], '\n'), TailLines(blocks[1..]);
    var title := Title(headings[0]);
    TitleStep(headings[0]);
    BlankUntil(space, blocks, headings);
    assert Block(space, blocks[0], headings[0]);
    SectionOfLines(lines, rest, title);
    assert TailLines(blocks) == [""] + (lines + rest);
    assert Lacks(None, [""], title);
    SectionSkips(None, [""], lines + rest, title);
  }

  lemma GoodRest(space: Space, blocks: seq<string>, headings: seq<string>, k: nat)
    requires GoodBlocks(space, blocks, headings) && 0 < k < |blocks|
    ensures Block(space, blocks[0], headings[0]) && Closed(blocks[0]) && headings[0] != headings[k]
    ensures GoodBlocks(space, blocks[1..], headings[1..])
  {
    assert forall i :: 0 <= i < |blocks| - 1 ==> blocks[1..][i] == blocks[i + 1] && headings[1..][i] == headings[i + 1];
  }

  lemma {:induction false} TailSection(space: Space, blocks: seq<string>, headings: seq<string>, k: nat)
    requires GoodBlocks(space, blocks, headings) && k < |blocks|
    ensures SectionFrom(None, TailLines(blocks), Title(headings[k])) == Some(Lines.Split(blocks[k], '\n') + [""])
    decreases |blocks|
  {
    if k == 0 {
      FirstSection(space, blocks, headings);
    } else {
      var front := [""] + Lines.Split(blocks[0], '\n');
      GoodRest(space, blocks, headings, k);
      BlockLacks(blocks[0], headings[0], headings[k]);
      SectionSkips(None, front, TailLines(blocks[1..]), Title(headings[k]));
      TailSection(space, blocks[1..], headings[1..], k - 1);
    }
  }

  lemma {:induction false} JoinBlank(lines: seq<string>)
    requires lines != []
    ensures Lines.Join(lines + [""], "\n") == Lines.Join(lines, "\n") + "\n"
  {
    if |lines| > 1 {
      JoinBlank(lines[1..]);
      assert (lines + [""])[1..] == lines[1..] + [""];
    } else {
      assert (lines + [""])[1..] == [""];
    }
  }

  /** A section cut from the guide is the block that was joined into it. */
  lemma BlockComesBack(space: Space, first: string, blocks: seq<string>, headings: seq<string>, k: nat)
    requires Sane(space) && GoodBlocks(space, blocks, headings) && k < |blocks|
    requires Closed(first) && Lacks(None, Lines.Split(first, '\n'), Title(headings[k]))
    ensures Section(space, GuideText(first, blocks), headings[k]) == Some(blocks[k])
  {
    var text := blocks[k];
    GuideLines(first, blocks);
    SectionSkips(None, Lines.Split(first, '\n'), TailLines(blocks), Title(headings[k]));
    TailSection(space, blocks, headings, k);
    JoinBlank(Lines.Split(text, '\n'));
    Lines.JoinSplit(text, '\n');
    assert (text + "\n")[..|text|] == text;
    assert Block(space, text, headings[k]);
  }

  lemma {:induction false} SectionsAre(space: Space, service: string, headings: seq<string>)
    requires ServiceSections(space, service, headings).Some?
    ensures var r := ServiceSections(space, service, headings).value;
      |r| == |headings| && forall i :: 0 <= i < |r| ==>
        Section(space, service, headings[i]).Some? && r[i] == Rewrite(space, Section(space, service, headings[i]).value)
  {
    if headings != [] {
      SectionsAre(space, service, headings[1..]);
    }
  }

  /** Extracting a republished heading from the guide returns exactly the rewritten section of
      docs/service.md. The proxy document must close its fences and not have that heading, and
      every section but the last must close its own. */
  lemma GuideReturnsSection(space: Space, proxy: string, service: string, headings: seq<string>, k: nat)
    requires Sane(space) && Distinct(headings) && k < |headings|
    requires forall i :: 0 <= i < |headings| ==> Findable(space, headings[i])
    requires Guide(space, proxy, service, headings).Some?
    requires Closed(proxy) && Lacks(None, Lines.Split(TrimEnd(space, proxy), '\n'), Title(headings[k]))
    requires forall i :: 0 <= i < |headings| - 1 && Section(space, service, headings[i]).Some? ==>
      Closed(Section(space, service, headings[i]).value)
    ensures Section(space, service, headings[k]).Some?
    ensures Section(space, Guide(space, proxy, service, headings).value, headings[k])
      == Some(Rewrite(space, Section(space, service, headings[k]).value))
  {
    var blocks := ServiceSections(space, service, headings).value;
    SectionsAre(space, service, headings);
    forall i | 0 <= i < |blocks|
      ensures Block(space, blocks[i], headings[i])
      ensures i < |blocks| - 1 ==> Closed(blocks[i])
    {
      ExtractedSection(space, service, headings[i]);
      RewrittenSection(space, Section(space, service, headings[i]).value, headings[i]);
    }
    TrimKeepsFences(space, proxy);
    BlockComesBack(space, TrimEnd(space, proxy), blocks, headings, k);
  }
}
