/** What a fence, a section and a link are, said of whole texts: a reference for the loops of
    site/scripts/site-documents.ts. */
module SiteMeaning {
  import opened Wrappers
  import opened SiteSections
  import opened SiteGuide
  import Lines

  // ---------------------------------------------------------------------------------
  // Fences

  /** The line starts with exactly `n` of the marker, at least three. */
  ghost predicate Marks(line: string, f: Fence) {
    && (f.marker == '`' || f.marker == '~') && 3 <= f.length <= |line|
    && (forall i :: 0 <= i < f.length ==> line[i] == f.marker)
    && (f.length < |line| ==> line[f.length] != f.marker)
  }

  lemma {:induction false} RunMeans(line: string, c: char)
    ensures Run(line, c) <= |line|
    ensures forall i :: 0 <= i < Run(line, c) ==> line[i] == c
    ensures Run(line, c) < |line| ==> line[Run(line, c)] != c
  {
    if line != "" && line[0] == c {
      RunMeans(line[1..], c);
    }
  }

  lemma OpeningMeans(line: string, f: Fence)
    ensures Opening(line) == Some(f) <==> Marks(line, f)
  {
    RunMeans(line, '`');
    RunMeans(line, '~');
    if Marks(line, f) {
      assert Run(line, f.marker) == f.length;
    }
  }

  /** A fence of the same marker, at least as long. */
  ghost predicate Closes(line: string, f: Fence) {
    exists g: Fence :: Marks(line, g) && g.marker == f.marker && g.length >= f.length
  }

  /** The i-th line opens a fence that no later line closes. */
  ghost predicate StaysOpen(lines: seq<string>, i: nat, f: Fence) {
    && i < |lines| && FenceAfter(None, lines[..i]).None? && Marks(lines[i], f)
    && forall j :: i < j < |lines| ==> !Closes(lines[j], f)
  }

  lemma AfterOneMore(lines: seq<string>, line: string)
    ensures FenceAfter(None, lines + [line]) == Step(FenceAfter(None, lines), line)
  {
    FenceAppend(None, lines, [line]);
    assert [line][1..] == [];
  }

  lemma StepMeans(fence: Option<Fence>, line: string, f: Fence)
    ensures fence == None ==> (Step(fence, line) == Some(f) <==> Marks(line, f))
    ensures fence == Some(f) ==> Step(fence, line) == if Closes(line, f) then None else fence
  {
    OpeningMeans(line, f);
    if fence == Some(f) {
      if Opening(line).Some? {
        OpeningMeans(line, Opening(line).value);
      }
      if g: Fence :| Marks(line, g) && g.marker == f.marker && g.length >= f.length {
        OpeningMeans(line, g);
      }
    }
  }

  lemma StepNone(fence: Option<Fence>, line: string)
    requires fence == None
    ensures Step(fence, line).None? <==> forall f: Fence :: !Marks(line, f)
  {
    if Opening(line).Some? {
      OpeningMeans(line, Opening(line).value);
    }
    forall f: Fence | Marks(line, f)
      ensures Step(fence, line).Some?
    {
      OpeningMeans(line, f);
    }
  }

  lemma OpenMore(lines: seq<string>, line: string, i: nat, f: Fence)
    requires i < |lines|
    ensures StaysOpen(lines + [line], i, f) <==> StaysOpen(lines, i, f) && !Closes(line, f)
  {
    var more := lines + [line];
    assert more[..i] == lines[..i] && more[i] == lines[i];
    assert forall j :: i < j < |lines| ==> more[j] == lines[j];
    assert more[|lines|] == line;
  }

  /** Main result: a fence is open after some lines exactly if one of them opened it, outside any other
      fence, and none of those after it closed it. */
  lemma {:induction false} FenceMeans(lines: seq<string>, f: Fence)
    ensures FenceAfter(None, lines) == Some(f) <==> exists i: nat :: StaysOpen(lines, i, f)
    decreases |lines|
  {
    if lines != [] {
      var n := |lines| - 1;
      var front, line := lines[..n], lines[n];
      assert lines == front + [line];
      AfterOneMore(front, line);
      FenceMeans(front, f);
      LastMeans(front, line, f);
      if FenceAfter(None, front).Some? {
        StepMeans(FenceAfter(None, front), line, FenceAfter(None, front).value);
      }
      StepMeans(FenceAfter(None, front), line, f);
    }
  }

  lemma LastMeans(front: seq<string>, line: string, f: Fence)
    ensures (exists i: nat :: StaysOpen(front + [line], i, f)) <==>
      ((exists i: nat :: StaysOpen(front, i, f)) && !Closes(line, f))
      || (FenceAfter(None, front).None? && Marks(line, f))
  {
    var more := front + [line];
    assert more[..|front|] == front && more[|front|] == line;
    if i: nat :| StaysOpen(more, i, f) {
      if i < |front| { OpenMore(front, line, i, f); }
    }
    if i: nat :| StaysOpen(front, i, f) {
      OpenMore(front, line, i, f);
    }
    if FenceAfter(None, front).None? && Marks(line, f) {
      assert StaysOpen(more, |front|, f);
    }
  }

  // ---------------------------------------------------------------------------------
  // Sections

  /** No fence is open before the k-th line. */
  predicate Outside(lines: seq<string>, k: nat)
    requires k <= |lines|
  {
    FenceAfter(None, lines[..k]).None?
  }

  predicate HeadingAt(lines: seq<string>, k: nat)
    requires k < |lines|
  {
    Outside(lines, k) && "## " <= lines[k]
  }

  predicate TitleAt(lines: seq<string>, k: nat, title: string)
    requires k < |lines|
  {
    Outside(lines, k) && lines[k] == title
  }

  /** The lines from the first with this title, outside any fence, to the next level-2 heading outside
      one, or the end. */
  ghost predicate IsSection(lines: seq<string>, title: string, i: nat, j: nat) {
    && i < j <= |lines| && TitleAt(lines, i, title)
    && (forall k: nat :: k < i ==> !TitleAt(lines, k, title))
    && (forall k: nat :: i < k < j ==> !HeadingAt(lines, k))
    && (j < |lines| ==> HeadingAt(lines, j))
  }

  lemma NextFence(lines: seq<string>, k: nat)
    requires k < |lines|
    ensures FenceAfter(None, lines[..k + 1]) == Step(FenceAfter(None, lines[..k]), lines[k])
    ensures lines[k..][0] == lines[k] && lines[k..][1..] == lines[k + 1..]
  {
    assert lines[..k + 1] == lines[..k] + [lines[k]];
    AfterOneMore(lines[..k], lines[k]);
  }

  lemma {:induction false} UntilMeans(lines: seq<string>, k: nat) returns (j: nat)
    requires k <= |lines|
    ensures j == k + UntilHeading(FenceAfter(None, lines[..k]), lines[k..]) <= |lines|
    ensures forall m: nat :: k <= m < j ==> !HeadingAt(lines, m)
    ensures j < |lines| ==> HeadingAt(lines, j)
    decreases |lines| - k
  {
    if k == |lines| || HeadingAt(lines, k) {
      j := k;
    } else {
      NextFence(lines, k);
      j := UntilMeans(lines, k + 1);
    }
  }

  lemma TitleKeepsFence(lines: seq<string>, k: nat, title: string)
    requires k < |lines| && TitleAt(lines, k, title) && Heading(title)
    ensures FenceAfter(None, lines[..k + 1]) == None
  {
    NextFence(lines, k);
    if Opening(lines[k]).Some? { OpeningIsNoHeading(lines[k], title); }
  }

  /** Where the section starts, if it does from the k-th line on. */
  lemma {:induction false} FromMeans(lines: seq<string>, k: nat, title: string) returns (i: nat, j: nat)
    requires k <= |lines| && Heading(title)
    ensures k <= i <= |lines| && forall m: nat :: k <= m < i ==> !TitleAt(lines, m, title)
    ensures var r := SectionFrom(FenceAfter(None, lines[..k]), lines[k..], title);
      if i == |lines| then r.None?
      else
        && i < j <= |lines| && TitleAt(lines, i, title) && r == Some(lines[i..j])
        && (forall m: nat :: i < m < j ==> !HeadingAt(lines, m)) && (j < |lines| ==> HeadingAt(lines, j))
    decreases |lines| - k
  {
    if k == |lines| {
      i, j := k, k;
    } else {
      NextFence(lines, k);
      if TitleAt(lines, k, title) {
        TitleKeepsFence(lines, k, title);
        i := k;
        j := UntilMeans(lines, k + 1);
        assert [title] + lines[k + 1..][..j - k - 1] == lines[k..j];
      } else {
        i, j := FromMeans(lines, k + 1, title);
      }
    }
  }

  lemma OnlyOneSection(lines: seq<string>, title: string, i: nat, j: nat, i': nat, j': nat)
    requires IsSection(lines, title, i, j) && IsSection(lines, title, i', j')
    ensures i == i' && j == j'
  {
  }

  /** Main result: exactly what is extracted, or that there is no such section. */
  lemma SectionMeans(lines: seq<string>, title: string, part: seq<string>)
    requires Heading(title)
    ensures SectionFrom(None, lines, title) == Some(part) <==>
      exists i: nat, j: nat :: IsSection(lines, title, i, j) && part == lines[i..j]
    ensures SectionFrom(None, lines, title).None? <==> forall k: nat :: k < |lines| ==> !TitleAt(lines, k, title)
  {
    assert lines[..0] == [] && lines[0..] == lines;
    var i, j := FromMeans(lines, 0, title);
    if i < |lines| {
      assert IsSection(lines, title, i, j);
      forall i': nat, j': nat | IsSection(lines, title, i', j')
        ensures i' == i && j' == j
      {
        OnlyOneSection(lines, title, i, j, i', j');
      }
    }
  }

  /** What is cut off the end of a text is white space, and all of it. */
  lemma {:induction false} TrimMeans(space: Space, s: string)
    ensures var t := TrimEnd(space, s);
      && t <= s && (t != "" ==> !space(t[|t| - 1])) && forall i :: |t| <= i < |s| ==> space(s[i])
  {
    if s != "" && space(s[|s| - 1]) {
      TrimMeans(space, s[..|s| - 1]);
    }
  }

  // ---------------------------------------------------------------------------------
  // Links

  /** At `i` is a link to a heading of the same file, its fragment of length `n`. */
  ghost predicate LinkAt(space: Space, s: string, i: nat, n: nat) {
    && n > 0 && i + n + 3 < |s| && s[i..i + 3] == "](#" && s[i + n + 3] == ')'
    && forall k :: i + 3 <= k < i + n + 3 ==> s[k] != ')' && !space(s[k])
  }

  lemma FragmentMeans(space: Space, s: string, n: nat)
    requires !space(')')
    ensures Fragment(space, s) == Some(n) <==> LinkAt(space, s, 0, n)
  {
    if |s| >= 3 {
      var r := Reach(space, s[3..]);
      assert s[..3] == s[0..3];
      assert forall k :: 3 <= k < |s| ==> s[3..][k - 3] == s[k];
      if LinkAt(space, s, 0, n) {
        assert r >= n;
      }
    }
  }

  /** A link sent to the same heading of service.md. */
  function Sent(s: string, i: nat, n: nat): string
    requires i + n + 3 <= |s|
  {
    "](service.md#" + s[i + 3..i + 3 + n] + ")"
  }

  lemma LinkHere(space: Space, s: string, n: nat)
    requires !space(')') && LinkAt(space, s, 0, n)
    ensures Rewrite(space, s) == Sent(s, 0, n) + Rewrite(space, s[n + 4..])
  {
    FragmentMeans(space, s, n);
    assert Linked(s, n) == SERVICE + s[3..3 + n] + ")";
  }

  lemma NoLinkHere(space: Space, s: string)
    requires s != "" && !space(')') && forall m: nat :: !LinkAt(space, s, 0, m)
    ensures Rewrite(space, s) == [s[0]] + Rewrite(space, s[1..])
  {
    if Fragment(space, s).Some? { FragmentMeans(space, s, Fragment(space, s).value); }
  }

  lemma LinkInRest(space: Space, s: string, i: nat, n: nat)
    requires i <= |s|
    ensures LinkAt(space, s[i..], 0, n) <==> LinkAt(space, s, i, n)
  {
    if i + n + 3 < |s| {
      assert s[i..][0..3] == s[i..i + 3] && s[i..][n + 3] == s[i + n + 3];
      assert forall k :: 3 <= k < n + 3 ==> s[i..][k] == s[i + k];
      assert forall k :: i + 3 <= k < i + n + 3 ==> s[k] == s[i..][k - i];
    }
  }

  ghost predicate NoLinkBefore(space: Space, s: string, i: nat) {
    forall j: nat, m: nat :: j < i ==> !LinkAt(space, s, j, m)
  }

  /** A character at which no link starts stays. */
  lemma StepOver(space: Space, s: string, j: nat)
    requires !space(')') && j < |s| && NoLinkBefore(space, s, j + 1)
    ensures Rewrite(space, s[j..]) == [s[j]] + Rewrite(space, s[j + 1..])
  {
    var rest := s[j..];
    assert rest != "" && rest[0] == s[j] && rest[1..] == s[j + 1..];
    forall m: nat
      ensures !LinkAt(space, rest, 0, m)
    {
      LinkInRest(space, s, j, m);
    }
    NoLinkHere(space, rest);
  }

  lemma OneCharLater(s: string, j: nat, whole: string, before: string, after: string)
    requires j < |s| && whole == s[..j] + before && before == [s[j]] + after
    ensures whole == s[..j + 1] + after
  {
  }

  /** Text without links stays: the rewrite goes on after it. */
  lemma {:induction false} NoLinkStays(space: Space, s: string, i: nat)
    requires !space(')') && i <= |s| && NoLinkBefore(space, s, i)
    ensures Rewrite(space, s) == s[..i] + Rewrite(space, s[i..])
  {
    if i == 0 {
      assert s[..0] == "" && s[0..] == s && "" + Rewrite(space, s) == Rewrite(space, s);
    } else {
      NoLinkStays(space, s, i - 1);
      StepOver(space, s, i - 1);
      OneCharLater(s, i - 1, Rewrite(space, s), Rewrite(space, s[i - 1..]), Rewrite(space, s[i..]));
    }
  }

  /** Text without any link stays as it is. */
  lemma NoLinkAnywhere(space: Space, s: string)
    requires !space(')') && NoLinkBefore(space, s, |s|)
    ensures Rewrite(space, s) == s
  {
    NoLinkStays(space, s, |s|);
    assert s[|s|..] == "" && s[..|s|] == s;
  }

  lemma SentInRest(s: string, i: nat, n: nat)
    requires i + n + 4 <= |s|
    ensures Sent(s[i..], 0, n) == Sent(s, i, n) && s[i..][n + 4..] == s[i + n + 4..]
  {
    assert s[i..][3..3 + n] == s[i + 3..i + 3 + n];
  }

  /** The first link goes to the same heading of service.md, and the text after it is rewritten next. */
  lemma FirstLink(space: Space, s: string, i: nat, n: nat)
    requires !space(')') && LinkAt(space, s, i, n) && NoLinkBefore(space, s, i)
    ensures Rewrite(space, s) == s[..i] + Sent(s, i, n) + Rewrite(space, s[i + n + 4..])
  {
    NoLinkStays(space, s, i);
    LinkInRest(space, s, i, n);
    LinkHere(space, s[i..], n);
    SentInRest(s, i, n);
  }
}
