/** The proxy guide of site/scripts/site-documents.ts: sections cut out of one Markdown document
    and appended to another. */
module SiteSections {
  import opened Wrappers
  import Lines

  datatype Fence = Fence(marker: char, length: nat)

  /** JavaScript's white space, which `trimEnd` and `\s` agree on. */
  type Space = char -> bool

  ghost predicate Sane(space: Space) {
    space('\n') && !space('`') && !space('~') && !space(')') && !space('#')
  }

  // ---------------------------------------------------------------------------------
  // Lines and fences

  function Run(line: string, c: char): nat {
    if line == "" || line[0] != c then 0 else 1 + Run(line[1..], c)
  }

  /** The line's fence: at least three back ticks or tildes at its start. */
  function Opening(line: string): Option<Fence> {
    if Run(line, '`') >= 3 then Some(Fence('`', Run(line, '`')))
    else if Run(line, '~') >= 3 then Some(Fence('~', Run(line, '~')))
    else None
  }

  /** The open fence after a line: a fence is closed by one of its marker at least as long. */
  function Step(fence: Option<Fence>, line: string): Option<Fence> {
    match (Opening(line), fence)
    case (None, _) => fence
    case (Some(opening), None) => Some(opening)
    case (Some(opening), Some(f)) => if opening.marker == f.marker && opening.length >= f.length then None else fence
  }

  function FenceAfter(fence: Option<Fence>, lines: seq<string>): Option<Fence>
    decreases |lines|
  {
    if lines == [] then fence else FenceAfter(Step(fence, lines[0]), lines[1..])
  }

  predicate Heading(line: string) { |line| >= 3 && line[0] == '#' && line[1] == '#' && line[2] == ' ' }

  function Title(heading: string): string { "## " + heading }

  /** How many lines come before the next level-2 heading outside a fence. */
  function UntilHeading(fence: Option<Fence>, lines: seq<string>): (n: nat)
    ensures n <= |lines|
    decreases |lines|
  {
    if lines == [] || (fence.None? && Heading(lines[0])) then 0
    else 1 + UntilHeading(Step(fence, lines[0]), lines[1..])
  }

  /** The lines of the first section with this title, up to the next heading. */
  function SectionFrom(fence: Option<Fence>, lines: seq<string>, title: string): (r: Option<seq<string>>)
    ensures r.Some? ==> r.value != []
    decreases |lines|
  {
    if lines == [] then None
    else if fence.None? && lines[0] == title then Some([title] + lines[1..][..UntilHeading(None, lines[1..])])
    else SectionFrom(Step(fence, lines[0]), lines[1..], title)
  }

  function TrimEnd(space: Space, s: string): string {
    if s != "" && space(s[|s| - 1]) then TrimEnd(space, s[..|s| - 1]) else s
  }

  /** What `markdownSection` returns, or nothing where it throws. */
  function Section(space: Space, source: string, heading: string): Option<string> {
    match SectionFrom(None, Lines.Split(source, '\n'), Title(heading))
    case None => None
    case Some(lines) => Some(TrimEnd(space, Lines.Join(lines, "\n")))
  }

  /** `markdownSection`. */
  method MarkdownSection(space: Space, source: string, heading: string) returns (r: Option<string>)
    ensures r == Section(space, source, heading)
  {
    var lines := Lines.Split(source, '\n');
    var title := Title(heading);
    var fence: Option<Fence> := None;
    var start: Option<nat> := None;
    for index := 0 to |lines|
      invariant start.None? ==> SectionFrom(None, lines, title) == SectionFrom(fence, lines[index..], title)
      invariant start.Some? ==> start.value < index
      invariant start.Some? ==>
        SectionFrom(None, lines, title)
        == Some(lines[start.value..index] + lines[index..][..UntilHeading(fence, lines[index..])])
    {
      var line := lines[index];
      assert lines[index..][0] == line && lines[index..][1..] == lines[index + 1..];
      var opening := Opening(line);
      if opening.Some? {
        OpeningIsNoHeading(line, title);
        KeepGoing(fence, lines, if start.Some? then start.value else index, index);
        fence := Step(fence, line);
        continue;
      }
      if fence.Some? || !Heading(line) {
        KeepGoing(fence, lines, if start.Some? then start.value else index, index);
        continue;
      }
      if start.Some? {
        assert lines[start.value..index] + lines[index..][..0] == lines[start.value..index];
        return Some(TrimEnd(space, Lines.Join(lines[start.value..index], "\n")));
      }
      if line == title {
        start := Some(index);
        assert [title] + lines[index + 1..][..UntilHeading(None, lines[index + 1..])]
            == lines[index..index + 1] + lines[index + 1..][..UntilHeading(None, lines[index + 1..])];
      }
    }
    if start.None? {
      return None;
    }
    assert lines[start.value..|lines|] + lines[|lines|..][..0] == lines[start.value..];
    return Some(TrimEnd(space, Lines.Join(lines[start.value..], "\n")));
  }

  lemma OpeningIsNoHeading(line: string, title: string)
    requires Opening(line).Some?
    ensures !Heading(line)
  {
  }

  lemma KeepGoing(fence: Option<Fence>, lines: seq<string>, from: nat, index: nat)
    requires from <= index < |lines| && !(fence.None? && Heading(lines[index]))
    ensures lines[from..index] + lines[index..][..UntilHeading(fence, lines[index..])]
         == lines[from..index + 1] + lines[index + 1..][..UntilHeading(Step(fence, lines[index]), lines[index + 1..])]
  {
    assert lines[index..][1..] == lines[index + 1..];
  }
}
