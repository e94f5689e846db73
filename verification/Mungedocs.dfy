/** Rewriting generated blocks of a document (cmd/mungedocs): removing, appending and refilling a macro block, and
    the analytics munger built from them. */
module Mungedocs {
  import opened Text
  import opened Wrappers

  datatype Line = Line(data: string, preformatted: bool, header: bool, beginTag: bool, endTag: bool)

  function BeginMungeTag(desc: string): string { "<!-- BEGIN MUNGE: " + desc + " -->" }

  function EndMungeTag(desc: string): string { "<!-- END MUNGE: " + desc + " -->" }

  function NewMungeLine(line: string): Line {
    Line(line, false, HasPrefix(line, "#"), Contains(line, "<!-- BEGIN MUNGE:"), Contains(line, "<!-- END MUNGE:"))
  }

  predicate IsSpace(c: char) { c in " \t\n\r\U{000C}" }

  /** Where the text after leading white space starts. */
  function TrimSpaceLeft(s: string): string {
    if s != "" && IsSpace(s[0]) then TrimSpaceLeft(s[1..]) else s
  }

  /** The line starts with three backquotes. */
  predicate IsFence(line: string) { HasPrefix(TrimSpaceLeft(line), "```") }

  /** The line also closes what it opens. */
  predicate IsInlineFence(line: string) {
    IsFence(line) && Contains(TrimSpaceLeft(line)[3..], "```")
  }

  predicate NextPreformatted(preformatted: bool, line: string) {
    if preformatted then !IsFence(line) else IsFence(line) && !IsInlineFence(line)
  }

  function SplitLines(document: string): seq<string> {
    var lines := Split(document, "\n");
    if lines[|lines| - 1] == "" then lines[..|lines| - 1] else lines
  }

  function Marked(lines: seq<string>, preformatted: bool): seq<Line> {
    if lines == [] then []
    else
      var p := NextPreformatted(preformatted, lines[0]);
      [NewMungeLine(lines[0]).(preformatted := p)] + Marked(lines[1..], p)
  }

  method GetMungeLines(document: string) returns (out: seq<Line>)
    ensures out == Marked(SplitLines(document), false)
  {
    hide NewMungeLine, NextPreformatted, SplitLines, Marked;
    out := [];
    var preformatted := false;
    var lines := SplitLines(document);
    assert lines[0..] == lines;
    for i := 0 to |lines|
      invariant out + Marked(lines[i..], preformatted) == Marked(lines, false)
    {
      MarkedFrom(lines, i, preformatted, out);
      preformatted := NextPreformatted(preformatted, lines[i]);
      out := out + [NewMungeLine(lines[i]).(preformatted := preformatted)];
    }
    NothingToMark(lines[|lines|..], preformatted);
  }

  lemma MarkedFrom(lines: seq<string>, i: nat, preformatted: bool, out: seq<Line>)
    requires i < |lines|
    ensures var next := NextPreformatted(preformatted, lines[i]);
            out + Marked(lines[i..], preformatted)
            == out + [NewMungeLine(lines[i]).(preformatted := next)] + Marked(lines[i + 1..], next)
  {
    hide NewMungeLine, NextPreformatted;
    assert lines[i..][1..] == lines[i + 1..];
  }

  lemma NothingToMark(lines: seq<string>, preformatted: bool)
    requires lines == []
    ensures Marked(lines, preformatted) == []
  {
  }

  // ---- Macro blocks ----

  predicate IsBegin(token: string, line: Line) { line.beginTag && line.data == BeginMungeTag(token) }

  predicate IsEnd(token: string, line: Line) { line.endTag && line.data == EndMungeTag(token) }

  predicate IsMark(token: string, line: Line) { IsBegin(token, line) || IsEnd(token, line) }

  function Prepend(front: seq<Line>, rest: Option<seq<Line>>): Option<seq<Line>> {
    if rest.None? then None else Some(front + rest.value)
  }

  /** What is left once blocks are taken out; `None` when marks do not pair up. Preformatted lines always stay. */
  function Removed(token: string, lines: seq<Line>, inBlock: bool): Option<seq<Line>> {
    if lines == [] then (if inBlock then None else Some([]))
    else
      var line, rest := lines[0], lines[1..];
      if line.preformatted then Prepend([line], Removed(token, rest, inBlock))
      else if IsBegin(token, line) then (if inBlock then None else Removed(token, rest, true))
      else if IsEnd(token, line) then (if inBlock then Removed(token, rest, false) else None)
      else Prepend(if inBlock then [] else [line], Removed(token, rest, inBlock))
  }

  /** The document with the inside of each block replaced by `insert`. */
  function Refilled(token: string, lines: seq<Line>, inBlock: bool, insert: seq<Line>): Option<seq<Line>> {
    if lines == [] then (if inBlock then None else Some([]))
    else
      var line, rest := lines[0], lines[1..];
      if line.preformatted && !inBlock then Prepend([line], Refilled(token, rest, inBlock, insert))
      else if IsBegin(token, line) then (if inBlock then None else Prepend([line], Refilled(token, rest, true, insert)))
      else if IsEnd(token, line) then
        (if inBlock then Prepend(insert + [line], Refilled(token, rest, false, insert)) else None)
      else Prepend(if inBlock then [] else [line], Refilled(token, rest, inBlock, insert))
  }

  lemma PrependTwice(a: seq<Line>, b: seq<Line>, rest: Option<seq<Line>>)
    ensures Prepend(a, Prepend(b, rest)) == Prepend(a + b, rest)
  {
    if rest.Some? {
      assert a + (b + rest.value) == a + b + rest.value;
    }
  }

  lemma PrependNothing(rest: Option<seq<Line>>)
    ensures Prepend([], rest) == rest
  {
    if rest.Some? {
      assert [] + rest.value == rest.value;
    }
  }

  method RemoveMacroBlock(token: string, lines: seq<Line>) returns (r: Option<seq<Line>>)
    ensures r == Removed(token, lines, false)
  {
    var out, inBlock := [], false;
    PrependNothing(Removed(token, lines, false));
    assert lines[0..] == lines;
    for i := 0 to |lines|
      invariant Removed(token, lines, false) == Prepend(out, Removed(token, lines[i..], inBlock))
    {
      var line := lines[i];
      assert lines[i..][1..] == lines[i + 1..];
      PrependTwice(out, [line], Removed(token, lines[i + 1..], inBlock));
      PrependTwice(out, [], Removed(token, lines[i + 1..], inBlock));
      assert out + [] == out;
      if line.preformatted {
        out := out + [line];
        continue;
      }
      if IsBegin(token, line) {
        if inBlock {
          return None;
        }
        inBlock := true;
      } else if IsEnd(token, line) {
        if !inBlock {
          return None;
        }
        inBlock := false;
      } else if !inBlock {
        out := out + [line];
      }
    }
    return if inBlock then None else Some(out);
  }

  method UpdateMacroBlock(lines: seq<Line>, token: string, insert: seq<Line>) returns (r: Option<seq<Line>>)
    ensures r == Refilled(token, lines, false, insert)
  {
    hide IsBegin, IsEnd;
    var out, inBlock := [], false;
    PrependNothing(Refilled(token, lines, false, insert));
    assert lines[0..] == lines;
    for i := 0 to |lines|
      invariant Refilled(token, lines, false, insert) == Prepend(out, Refilled(token, lines[i..], inBlock, insert))
    {
      var line := lines[i];
      assert lines[i..][1..] == lines[i + 1..];
      if line.preformatted && !inBlock {
        PrependTwice(out, [line], Refilled(token, lines[i + 1..], inBlock, insert));
        out := out + [line];
        continue;
      }
      if IsBegin(token, line) {
        if inBlock {
          return None;
        }
        PrependTwice(out, [line], Refilled(token, lines[i + 1..], true, insert));
        inBlock := true;
        out := out + [line];
      } else if IsEnd(token, line) {
        if !inBlock {
          return None;
        }
        PrependTwice(out, insert + [line], Refilled(token, lines[i + 1..], false, insert));
        inBlock := false;
        assert out + (insert + [line]) == out + insert + [line];
        out := out + insert;
        out := out + [line];
      } else if !inBlock {
        PrependTwice(out, [line], Refilled(token, lines[i + 1..], inBlock, insert));
        out := out + [line];
      } else {
        PrependTwice(out, [], Refilled(token, lines[i + 1..], inBlock, insert));
        assert out + [] == out;
      }
    }
    return if inBlock then None else Some(out);
  }

  /** A blank line, unless the document is empty or already ends in one. */
  function Padding(lines: seq<Line>): seq<Line> {
    if |lines| > 0 && lines[|lines| - 1].data != "" then [NewMungeLine("")] else []
  }

  function AppendMacroBlock(lines: seq<Line>, token: string): seq<Line> {
    lines + Padding(lines) + [NewMungeLine(BeginMungeTag(token)), NewMungeLine(EndMungeTag(token))]
  }

  // ---- The analytics munger ----

  const ANALYTICS_TAG := "GENERATED_ANALYTICS"
  const ANALYTICS_PREFIX := "[![Analytics](" + "https://kubernetes-" + "site.appspot.com/" + "UA-36037335-10/" + "GitHub/"

  function Link(fileName: string): string { ANALYTICS_PREFIX + fileName + "?pixel)]()" }

  function InsertLines(fileName: string): seq<Line> { Marked(SplitLines(Link(fileName)), false) }

  /** An analytics link outside any block, to be dropped. */
  predicate IsStray(line: Line) {
    && !line.preformatted && !line.header && !line.beginTag && !line.endTag
    && HasPrefix(line.data, ANALYTICS_PREFIX)
  }

  function WithoutStrays(lines: seq<Line>): seq<Line> {
    if lines == [] then []
    else (if IsStray(lines[0]) then [] else [lines[0]]) + WithoutStrays(lines[1..])
  }

  /** updateAnalytics, for a file name already made relative to the repository. */
  method UpdateAnalytics(fileName: string, lines: seq<Line>) returns (r: Option<seq<Line>>)
    ensures r == Updated(fileName, lines)
  {
    hide Removed, Refilled, WithoutStrays, Marked, SplitLines, Link, AppendMacroBlock, Padding, NewMungeLine, BeginMungeTag,
      EndMungeTag;
    var insertLines := GetMungeLines(Link(fileName));
    var removed := RemoveMacroBlock(ANALYTICS_TAG, lines);
    if removed.None? {
      return None;
    }
    var out := DropStrays(removed.value);
    KeptIsClean(lines);
    AppendedBlockIsFilled(out, fileName);
    out := AppendMacroBlock(out, ANALYTICS_TAG);
    r := UpdateMacroBlock(out, ANALYTICS_TAG, insertLines);
  }

  method DropStrays(lines: seq<Line>) returns (out: seq<Line>)
    ensures out == WithoutStrays(lines)
  {
    hide ANALYTICS_PREFIX, WithoutStrays;
    out := [];
    NoLinesLeft(lines);
    for i := 0 to |lines|
      invariant WithoutStrays(lines) == out + WithoutStrays(lines[i..])
    {
      StraysFrom(lines, i, out);
      if lines[i].preformatted || lines[i].header || lines[i].beginTag || lines[i].endTag {
        out := out + [lines[i]];
        continue;
      }
      if HasPrefix(lines[i].data, ANALYTICS_PREFIX) {
        continue;
      }
      out := out + [lines[i]];
    }
  }

  lemma StraysFrom(lines: seq<Line>, i: nat, out: seq<Line>)
    requires i < |lines|
    ensures out + WithoutStrays(lines[i..])
            == (if IsStray(lines[i]) then out else out + [lines[i]]) + WithoutStrays(lines[i + 1..])
  {
    hide IsStray;
    assert lines[i..][1..] == lines[i + 1..];
    var rest := WithoutStrays(lines[i + 1..]);
    assert out + ([lines[i]] + rest) == out + [lines[i]] + rest;
    assert [] + rest == rest;
  }

  lemma NoLinesLeft(lines: seq<Line>)
    ensures lines[0..] == lines && WithoutStrays(lines[|lines|..]) == []
  {
  }

  /** The lines of a document that are neither in an analytics block nor stray links. */
  function Kept(lines: seq<Line>): Option<seq<Line>> {
    var r := Removed(ANALYTICS_TAG, lines, false);
    if r.None? then None else Some(WithoutStrays(r.value))
  }

  /** The filled-in block. */
  function Block(fileName: string): seq<Line> {
    [NewMungeLine(BeginMungeTag(ANALYTICS_TAG))] + InsertLines(fileName) + [NewMungeLine(EndMungeTag(ANALYTICS_TAG))]
  }

  /** What the munger is for: the kept lines, then one filled-in block set off by a blank line. */
  function Updated(fileName: string, lines: seq<Line>): Option<seq<Line>> {
    var k := Kept(lines);
    if k.None? then None else Some(k.value + Padding(k.value) + Block(fileName))
  }

  // ---- Running it again ----

  /** No mark outside preformatted text. */
  predicate Clean(token: string, lines: seq<Line>) {
    forall i :: 0 <= i < |lines| && !lines[i].preformatted ==> !IsMark(token, lines[i])
  }

  predicate NoStrays(lines: seq<Line>) { forall i :: 0 <= i < |lines| ==> !IsStray(lines[i]) }

  lemma {:induction false} RemovedIsClean(token: string, lines: seq<Line>, inBlock: bool)
    requires Removed(token, lines, inBlock).Some?
    ensures Clean(token, Removed(token, lines, inBlock).value)
  {
    hide IsBegin, IsEnd;
    if lines != [] {
      var line, rest := lines[0], lines[1..];
      if line.preformatted {
        RemovedIsClean(token, rest, inBlock);
      } else if IsBegin(token, line) {
        RemovedIsClean(token, rest, true);
      } else if IsEnd(token, line) {
        RemovedIsClean(token, rest, false);
      } else {
        RemovedIsClean(token, rest, inBlock);
      }
    }
  }

  lemma {:induction false} WithoutStraysIsClean(token: string, lines: seq<Line>)
    requires Clean(token, lines)
    ensures Clean(token, WithoutStrays(lines)) && NoStrays(WithoutStrays(lines))
  {
    hide IsMark, IsStray;
    if lines != [] {
      WithoutStraysIsClean(token, lines[1..]);
    }
  }

  lemma KeptIsClean(lines: seq<Line>)
    requires Kept(lines).Some?
    ensures Clean(ANALYTICS_TAG, Kept(lines).value) && NoStrays(Kept(lines).value)
  {
    hide Removed, WithoutStrays, Clean, NoStrays;
    RemovedIsClean(ANALYTICS_TAG, lines, false);
    WithoutStraysIsClean(ANALYTICS_TAG, Removed(ANALYTICS_TAG, lines, false).value);
  }

  lemma {:induction false} RemovedPastClean(token: string, a: seq<Line>, b: seq<Line>)
    requires Clean(token, a)
    ensures Removed(token, a + b, false) == Prepend(a, Removed(token, b, false))
  {
    hide IsBegin, IsEnd;
    if a == [] {
      assert a + b == b;
      PrependNothing(Removed(token, b, false));
    } else {
      RemovedPastClean(token, a[1..], b);
      assert (a + b)[1..] == a[1..] + b && (a + b)[0] == a[0];
      PrependTwice([a[0]], a[1..], Removed(token, b, false));
      assert [a[0]] + a[1..] == a;
    }
  }

  lemma {:induction false} RefilledPastClean(token: string, a: seq<Line>, b: seq<Line>, insert: seq<Line>)
    requires Clean(token, a)
    ensures Refilled(token, a + b, false, insert) == Prepend(a, Refilled(token, b, false, insert))
  {
    hide IsBegin, IsEnd;
    var rest := Refilled(token, b, false, insert);
    if a == [] {
      assert a + b == b;
      PrependNothing(rest);
    } else {
      RefilledPastClean(token, a[1..], b, insert);
      assert (a + b)[1..] == a[1..] + b && (a + b)[0] == a[0];
      PrependTwice([a[0]], a[1..], rest);
      assert [a[0]] + a[1..] == a;
    }
  }

  lemma {:induction false} WithoutStraysAppend(a: seq<Line>, b: seq<Line>)
    ensures WithoutStrays(a + b) == WithoutStrays(a) + WithoutStrays(b)
  {
    hide IsStray;
    if a == [] {
      assert a + b == b;
    } else {
      WithoutStraysAppend(a[1..], b);
      assert (a + b)[1..] == a[1..] + b && (a + b)[0] == a[0];
    }
  }

  lemma {:induction false} NothingToDrop(lines: seq<Line>)
    requires NoStrays(lines)
    ensures WithoutStrays(lines) == lines
  {
    hide IsStray;
    if lines != [] {
      NothingToDrop(lines[1..]);
    }
  }

  /** The tag lines are marks of their own kind only. */
  lemma TagsAreMarks(token: string)
    ensures IsBegin(token, NewMungeLine(BeginMungeTag(token))) && !IsEnd(token, NewMungeLine(BeginMungeTag(token)))
    ensures IsEnd(token, NewMungeLine(EndMungeTag(token))) && !IsBegin(token, NewMungeLine(EndMungeTag(token)))
  {
    assert OccursAt(BeginMungeTag(token), "<!-- BEGIN MUNGE:", 0);
    assert OccursAt(EndMungeTag(token), "<!-- END MUNGE:", 0);
    assert BeginMungeTag(token)[5] == 'B' && EndMungeTag(token)[5] == 'E';
  }

  lemma PaddingIsClean(lines: seq<Line>)
    ensures Clean(ANALYTICS_TAG, Padding(lines)) && NoStrays(Padding(lines))
    ensures Padding(lines + Padding(lines)) == []
  {
    assert BeginMungeTag(ANALYTICS_TAG) != "" && EndMungeTag(ANALYTICS_TAG) != "";
  }

  lemma CleanAppend(token: string, a: seq<Line>, b: seq<Line>)
    requires Clean(token, a) && Clean(token, b)
    ensures Clean(token, a + b)
  {
  }

  lemma AppendedBlockIsFilled(kept: seq<Line>, fileName: string)
    requires Clean(ANALYTICS_TAG, kept)
    ensures Refilled(ANALYTICS_TAG, AppendMacroBlock(kept, ANALYTICS_TAG), false, InsertLines(fileName))
            == Some(kept + Padding(kept) + Block(fileName))
  {
    hide Clean, NewMungeLine, InsertLines, Padding, IsBegin, IsEnd;
    var insert := InsertLines(fileName);
    var b, e := NewMungeLine(BeginMungeTag(ANALYTICS_TAG)), NewMungeLine(EndMungeTag(ANALYTICS_TAG));
    PaddingIsClean(kept);
    CleanAppend(ANALYTICS_TAG, kept, Padding(kept));
    RefilledPastClean(ANALYTICS_TAG, kept + Padding(kept), [b, e], insert);
    EmptyBlockIsFilled(insert);
  }

  lemma EmptyBlockIsFilled(insert: seq<Line>)
    ensures
      var b, e := NewMungeLine(BeginMungeTag(ANALYTICS_TAG)), NewMungeLine(EndMungeTag(ANALYTICS_TAG));
      Refilled(ANALYTICS_TAG, [b, e], false, insert) == Some([b] + insert + [e])
  {
    var b, e := NewMungeLine(BeginMungeTag(ANALYTICS_TAG)), NewMungeLine(EndMungeTag(ANALYTICS_TAG));
    TagsAreMarks(ANALYTICS_TAG);
    assert !b.preformatted && !e.preformatted;
    hide NewMungeLine, IsBegin, IsEnd;
    assert [b, e][1..] == [e] && [e][1..] == [];
    assert Refilled(ANALYTICS_TAG, [], false, insert) == Some([]);
    assert insert + [e] + [] == insert + [e];
    assert Refilled(ANALYTICS_TAG, [e], true, insert) == Some(insert + [e]);
    assert [b] + (insert + [e]) == [b] + insert + [e];
  }

  /** Nothing is left of these lines between a begin mark and an end mark: no line is preformatted, the marks among
      them close and reopen the block in turn, and outside it there are only stray links. */
  predicate Fades(lines: seq<Line>, inBlock: bool) {
    if lines == [] then inBlock
    else
      var line, rest := lines[0], lines[1..];
      && !line.preformatted
      && if IsBegin(ANALYTICS_TAG, line) then !inBlock && Fades(rest, true)
         else if IsEnd(ANALYTICS_TAG, line) then inBlock && Fades(rest, false)
         else (inBlock || IsStray(line)) && Fades(rest, inBlock)
  }

  /** The lines that a file name gives rise to fade away. */
  predicate BlockVanishes(fileName: string) { Fades(InsertLines(fileName), true) }

  lemma {:induction false} FadingIsRemoval(lines: seq<Line>, e: Line, inBlock: bool)
    requires !e.preformatted && IsEnd(ANALYTICS_TAG, e) && !IsBegin(ANALYTICS_TAG, e)
    ensures var r := Removed(ANALYTICS_TAG, lines + [e], inBlock);
            r.Some? && WithoutStrays(r.value) == [] <==> Fades(lines, inBlock)
  {
    hide IsBegin, IsEnd, IsStray;
    var all := lines + [e];
    if lines == [] {
      assert all == [e] && [e][1..] == [];
      assert Removed(ANALYTICS_TAG, [], false) == Some([]);
    } else {
      var line, rest := lines[0], lines[1..];
      assert all[0] == line && all[1..] == rest + [e];
      var after := if line.preformatted then inBlock else if IsBegin(ANALYTICS_TAG, line) then true
                   else if IsEnd(ANALYTICS_TAG, line) then false else inBlock;
      FadingIsRemoval(rest, e, after);
      var r := Removed(ANALYTICS_TAG, rest + [e], after);
      if r.Some? {
        WithoutStraysAppend([line], r.value);
        StrayOrNot(line);
        assert [] + r.value == r.value;
      }
    }
  }

  lemma StrayOrNot(line: Line)
    ensures WithoutStrays([line]) == if IsStray(line) then [] else [line]
    ensures line.preformatted ==> !IsStray(line)
  {
    assert [line][1..] == [];
  }

  /** Such a block is taken out whole by the next run. */
  lemma VanishingIsRemoval(fileName: string)
    ensures Kept(Block(fileName)) == Some([]) <==> BlockVanishes(fileName)
  {
    var b, e := NewMungeLine(BeginMungeTag(ANALYTICS_TAG)), NewMungeLine(EndMungeTag(ANALYTICS_TAG));
    TagsAreMarks(ANALYTICS_TAG);
    NewLinesAreNotPreformatted(fileName);
    hide NewMungeLine, InsertLines, IsBegin, IsEnd, BeginMungeTag, EndMungeTag, Link, WithoutStrays, Fades;
    FadingIsRemoval(InsertLines(fileName), e, true);
    assert Block(fileName)[0] == b && Block(fileName)[1..] == InsertLines(fileName) + [e];
  }

  /** A second run changes nothing, on any document, exactly for the names whose block vanishes. */
  lemma SecondRunChangesNothing(fileName: string, lines: seq<Line>)
    requires Updated(fileName, lines).Some?
    ensures Updated(fileName, Updated(fileName, lines).value) == Updated(fileName, lines) <==> BlockVanishes(fileName)
  {
    hide Removed, WithoutStrays, Clean, NoStrays, Padding, Block, BlockVanishes;
    VanishingIsRemoval(fileName);
    var kept := Kept(lines).value;
    var body := kept + Padding(kept);
    KeptIsClean(lines);
    PaddingIsClean(kept);
    CleanAppend(ANALYTICS_TAG, kept, Padding(kept));
    RemovedPastClean(ANALYTICS_TAG, body, Block(fileName));
    var left := Removed(ANALYTICS_TAG, Block(fileName), false);
    if left.Some? {
      WithoutStraysAppend(body, left.value);
      WithoutStraysAppend(kept, Padding(kept));
      NothingToDrop(kept);
      NothingToDrop(Padding(kept));
      var extra := WithoutStrays(left.value);
      assert Kept(Updated(fileName, lines).value) == Some(body + extra);
      if extra == [] {
        assert body + extra == body;
        assert body + [] + Block(fileName) == body + Block(fileName);
      } else {
        assert |body + extra + Padding(body + extra) + Block(fileName)| > |body + Block(fileName)|;
      }
    }
  }

  /** Every file name without a line break gives a block of one line, which vanishes. */
  lemma OneLineNamesVanish(fileName: string)
    requires '\n' !in fileName
    ensures BlockVanishes(fileName)
  {
    hide NewMungeLine, InsertLines, BeginMungeTag, EndMungeTag, Link, IsBegin, IsEnd;
    OneLineInsert(fileName);
    LinkIsNoMark(fileName);
    NewLinesAreNotPreformatted(fileName);
    var line := NewMungeLine(Link(fileName));
    assert [line][1..] == [] && Fades([], true);
    assert Fades([line], true);
  }

  lemma NewLinesAreNotPreformatted(fileName: string)
    ensures !NewMungeLine(BeginMungeTag(ANALYTICS_TAG)).preformatted
    ensures !NewMungeLine(Link(fileName)).preformatted
    ensures !NewMungeLine(EndMungeTag(ANALYTICS_TAG)).preformatted
  {
  }

  lemma PrefixIsOneLine()
    ensures |ANALYTICS_PREFIX| > 0 && ANALYTICS_PREFIX[0] == '[' && '\n' !in ANALYTICS_PREFIX
  {
  }

  lemma OneLineInsert(fileName: string)
    requires '\n' !in fileName
    ensures InsertLines(fileName) == [NewMungeLine(Link(fileName))]
  {
    PrefixIsOneLine();
    hide ANALYTICS_PREFIX, NewMungeLine, Split;
    var link := Link(fileName);
    assert link[0] == '[' && '\n' !in link;
    SplitJoin([link], '\n');
    assert Join([link], "\n") == link;
    assert SplitLines(link) == [link];
    assert TrimSpaceLeft(link) == link;
    assert !IsFence(link);
    assert [link][1..] == [];
    assert Marked([link], false) == [NewMungeLine(link).(preformatted := false)];
    NotPreformatted(link);
  }

  lemma NotPreformatted(s: string)
    ensures NewMungeLine(s).(preformatted := false) == NewMungeLine(s)
  {
  }

  lemma LinkIsNoMark(fileName: string)
    ensures !IsMark(ANALYTICS_TAG, NewMungeLine(Link(fileName)))
  {
    PrefixIsOneLine();
    hide ANALYTICS_PREFIX;
    assert Link(fileName)[0] == '[';
    assert BeginMungeTag(ANALYTICS_TAG)[0] == '<' && EndMungeTag(ANALYTICS_TAG)[0] == '<';
  }

  function Preformatted(lines: seq<Line>): seq<Line> {
    if lines == [] then []
    else (if lines[0].preformatted then [lines[0]] else []) + Preformatted(lines[1..])
  }

  lemma {:induction false} PreformattedAppend(a: seq<Line>, b: seq<Line>)
    ensures Preformatted(a + b) == Preformatted(a) + Preformatted(b)
  {
    if a == [] {
      assert a + b == b;
    } else {
      PreformattedAppend(a[1..], b);
      assert (a + b)[1..] == a[1..] + b && (a + b)[0] == a[0];
      PreformattedFirst(a);
      PreformattedFirst(a + b);
    }
  }

  lemma PreformattedFirst(lines: seq<Line>)
    requires lines != []
    ensures lines[0].preformatted ==> Preformatted(lines) == [lines[0]] + Preformatted(lines[1..])
    ensures !lines[0].preformatted ==> Preformatted(lines) == Preformatted(lines[1..])
  {
  }

  lemma NonePreformatted(lines: seq<Line>)
    requires forall i :: 0 <= i < |lines| ==> !lines[i].preformatted
    ensures Preformatted(lines) == []
  {
  }

  lemma {:induction false} RemovalKeepsPreformatted(token: string, lines: seq<Line>, inBlock: bool)
    requires Removed(token, lines, inBlock).Some?
    ensures Preformatted(Removed(token, lines, inBlock).value) == Preformatted(lines)
  {
    hide IsBegin, IsEnd;
    if lines != [] {
      var line, rest := lines[0], lines[1..];
      var inRest := if line.preformatted then inBlock else if IsBegin(token, line) then true
                    else if IsEnd(token, line) then false else inBlock;
      RemovalKeepsPreformatted(token, rest, inRest);
      PreformattedAppend([line], Removed(token, rest, inRest).value);
      PreformattedAppend([], Removed(token, rest, inRest).value);
      assert [line][1..] == [];
    }
  }

  lemma {:induction false} DroppingKeepsPreformatted(lines: seq<Line>)
    ensures Preformatted(WithoutStrays(lines)) == Preformatted(lines)
  {
    if lines != [] {
      DroppingKeepsPreformatted(lines[1..]);
      PreformattedAppend([lines[0]], WithoutStrays(lines[1..]));
      PreformattedAppend([], WithoutStrays(lines[1..]));
      assert [lines[0]][1..] == [];
    }
  }

  /** No preformatted line is ever lost or moved, even one inside a block; those that the file name brings along are
      added at the end, and a name without a line break brings none. */
  lemma PreformattedTextSurvives(fileName: string, lines: seq<Line>)
    requires Updated(fileName, lines).Some?
    ensures Preformatted(Updated(fileName, lines).value) == Preformatted(lines) + Preformatted(InsertLines(fileName))
    ensures '\n' !in fileName ==> Preformatted(InsertLines(fileName)) == []
  {
    hide Removed, WithoutStrays, Padding, Block, InsertLines, NewMungeLine, Link, Preformatted;
    var kept := Kept(lines).value;
    RemovalKeepsPreformatted(ANALYTICS_TAG, lines, false);
    DroppingKeepsPreformatted(Removed(ANALYTICS_TAG, lines, false).value);
    PreformattedAppend(kept + Padding(kept), Block(fileName));
    PreformattedAppend(kept, Padding(kept));
    PaddingIsNotPreformatted(kept);
    BlockPreformatted(fileName);
    if '\n' !in fileName {
      OneLineInsert(fileName);
      NewLinesAreNotPreformatted(fileName);
      NonePreformatted(InsertLines(fileName));
    }
  }

  lemma PaddingIsNotPreformatted(kept: seq<Line>)
    ensures Preformatted(Padding(kept)) == []
  {
    NonePreformatted(Padding(kept));
  }

  lemma BlockPreformatted(fileName: string)
    ensures Preformatted(Block(fileName)) == Preformatted(InsertLines(fileName))
  {
    hide NewMungeLine, InsertLines, BeginMungeTag, EndMungeTag, Link, Preformatted;
    var b, e := NewMungeLine(BeginMungeTag(ANALYTICS_TAG)), NewMungeLine(EndMungeTag(ANALYTICS_TAG));
    NewLinesAreNotPreformatted(fileName);
    PreformattedAppend([b] + InsertLines(fileName), [e]);
    PreformattedAppend([b], InsertLines(fileName));
    NonePreformatted([b]);
    NonePreformatted([e]);
  }

  const FENCED_NAME := "a\n```\nb"

  /** A name with a line break can open a fence inside the block; what follows is then kept as preformatted text, and
      every run adds a block. */
  lemma FencedNameDoesNotVanish()
    ensures !BlockVanishes(FENCED_NAME)
  {
    hide InsertLines, Fades;
    FencedInsert();
    if BlockVanishes(FENCED_NAME) {
      FadingLinesAreNotPreformatted(InsertLines(FENCED_NAME), true);
    }
  }

  lemma {:induction false} FadingLinesAreNotPreformatted(lines: seq<Line>, inBlock: bool)
    requires Fades(lines, inBlock)
    ensures forall i :: 0 <= i < |lines| ==> !lines[i].preformatted
  {
    hide IsBegin, IsEnd, IsStray;
    if lines != [] {
      var line, rest := lines[0], lines[1..];
      FadingLinesAreNotPreformatted(rest, if IsBegin(ANALYTICS_TAG, line) then true
                                          else if IsEnd(ANALYTICS_TAG, line) then false else inBlock);
      assert lines == [line] + rest;
    }
  }

  lemma FencedInsert()
    ensures |InsertLines(FENCED_NAME)| == 3 && InsertLines(FENCED_NAME)[1].preformatted
  {
    FencedLink();
    PrefixIsOneLine();
    hide ANALYTICS_PREFIX, NewMungeLine, Split, Link;
    var parts := [ANALYTICS_PREFIX + "a", "```", "b?pixel)]()"];
    SplitJoin(parts, '\n');
    assert SplitLines(Link(FENCED_NAME)) == parts;
    assert TrimSpaceLeft(parts[0]) == parts[0];
    assert !NextPreformatted(false, parts[0]);
    assert TrimSpaceLeft(parts[1]) == parts[1] && parts[1][3..] == "";
    assert NextPreformatted(false, parts[1]);
    hide NextPreformatted;
    assert parts[1..][0] == parts[1];
    assert parts[1..][1..] == [parts[2]] && [parts[2]][1..] == [];
  }

  lemma FencedLink()
    ensures Link(FENCED_NAME) == Join([ANALYTICS_PREFIX + "a", "```", "b?pixel)]()"], "\n")
  {
    hide ANALYTICS_PREFIX;
    var parts := [ANALYTICS_PREFIX + "a", "```", "b?pixel)]()"];
    assert parts[1..] == ["```", "b?pixel)]()"] && parts[1..][1..] == ["b?pixel)]()"];
    assert Join(parts[1..], "\n") == "```" + "\n" + "b?pixel)]()";
  }

  // ---- Loose links ----

  /** A line of text that is read outside code fences. */
  function TextLine(text: string): Line { NewMungeLine(text).(preformatted := false) }

  /** Whether it starts like a link of ours and carries no mark. */
  predicate IsLooseLink(text: string) {
    && ANALYTICS_PREFIX <= text
    && !Contains(text, "<!-- BEGIN MUNGE:") && !Contains(text, "<!-- END MUNGE:")
  }

  lemma LooseLinksAreStray(text: string)
    ensures IsStray(TextLine(text)) <==> IsLooseLink(text)
  {
    hide ANALYTICS_PREFIX, Contains;
    PrefixIsOneLine();
    if ANALYTICS_PREFIX <= text {
      assert text[0] == ANALYTICS_PREFIX[0] == '[';
    }
  }

  /** After lines without marks, a text line that is no mark is dropped if it is a loose link, and otherwise stays where
      it is; the lines around it are treated as they would be without it. */
  lemma LooseLinksAreDropped(a: seq<Line>, text: string, b: seq<Line>)
    requires Clean(ANALYTICS_TAG, a) && !IsMark(ANALYTICS_TAG, TextLine(text))
    ensures Kept(a + [TextLine(text)] + b).Some? <==> Kept(b).Some?
    ensures Kept(b).Some? ==>
              Kept(a + [TextLine(text)] + b).value
              == WithoutStrays(a) + (if IsLooseLink(text) then [] else [TextLine(text)]) + Kept(b).value
  {
    hide Removed, WithoutStrays, NewMungeLine, IsStray, IsLooseLink;
    var line := TextLine(text);
    CleanAppend(ANALYTICS_TAG, a, [line]);
    RemovedPastClean(ANALYTICS_TAG, a + [line], b);
    LooseLinksAreStray(text);
    var r := Removed(ANALYTICS_TAG, b, false);
    if r.Some? {
      WithoutStraysAppend(a + [line], r.value);
      WithoutStraysAppend(a, [line]);
      StrayOrNot(line);
    }
  }

  // ---- Code fences ----

  predicate Blank(s: string) { forall i :: 0 <= i < |s| ==> s[i] in " \t\n\r\U{000C}" }

  lemma {:induction false} TrimmedOff(blank: string, rest: string)
    requires Blank(blank)
    ensures TrimSpaceLeft(blank + rest) == TrimSpaceLeft(rest)
  {
    if blank == "" {
      assert blank + rest == rest;
    } else {
      assert (blank + rest)[0] == blank[0] && (blank + rest)[1..] == blank[1..] + rest;
      TrimmedOff(blank[1..], rest);
    }
  }

  lemma {:induction false} SplitOffBlank(line: string) returns (blank: string)
    ensures Blank(blank) && line == blank + TrimSpaceLeft(line)
  {
    if line != "" && IsSpace(line[0]) {
      var rest := SplitOffBlank(line[1..]);
      blank := [line[0]] + rest;
    } else {
      blank := "";
    }
  }

  /** Three backquotes after nothing but white space open a code fence, unless there are three more on the line, and
      close one in any case. */
  lemma FencesMean(blank: string, rest: string)
    requires Blank(blank)
    ensures NextPreformatted(false, blank + "```" + rest) <==> !Contains(rest, "```")
    ensures !NextPreformatted(true, blank + "```" + rest)
  {
    hide Contains;
    var line := "```" + rest;
    assert blank + line == blank + "```" + rest;
    TrimmedOff(blank, line);
    assert TrimSpaceLeft(line) == line && line[3..] == rest;
  }

  lemma FenceShape(line: string) returns (blank: string, rest: string)
    requires IsFence(line)
    ensures Blank(blank) && line == blank + "```" + rest
  {
    blank := SplitOffBlank(line);
    var text := TrimSpaceLeft(line);
    rest := text[3..];
    assert text == "```" + rest;
  }

  /** No other line opens or closes one. */
  lemma OtherLinesAreNoFences(line: string, preformatted: bool)
    requires forall blank, rest :: line == blank + "```" + rest ==> !Blank(blank)
    ensures NextPreformatted(preformatted, line) == preformatted
  {
    hide IsFence;
    if IsFence(line) {
      var blank, rest := FenceShape(line);
    }
  }

  // ---- Blocks, said by counting marks ----

  predicate Counts(token: string, line: Line) { !line.preformatted && IsMark(token, line) }

  /** The number of marks outside code fences. */
  function MarkCount(token: string, lines: seq<Line>): nat {
    if lines == [] then 0
    else MarkCount(token, lines[..|lines| - 1]) + if Counts(token, lines[|lines| - 1]) then 1 else 0
  }

  /** Among the first n lines, begin marks come after an even number of marks, and end marks after an odd one. */
  predicate Alternates(token: string, lines: seq<Line>, n: nat)
    requires n <= |lines|
  {
    forall i :: 0 <= i < n && Counts(token, lines[i]) ==>
      (IsBegin(token, lines[i]) <==> MarkCount(token, lines[..i]) % 2 == 0)
  }

  /** The lines that are preformatted, or are no marks and come after an even number of them. */
  function Outer(token: string, lines: seq<Line>): seq<Line> {
    if lines == [] then []
    else
      var front, last := lines[..|lines| - 1], lines[|lines| - 1];
      Outer(token, front)
      + if last.preformatted || (!IsMark(token, last) && MarkCount(token, front) % 2 == 0) then [last] else []
  }

  lemma BeginIsNotEnd(token: string, line: Line)
    ensures !(IsBegin(token, line) && IsEnd(token, line))
  {
    assert BeginMungeTag(token)[5] == 'B' && EndMungeTag(token)[5] == 'E';
  }

  lemma {:induction false} RemovedFrom(token: string, lines: seq<Line>, n: nat)
    requires n <= |lines|
    ensures Removed(token, lines, false)
            == if Alternates(token, lines, n)
               then Prepend(Outer(token, lines[..n]), Removed(token, lines[n..], MarkCount(token, lines[..n]) % 2 == 1))
               else None
  {
    hide IsBegin, IsEnd, Counts, Alternates;
    if n == 0 {
      NoneYet(token, lines);
      assert lines[..0] == [] && lines[0..] == lines;
      PrependNothing(Removed(token, lines, false));
    } else {
      var line, before, after := lines[n - 1], lines[..n - 1], lines[n..];
      RemovedFrom(token, lines, n - 1);
      assert lines[n - 1..] == [line] + after && lines[..n] == before + [line];
      AlternatesOneMore(token, lines, n);
      OneLineRemoved(token, before, line, after);
    }
  }

  lemma OneLineRemoved(token: string, before: seq<Line>, line: Line, after: seq<Line>)
    ensures var n := MarkCount(token, before);
            Prepend(Outer(token, before), Removed(token, [line] + after, n % 2 == 1))
            == if Counts(token, line) && (IsBegin(token, line) <==> n % 2 == 1) then None
               else Prepend(Outer(token, before + [line]), Removed(token, after, MarkCount(token, before + [line]) % 2 == 1))
  {
    hide IsBegin, IsEnd;
    BeginIsNotEnd(token, line);
    var all, kept := before + [line], Outer(token, before);
    assert all[..|before|] == before && ([line] + after)[1..] == after;
    assert kept + [] == kept;
    PrependTwice(kept, [line], Removed(token, after, MarkCount(token, all) % 2 == 1));
    PrependTwice(kept, [], Removed(token, after, MarkCount(token, all) % 2 == 1));
  }

  lemma NoneYet(token: string, lines: seq<Line>)
    ensures Alternates(token, lines, 0)
  {
  }

  lemma AlternatesOneMore(token: string, lines: seq<Line>, n: nat)
    requires 0 < n <= |lines|
    ensures Alternates(token, lines, n) <==>
              && Alternates(token, lines, n - 1)
              && (Counts(token, lines[n - 1]) ==>
                    (IsBegin(token, lines[n - 1]) <==> MarkCount(token, lines[..n - 1]) % 2 == 0))
  {
    hide IsBegin, MarkCount, Counts;
  }

  /** Removing blocks fails unless the marks outside code fences are begin and end in turn, and pair up; then it leaves
      the lines between blocks, and every preformatted line. */
  lemma RemovedMeans(token: string, lines: seq<Line>)
    ensures Removed(token, lines, false)
            == if Alternates(token, lines, |lines|) && MarkCount(token, lines) % 2 == 0 then Some(Outer(token, lines)) else None
  {
    hide Alternates, MarkCount, Outer, IsBegin, IsEnd;
    RemovedFrom(token, lines, |lines|);
    assert lines[..|lines|] == lines && lines[|lines|..] == [];
    assert Outer(token, lines) + [] == Outer(token, lines);
  }

  // ---- Refilling blocks ----

  /** Lines that are neither marks nor preformatted. */
  predicate IsFilling(token: string, lines: seq<Line>) {
    forall i :: 0 <= i < |lines| ==> !lines[i].preformatted && !IsMark(token, lines[i])
  }

  lemma {:induction false} FillingGoes(token: string, filling: seq<Line>, rest: seq<Line>, insert: seq<Line>)
    requires IsFilling(token, filling)
    ensures Removed(token, filling + rest, true) == Removed(token, rest, true)
    ensures Refilled(token, filling + rest, true, insert) == Refilled(token, rest, true, insert)
  {
    hide IsBegin, IsEnd;
    if filling == [] {
      assert filling + rest == rest;
    } else {
      assert (filling + rest)[0] == filling[0] && (filling + rest)[1..] == filling[1..] + rest;
      FillingGoes(token, filling[1..], rest, insert);
      PrependNothing(Removed(token, filling[1..] + rest, true));
      PrependNothing(Refilled(token, filling[1..] + rest, true, insert));
    }
  }

  predicate Unfenced(lines: seq<Line>) { forall i :: 0 <= i < |lines| ==> !lines[i].preformatted }

  /** Outside code fences, refilling fails when removing does, changes nothing outside blocks, and a second refilling
      with the same lines changes nothing at all. */
  lemma {:induction false} RefillingMeans(token: string, lines: seq<Line>, inBlock: bool, insert: seq<Line>)
    requires Unfenced(lines) && IsFilling(token, insert)
    ensures var r := Refilled(token, lines, inBlock, insert);
            && (r.Some? <==> Removed(token, lines, inBlock).Some?)
            && (r.Some? ==> Removed(token, r.value, inBlock) == Removed(token, lines, inBlock)
                            && Refilled(token, r.value, inBlock, insert) == r)
  {
    hide IsBegin, IsEnd, IsFilling;
    if lines != [] {
      var line, rest := lines[0], lines[1..];
      BeginIsNotEnd(token, line);
      var after := if IsBegin(token, line) then true else if IsEnd(token, line) then false else inBlock;
      RefillingMeans(token, rest, after, insert);
      var r := Refilled(token, rest, after, insert);
      if r.Some? {
        var tail := [line] + r.value;
        assert tail[0] == line && tail[1..] == r.value;
        assert [] + r.value == r.value;
        if inBlock && IsEnd(token, line) {
          var whole := insert + [line] + r.value;
          assert whole == insert + tail;
          FillingGoes(token, insert, tail, insert);
          assert Refilled(token, tail, true, insert) == Prepend(insert + [line], Refilled(token, r.value, false, insert));
          assert Refilled(token, lines, inBlock, insert) == Some(whole);
        } else if !inBlock && !IsEnd(token, line) {
          assert Refilled(token, lines, inBlock, insert) == Some(tail);
          assert Refilled(token, tail, inBlock, insert) == Prepend([line], Refilled(token, r.value, after, insert));
        } else if inBlock && !IsBegin(token, line) {
          PrependNothing(Removed(token, rest, inBlock));
          assert Refilled(token, lines, inBlock, insert) == r;
        }
      }
    }
  }
}
