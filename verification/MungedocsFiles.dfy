/** Running the analytics munger on files (cmd/mungedocs): what one run writes is what the next one reads. */
module MungedocsFiles {
  import opened Mungedocs
  import opened Text
  import opened Wrappers

  function Data(lines: seq<Line>): seq<string> { seq(|lines|, i requires 0 <= i < |lines| => lines[i].data) }

  function Printed(lines: seq<Line>): string { Join(Data(lines), "\n") + "\n" }

  function Read(text: string): seq<Line> { Marked(SplitLines(text), false) }

  /** The file after a visit, and what the visit reports. */
  datatype Visit = Visit(text: string, changed: bool, failed: bool)

  /** visit, when the analytics munger is the only one to run. */
  function Visited(fileName: string, text: string): Visit {
    var after := Updated(fileName, Read(text));
    if after.None? then Visit(text, false, true)
    else if Data(after.value) == Data(Read(text)) then Visit(text, false, false)
    else Visit(Printed(after.value), true, false)
  }

  method VisitFile(fileName: string, text: string) returns (v: Visit)
    ensures v == Visited(fileName, text)
  {
    hide Updated, Marked, SplitLines;
    var lines := GetMungeLines(text);
    var after := UpdateAnalytics(fileName, lines);
    if after.None? {
      return Visit(text, false, true);
    }
    var modificationsMade := Data(after.value) != Data(lines);
    v := Visit(if modificationsMade then Printed(after.value) else text, modificationsMade, false);
  }

  // ---- Reading ----

  /** A code fence is open after these lines. */
  predicate Open(lines: seq<string>, preformatted: bool) {
    if lines == [] then preformatted else Open(lines[1..], NextPreformatted(preformatted, lines[0]))
  }

  predicate FenceFree(lines: seq<string>) { forall i :: 0 <= i < |lines| ==> !IsFence(lines[i]) }

  lemma {:induction false} MarkedData(lines: seq<string>, preformatted: bool)
    ensures Data(Marked(lines, preformatted)) == lines
  {
    hide NextPreformatted;
    if lines != [] {
      MarkedData(lines[1..], NextPreformatted(preformatted, lines[0]));
      DataAppend(Marked(lines, preformatted)[..1], Marked(lines[1..], NextPreformatted(preformatted, lines[0])));
      assert lines == [lines[0]] + lines[1..];
    }
  }

  lemma DataAppend(a: seq<Line>, b: seq<Line>)
    ensures Data(a + b) == Data(a) + Data(b)
  {
  }

  lemma {:induction false} MarkedAppend(a: seq<string>, b: seq<string>, preformatted: bool)
    ensures Marked(a + b, preformatted) == Marked(a, preformatted) + Marked(b, Open(a, preformatted))
    ensures Open(a + b, preformatted) == Open(b, Open(a, preformatted))
  {
    hide NextPreformatted, NewMungeLine;
    if a == [] {
      assert a + b == b;
    } else {
      assert (a + b)[0] == a[0] && (a + b)[1..] == a[1..] + b;
      MarkedAppend(a[1..], b, NextPreformatted(preformatted, a[0]));
    }
  }

  lemma {:induction false} MarkedFenceFree(lines: seq<string>, preformatted: bool)
    requires FenceFree(lines)
    ensures Open(lines, preformatted) == preformatted && |Marked(lines, preformatted)| == |lines|
    ensures forall i :: 0 <= i < |lines| ==>
              Marked(lines, preformatted)[i] == NewMungeLine(lines[i]).(preformatted := preformatted)
  {
    hide NewMungeLine, IsFence, IsInlineFence;
    if lines != [] {
      assert NextPreformatted(preformatted, lines[0]) == preformatted;
      MarkedFenceFree(lines[1..], preformatted);
    }
  }

  /** Lines that are printed are read back. */
  lemma ReadBack(lines: seq<string>)
    requires lines != [] && Free(lines, '\n')
    ensures SplitLines(Join(lines, "\n") + "\n") == lines
  {
    hide Split, Join;
    JoinAppend(lines, [""], "\n");
    JoinOne("", "\n");
    assert Join(lines + [""], "\n") == Join(lines, "\n") + "\n";
    SplitJoin(lines + [""], '\n');
    assert (lines + [""])[..|lines|] == lines;
  }

  lemma LinesAreFree(text: string)
    ensures Free(SplitLines(text), '\n')
  {
    SplitFree(text, '\n');
  }

  // ---- Removing blocks, piece by piece ----

  function Then(a: Option<seq<Line>>, b: seq<Line>): Option<seq<Line>> {
    if a.None? then None else Some(a.value + b)
  }

  lemma {:induction false} RemovedThenPreformatted(token: string, a: seq<Line>, b: seq<Line>, inBlock: bool)
    requires forall i :: 0 <= i < |b| ==> b[i].preformatted
    ensures Removed(token, a + b, inBlock) == Then(Removed(token, a, inBlock), b)
    decreases |a| + |b|
  {
    hide IsBegin, IsEnd;
    if a != [] {
      var line := a[0];
      assert (a + b)[0] == line && (a + b)[1..] == a[1..] + b;
      var after := if line.preformatted then inBlock else if IsBegin(token, line) then true
                   else if IsEnd(token, line) then false else inBlock;
      RemovedThenPreformatted(token, a[1..], b, after);
      ThenPrepended([line], Removed(token, a[1..], after), b);
      ThenPrepended([], Removed(token, a[1..], after), b);
    } else if b != [] {
      assert a + b == b && [] + b[1..] == b[1..];
      RemovedThenPreformatted(token, [], b[1..], inBlock);
      assert [b[0]] + b[1..] == b;
    } else {
      assert a + b == [];
    }
  }

  lemma ThenPrepended(front: seq<Line>, r: Option<seq<Line>>, b: seq<Line>)
    ensures Then(Prepend(front, r), b) == Prepend(front, Then(r, b))
  {
    if r.Some? {
      assert front + r.value + b == front + (r.value + b);
    }
  }

  lemma KeptThenPreformatted(a: seq<Line>, b: seq<Line>)
    requires forall i :: 0 <= i < |b| ==> b[i].preformatted
    ensures Kept(a + b) == Then(Kept(a), b)
  {
    hide Removed, WithoutStrays;
    RemovedThenPreformatted(ANALYTICS_TAG, a, b, false);
    var r := Removed(ANALYTICS_TAG, a, false);
    if r.Some? {
      WithoutStraysAppend(r.value, b);
      NothingToDrop(b);
    }
  }

  /** Lines after a well-formed part are handled on their own; lines after an ill-formed one cannot mend it if they do
      not close a block. */
  lemma {:induction false} RemovedAppend(token: string, a: seq<Line>, b: seq<Line>, inBlock: bool)
    requires Removed(token, b, true).None?
    ensures Removed(token, a + b, inBlock)
            == if Removed(token, a, inBlock).None? then None
               else Prepend(Removed(token, a, inBlock).value, Removed(token, b, false))
  {
    hide IsBegin, IsEnd;
    if a == [] {
      assert a + b == b;
      PrependNothing(Removed(token, b, false));
    } else {
      var line := a[0];
      assert (a + b)[0] == line && (a + b)[1..] == a[1..] + b;
      var after := if line.preformatted then inBlock else if IsBegin(token, line) then true
                   else if IsEnd(token, line) then false else inBlock;
      RemovedAppend(token, a[1..], b, after);
      var r := Removed(token, a[1..], after);
      if r.Some? {
        PrependTwice([line], r.value, Removed(token, b, false));
        PrependTwice([], r.value, Removed(token, b, false));
      }
    }
  }

  lemma {:induction false} RemovedEndsBlank(token: string, lines: seq<Line>, inBlock: bool)
    requires lines != [] && lines[|lines| - 1].data == ""
    ensures var r := Removed(token, lines, inBlock);
            r.Some? ==> |r.value| > 0 && r.value[|r.value| - 1] == lines[|lines| - 1]
  {
    BlankIsNoMark(token, lines[|lines| - 1]);
    hide IsBegin, IsEnd;
    var line, rest := lines[0], lines[1..];
    var after := if line.preformatted then inBlock else if IsBegin(token, line) then true
                 else if IsEnd(token, line) then false else inBlock;
    if rest != [] {
      RemovedEndsBlank(token, rest, after);
    }
  }

  lemma BlankIsNoMark(token: string, line: Line)
    requires line.data == ""
    ensures !IsBegin(token, line) && !IsEnd(token, line) && !IsStray(line)
  {
    PrefixIsOneLine();
  }

  lemma KeptEndsBlank(lines: seq<Line>)
    requires Kept(lines).Some? && lines != [] && lines[|lines| - 1].data == ""
    ensures var k := Kept(lines).value; |k| > 0 && k[|k| - 1].data == ""
  {
    hide Removed, WithoutStrays;
    RemovedEndsBlank(ANALYTICS_TAG, lines, false);
    var r := Removed(ANALYTICS_TAG, lines, false).value;
    BlankIsNoMark(ANALYTICS_TAG, r[|r| - 1]);
    WithoutStraysAppend(r[..|r| - 1], [r[|r| - 1]]);
    assert r[..|r| - 1] + [r[|r| - 1]] == r;
    StrayOrNot(r[|r| - 1]);
  }

  lemma {:induction false} RemovedLines(token: string, lines: seq<Line>, inBlock: bool)
    requires Removed(token, lines, inBlock).Some?
    ensures var r := Removed(token, lines, inBlock).value;
            && (forall line :: line in r ==> line in lines)
            && |r| <= |lines| && (|r| == |lines| ==> r == lines)
  {
    hide IsBegin, IsEnd;
    if lines != [] {
      var line, rest := lines[0], lines[1..];
      var after := if line.preformatted then inBlock else if IsBegin(token, line) then true
                   else if IsEnd(token, line) then false else inBlock;
      RemovedLines(token, rest, after);
      assert lines == [line] + rest;
    }
  }

  lemma {:induction false} UnstrayedLines(lines: seq<Line>)
    ensures var r := WithoutStrays(lines);
            && (forall line :: line in r ==> line in lines)
            && |r| <= |lines| && (|r| == |lines| ==> r == lines)
  {
    hide IsStray;
    if lines != [] {
      UnstrayedLines(lines[1..]);
      assert lines == [lines[0]] + lines[1..];
    }
  }

  lemma KeptLines(lines: seq<Line>)
    requires Kept(lines).Some?
    ensures var k := Kept(lines).value;
            && (forall line :: line in k ==> line in lines)
            && |k| <= |lines| && (|k| == |lines| ==> k == lines)
  {
    hide Removed, WithoutStrays;
    RemovedLines(ANALYTICS_TAG, lines, false);
    UnstrayedLines(Removed(ANALYTICS_TAG, lines, false).value);
  }

  lemma KeptWhole(lines: seq<Line>)
    ensures Kept(lines) == Some(lines) <==> Clean(ANALYTICS_TAG, lines) && NoStrays(lines)
  {
    hide Removed, WithoutStrays, Clean, NoStrays;
    if Kept(lines) == Some(lines) {
      KeptIsClean(lines);
    }
    if Clean(ANALYTICS_TAG, lines) && NoStrays(lines) {
      RemovedPastClean(ANALYTICS_TAG, lines, []);
      NothingRemoved(lines);
      NothingToDrop(lines);
    }
  }

  lemma NothingRemoved(lines: seq<Line>)
    ensures lines + [] == lines && Prepend(lines, Removed(ANALYTICS_TAG, [], false)) == Some(lines)
  {
  }

  // ---- The next run ----

  function Pad(data: seq<string>): seq<string> { if |data| > 0 && data[|data| - 1] != "" then [""] else [] }

  function PadLines(data: seq<string>): seq<Line> { if Pad(data) == [] then [] else [NewMungeLine("")] }

  function BlockData(fileName: string): seq<string> {
    [BeginMungeTag(ANALYTICS_TAG), Link(fileName), EndMungeTag(ANALYTICS_TAG)]
  }

  /** The lines of a file made of these and the block. */
  function Output(fileName: string, data: seq<string>): seq<string> { data + (Pad(data) + BlockData(fileName)) }

  /** A run on a file of these lines finds nothing to change or to report. */
  predicate Quiet(fileName: string, data: seq<string>) {
    var after := Updated(fileName, Marked(data, false));
    after.Some? && Data(after.value) == data
  }

  /** Read on their own, these lines close their code fences and have neither marks nor stray links outside them. */
  predicate Settled(data: seq<string>) {
    !Open(data, false) && Clean(ANALYTICS_TAG, Marked(data, false)) && NoStrays(Marked(data, false))
  }

  lemma PaddingData(lines: seq<Line>)
    ensures Data(Padding(lines)) == Pad(Data(lines)) && Padding(lines) == PadLines(Data(lines))
  {
    hide NewMungeLine;
    BlankData();
  }

  lemma BlankData()
    ensures NewMungeLine("").data == "" && !NewMungeLine("").preformatted && Data([NewMungeLine("")]) == [""]
  {
  }

  /** Neither a fence nor broken up. */
  predicate Plain(line: string) { !IsFence(line) && '\n' !in line }

  lemma TagsArePlain(fileName: string)
    requires '\n' !in fileName
    ensures Plain(BeginMungeTag(ANALYTICS_TAG)) && Plain(EndMungeTag(ANALYTICS_TAG)) && Plain(Link(fileName))
  {
    PrefixIsOneLine();
    hide ANALYTICS_PREFIX, IsFence;
    assert Link(fileName)[0] == '[';
    var b, e := BeginMungeTag(ANALYTICS_TAG), EndMungeTag(ANALYTICS_TAG);
    assert b[0] == '<' && e[0] == '<' && '\n' !in b && '\n' !in e;
    NoFenceStartsSo(Link(fileName));
    NoFenceStartsSo(b);
    NoFenceStartsSo(e);
  }

  lemma NoFenceStartsSo(line: string)
    requires line != "" && (line[0] == '[' || line[0] == '<')
    ensures !IsFence(line)
  {
    assert TrimSpaceLeft(line) == line;
  }

  lemma TailIsPlain(fileName: string, data: seq<string>)
    requires '\n' !in fileName
    ensures FenceFree(Pad(data) + BlockData(fileName)) && Free(Pad(data) + BlockData(fileName), '\n')
    ensures FenceFree(BlockData(fileName) + [""]) && FenceFree([""] + BlockData(fileName))
  {
    TagsArePlain(fileName);
    assert !IsFence("");
    hide BeginMungeTag, EndMungeTag, Link, IsFence;
  }

  lemma OneLineBlock(fileName: string)
    requires '\n' !in fileName
    ensures |Block(fileName)| == 3 && Data(Block(fileName)) == BlockData(fileName)
    ensures forall i :: 0 <= i < 3 ==> Block(fileName)[i] == NewMungeLine(BlockData(fileName)[i])
  {
    hide InsertLines, BeginMungeTag, EndMungeTag, Link;
    OneLineInsert(fileName);
  }

  lemma OutputData(fileName: string, kept: seq<Line>)
    requires '\n' !in fileName
    ensures Data(kept + Padding(kept) + Block(fileName)) == Output(fileName, Data(kept))
  {
    hide Block, BlockData, Padding, Pad;
    DataAppend(kept + Padding(kept), Block(fileName));
    DataAppend(kept, Padding(kept));
    PaddingData(kept);
    OneLineBlock(fileName);
  }

  lemma OutputIsFree(fileName: string, text: string)
    requires '\n' !in fileName && Kept(Read(text)).Some?
    ensures Free(Output(fileName, Data(Kept(Read(text)).value)), '\n')
  {
    hide Kept, Marked, SplitLines, BlockData, Pad;
    var kept := Kept(Read(text)).value;
    KeptLines(Read(text));
    MarkedData(SplitLines(text), false);
    LinesAreFree(text);
    TailIsPlain(fileName, Data(kept));
    forall i | 0 <= i < |kept| ensures '\n' !in Data(kept)[i] {
      assert kept[i] in Read(text);
      var j :| 0 <= j < |Read(text)| && Read(text)[j] == kept[i];
      assert Data(Read(text))[j] == kept[i].data;
    }
  }

  /** Whether or not the file had to be written, the next run reads the kept lines and the block. */
  lemma NextRead(fileName: string, text: string)
    requires '\n' !in fileName && !Visited(fileName, text).failed
    ensures SplitLines(Visited(fileName, text).text) == Output(fileName, Data(Kept(Read(text)).value))
  {
    hide Kept, Marked, SplitLines, Output, Padding, Block, Join, Data;
    var kept := Kept(Read(text)).value;
    OutputData(fileName, kept);
    OutputIsFree(fileName, text);
    MarkedData(SplitLines(text), false);
    OutputIsNotEmpty(fileName, Data(kept));
    ReadBack(Output(fileName, Data(kept)));
  }

  lemma OutputIsNotEmpty(fileName: string, data: seq<string>)
    ensures Output(fileName, data) != []
  {
  }

  /** Kept lines and a fence left open never account for the whole document: each run sees the last block as text. */
  lemma {:induction false} NeverCatchesUp(data: seq<string>, tail: seq<string>)
    requires FenceFree(tail) && tail != [] && Open(data, false) && Kept(Marked(data, false)).Some?
    ensures data != Data(Kept(Marked(data, false)).value) + tail
    decreases |data|
  {
    hide Kept, Marked, Open, FenceFree;
    var kept := Data(Kept(Marked(data, false)).value);
    if data == kept + tail {
      MarkedAppend(kept, tail, false);
      MarkedFenceFree(tail, Open(kept, false));
      var t := Marked(tail, true);
      KeptThenPreformatted(Marked(kept, false), t);
      MarkedData(tail, true);
      DataAppend(Kept(Marked(kept, false)).value, t);
      assert kept == Data(Kept(Marked(kept, false)).value) + tail;
      NeverCatchesUp(kept, tail);
    }
  }

  /** After an open fence the block reads as text, and another is added. */
  lemma OpenIsNotQuiet(fileName: string, data: seq<string>)
    requires '\n' !in fileName && Open(data, false)
    ensures !Quiet(fileName, Output(fileName, data))
  {
    hide Kept, Marked, Open, FenceFree, BlockData, Pad, Padding, Block;
    var tail := Pad(data) + BlockData(fileName);
    TailIsPlain(fileName, data);
    MarkedAppend(data, tail, false);
    MarkedFenceFree(tail, true);
    var m, t := Marked(data, false), Marked(tail, true);
    KeptThenPreformatted(m, t);
    if Kept(m).Some? {
      MarkedData(tail, true);
      DataAppend(Kept(m).value, t);
      OutputData(fileName, Kept(m).value + t);
      BlockIsThree(fileName);
      PadOfBlock(fileName, Data(Kept(m).value) + tail);
      LongerThanBefore(fileName, data, Data(Kept(m).value));
    }
  }

  lemma PadOfBlock(fileName: string, data: seq<string>)
    requires |data| >= 3 && data[|data| - 3..] == BlockData(fileName)
    ensures Pad(data) == [""]
  {
    assert data[|data| - 1] == data[|data| - 3..][2] == EndMungeTag(ANALYTICS_TAG) != "";
  }

  lemma LongerThanBefore(fileName: string, data: seq<string>, kept: seq<string>)
    requires '\n' !in fileName && Open(data, false) && Kept(Marked(data, false)).Some?
    requires kept == Data(Kept(Marked(data, false)).value)
    ensures kept + (Pad(data) + BlockData(fileName)) + ([""] + BlockData(fileName)) != Output(fileName, data)
  {
    hide Kept, Marked, Open, FenceFree;
    hide BlockData, BeginMungeTag, EndMungeTag, Link;
    TailIsPlain(fileName, data);
    BlockIsThree(fileName);
    var block := BlockData(fileName);
    NeverCatchesUp(data, block + [""]);
    NeverCatchesUp(data, [""] + block);
    SameBeforeTail(kept + (Pad(data) + block) + [""], data + Pad(data), block);
    hide Data, Output;
    assert kept + (Pad(data) + block) + ([""] + block) == kept + (Pad(data) + block) + [""] + block;
    assert data + (Pad(data) + block) == data + Pad(data) + block;
    if Pad(data) == [] {
      assert kept + (Pad(data) + block) + [""] == kept + (block + [""]) && data + Pad(data) == data;
    } else {
      assert kept + (Pad(data) + block) + [""] == kept + ([""] + block) + [""];
      SameBeforeTail(kept + ([""] + block), data, [""]);
    }
  }

  lemma SameBeforeTail(a: seq<string>, b: seq<string>, tail: seq<string>)
    ensures a + tail == b + tail <==> a == b
  {
    if a + tail == b + tail {
      assert a == (a + tail)[..|a|] && b == (b + tail)[..|b|];
    }
  }

  lemma BlockIsThree(fileName: string)
    ensures |BlockData(fileName)| == 3
  {
  }

  // ---- When fences are closed ----

  lemma PadIsClean(data: seq<string>)
    ensures Clean(ANALYTICS_TAG, PadLines(data)) && NoStrays(PadLines(data)) && Data(PadLines(data)) == Pad(data)
    ensures Padding(PadLines(data)) == []
  {
    PrefixIsOneLine();
    hide ANALYTICS_PREFIX;
    assert BeginMungeTag(ANALYTICS_TAG) != "" && EndMungeTag(ANALYTICS_TAG) != "";
  }

  lemma TailLines(fileName: string, data: seq<string>)
    requires '\n' !in fileName
    ensures Marked(Pad(data) + BlockData(fileName), false) == PadLines(data) + Block(fileName)
  {
    hide BlockData, BeginMungeTag, EndMungeTag, Link, Block, NewMungeLine, Marked, FenceFree, Free, Data;
    var tail := Pad(data) + BlockData(fileName);
    TailIsPlain(fileName, data);
    MarkedFenceFree(tail, false);
    OneLineBlock(fileName);
    BlockIsThree(fileName);
    forall i | 0 <= i < |tail| ensures Marked(tail, false)[i] == NewMungeLine(tail[i]) {
      NotPreformatted(tail[i]);
    }
    assert PadLines(data) + Block(fileName) == Marked(tail, false);
  }

  lemma BlockIsRemoved(fileName: string)
    requires '\n' !in fileName
    ensures Removed(ANALYTICS_TAG, Block(fileName), false) == Some([])
    ensures Removed(ANALYTICS_TAG, Block(fileName), true).None?
  {
    TagsAreMarks(ANALYTICS_TAG);
    LinkIsNoMark(fileName);
    NewLinesAreNotPreformatted(fileName);
    hide BeginMungeTag, EndMungeTag, Link, NewMungeLine, IsBegin, IsEnd, InsertLines;
    OneLineInsert(fileName);
    var b, l, e := Block(fileName)[0], Block(fileName)[1], Block(fileName)[2];
    assert Block(fileName) == [b, l, e] && [b, l, e][1..] == [l, e] && [l, e][1..] == [e] && [e][1..] == [];
    assert Removed(ANALYTICS_TAG, [], false) == Some([]);
    assert Removed(ANALYTICS_TAG, [e], true) == Some([]);
    PrependNothing(Some([]));
    assert Removed(ANALYTICS_TAG, [l, e], true) == Some([]);
  }

  lemma TailIsRemoved(fileName: string, data: seq<string>)
    requires '\n' !in fileName
    ensures Removed(ANALYTICS_TAG, PadLines(data) + Block(fileName), false) == Some(PadLines(data))
    ensures Removed(ANALYTICS_TAG, PadLines(data) + Block(fileName), true).None?
  {
    hide Block, Clean, NoStrays, IsBegin, IsEnd;
    BlockIsRemoved(fileName);
    PadIsClean(data);
    RemovedPastClean(ANALYTICS_TAG, PadLines(data), Block(fileName));
    assert PadLines(data) + [] == PadLines(data);
    BlankIsNoMark(ANALYTICS_TAG, NewMungeLine(""));
    if Pad(data) == [] {
      assert PadLines(data) + Block(fileName) == Block(fileName);
    } else {
      assert (PadLines(data) + Block(fileName))[1..] == Block(fileName);
    }
  }

  lemma KeptBeforeBlock(fileName: string, lines: seq<Line>, data: seq<string>)
    requires '\n' !in fileName
    ensures Kept(lines + (PadLines(data) + Block(fileName))) == Then(Kept(lines), PadLines(data))
  {
    hide Removed, WithoutStrays, PadLines, Block, Clean, NoStrays;
    TailIsRemoved(fileName, data);
    RemovedAppend(ANALYTICS_TAG, lines, PadLines(data) + Block(fileName), false);
    var r := Removed(ANALYTICS_TAG, lines, false);
    if r.Some? {
      WithoutStraysAppend(r.value, PadLines(data));
      PadIsClean(data);
      NothingToDrop(PadLines(data));
    }
  }

  /** What is kept needs no more padding than the document had. */
  lemma PaddedAlready(data: seq<string>)
    requires Kept(Marked(data, false)).Some?
    ensures Padding(Kept(Marked(data, false)).value + PadLines(data)) == []
  {
    hide Kept, Marked, NewMungeLine;
    BlankData();
    var m := Marked(data, false);
    MarkedData(data, false);
    KeptLines(m);
    assert |m| == |Data(m)| == |data|;
    if Pad(data) == [] {
      assert Kept(m).value + PadLines(data) == Kept(m).value;
      if data != [] {
        assert m[|m| - 1].data == Data(m)[|m| - 1] == "";
        KeptEndsBlank(m);
      }
    }
  }

  lemma ClosedIsQuiet(fileName: string, data: seq<string>)
    requires '\n' !in fileName && !Open(data, false)
    ensures Quiet(fileName, Output(fileName, data)) <==> Kept(Marked(data, false)) == Some(Marked(data, false))
  {
    hide Kept, Marked, Open, BlockData, Pad, PadLines, Padding, Block, Data, Clean, NoStrays;
    var m, tail := Marked(data, false), Pad(data) + BlockData(fileName);
    MarkedAppend(data, tail, false);
    TailLines(fileName, data);
    KeptBeforeBlock(fileName, m, data);
    if Kept(m).Some? {
      var kept, pad := Kept(m).value, PadLines(data);
      PaddedAlready(data);
      assert kept + pad + [] == kept + pad;
      DataAppend(kept + pad, Block(fileName));
      DataAppend(kept, pad);
      PadIsClean(data);
      OneLineBlock(fileName);
      assert Data(kept) + Pad(data) + BlockData(fileName) == Data(kept) + tail;
      SameBeforeTail(Data(kept), data, tail);
      MarkedData(data, false);
      KeptLines(m);
      SameLength(kept, m);
    }
  }

  lemma SameLength(a: seq<Line>, b: seq<Line>)
    ensures Data(a) == Data(b) ==> |a| == |b|
  {
    assert |Data(a)| == |a| && |Data(b)| == |b|;
  }

  /** Once a run has succeeded, the next one changes and reports nothing, exactly when the lines it kept are settled. */
  lemma NextRunIsQuietIff(fileName: string, text: string)
    requires '\n' !in fileName && !Visited(fileName, text).failed
    ensures var first := Visited(fileName, text); var next := Visited(fileName, first.text);
            !next.changed && !next.failed <==> Settled(Data(Kept(Read(text)).value))
    ensures var first := Visited(fileName, text); var next := Visited(fileName, first.text);
            !next.changed ==> next.text == first.text
  {
    hide Kept, Marked, Open, Output, Data, SplitLines, Clean, NoStrays, Printed, Block, Padding;
    var data := Data(Kept(Read(text)).value);
    NextRead(fileName, text);
    MarkedData(Output(fileName, data), false);
    if Open(data, false) {
      OpenIsNotQuiet(fileName, data);
    } else {
      ClosedIsQuiet(fileName, data);
      KeptWhole(Marked(data, false));
    }
  }

  // ---- Fences outside blocks ----

  /** No line that removing blocks would drop is a fence. */
  predicate FencesOutside(lines: seq<Line>, inBlock: bool) {
    if lines == [] then true
    else
      var line, rest := lines[0], lines[1..];
      if line.preformatted then FencesOutside(rest, inBlock)
      else if IsBegin(ANALYTICS_TAG, line) then FencesOutside(rest, true)
      else if IsEnd(ANALYTICS_TAG, line) then FencesOutside(rest, false)
      else (inBlock ==> !IsFence(line.data)) && FencesOutside(rest, inBlock)
  }

  lemma MarksAreNotFences(line: Line)
    ensures IsMark(ANALYTICS_TAG, line) || IsStray(line) ==> !IsFence(line.data)
  {
    PrefixIsOneLine();
    hide ANALYTICS_PREFIX, IsFence;
    if IsMark(ANALYTICS_TAG, line) {
      assert line.data[0] == '<';
      NoFenceStartsSo(line.data);
    } else if IsStray(line) {
      NoFenceStartsSo(line.data);
    }
  }

  /** Putting back in front a line read after `preformatted`. */
  lemma ReadInFront(line: Line, rest: seq<Line>, preformatted: bool)
    requires line == NewMungeLine(line.data).(preformatted := NextPreformatted(preformatted, line.data))
    requires Marked(Data(rest), line.preformatted) == rest
    ensures Marked(Data([line] + rest), preformatted) == [line] + rest
    ensures Open(Data([line] + rest), preformatted) == Open(Data(rest), line.preformatted)
  {
    hide NewMungeLine, NextPreformatted;
    var all := Data([line] + rest);
    assert all[0] == line.data && all[1..] == Data(rest);
  }

  /** Leaving out lines that are not fences does not change how the others are read. */
  lemma {:induction false} RemovedReadsAlike(lines: seq<string>, preformatted: bool, inBlock: bool)
    requires FencesOutside(Marked(lines, preformatted), inBlock)
    ensures var r := Removed(ANALYTICS_TAG, Marked(lines, preformatted), inBlock);
            r.Some? ==> Marked(Data(r.value), preformatted) == r.value
                        && Open(Data(r.value), preformatted) == Open(lines, preformatted)
  {
    hide IsBegin, IsEnd, IsFence, IsInlineFence, NewMungeLine, Data;
    var all := Marked(lines, preformatted);
    if lines == [] {
      NoData();
    } else {
      var line, rest := all[0], lines[1..];
      LineRead(lines[0], preformatted);
      assert all[1..] == Marked(rest, line.preformatted);
      MarksAreNotFences(line);
      var after := if line.preformatted then inBlock else if IsBegin(ANALYTICS_TAG, line) then true
                   else if IsEnd(ANALYTICS_TAG, line) then false else inBlock;
      RemovedReadsAlike(rest, line.preformatted, after);
      var r := Removed(ANALYTICS_TAG, Marked(rest, line.preformatted), after);
      if r.Some? {
        ReadInFront(line, r.value, preformatted);
        assert [] + r.value == r.value;
      }
    }
  }

  lemma LineRead(data: string, preformatted: bool)
    ensures var line := NewMungeLine(data).(preformatted := NextPreformatted(preformatted, data));
            line.data == data && line == NewMungeLine(line.data).(preformatted := NextPreformatted(preformatted, line.data))
  {
  }

  lemma NoData()
    ensures Data([]) == []
  {
  }

  lemma {:induction false} UnstrayedReadsAlike(lines: seq<string>, preformatted: bool)
    ensures var r := WithoutStrays(Marked(lines, preformatted));
            Marked(Data(r), preformatted) == r && Open(Data(r), preformatted) == Open(lines, preformatted)
  {
    hide IsStray, IsFence, IsInlineFence, NewMungeLine, Data;
    var all := Marked(lines, preformatted);
    if lines == [] {
      NoData();
    } else {
      var line, rest := all[0], lines[1..];
      LineRead(lines[0], preformatted);
      assert all[1..] == Marked(rest, line.preformatted);
      MarksAreNotFences(line);
      StrayOrNot(line);
      UnstrayedReadsAlike(rest, line.preformatted);
      var r := WithoutStrays(Marked(rest, line.preformatted));
      ReadInFront(line, r, preformatted);
      assert [] + r == r;
    }
  }

  /** Where no fence is dropped with a block, the next run is quiet exactly when the document closes its fences. */
  lemma QuietIffFencesClose(fileName: string, text: string)
    requires '\n' !in fileName && !Visited(fileName, text).failed && FencesOutside(Read(text), false)
    ensures var next := Visited(fileName, Visited(fileName, text).text);
            !next.changed && !next.failed <==> !Open(SplitLines(text), false)
  {
    hide Marked, Open, Data, SplitLines, Clean, NoStrays, Removed, WithoutStrays, Visited, FencesOutside, Updated;
    KeptWhenNotFailed(fileName, text);
    NextRunIsQuietIff(fileName, text);
    var removed := Removed(ANALYTICS_TAG, Read(text), false).value;
    RemovedReadsAlike(SplitLines(text), false, false);
    UnstrayedReadsAlike(Data(removed), false);
    KeptIsClean(Read(text));
  }

  lemma KeptWhenNotFailed(fileName: string, text: string)
    ensures Visited(fileName, text).failed <==> Kept(Read(text)).None?
  {
  }

  const UNCLOSED := "```"

  /** A document that leaves a fence open gets another block on the next run. */
  lemma UnclosedFenceIsNotQuiet(fileName: string)
    requires '\n' !in fileName
    ensures !Visited(fileName, UNCLOSED).failed
    ensures var next := Visited(fileName, Visited(fileName, UNCLOSED).text); next.changed || next.failed
  {
    JoinOne(UNCLOSED, "\n");
    SplitJoin([UNCLOSED], '\n');
    assert SplitLines(UNCLOSED) == [UNCLOSED] && [UNCLOSED][1..] == [];
    assert TrimSpaceLeft(UNCLOSED) == UNCLOSED && UNCLOSED[3..] == "";
    assert NextPreformatted(false, UNCLOSED);
    hide Split, NextPreformatted, Visited, NewMungeLine, Updated, IsBegin, IsEnd, WithoutStrays;
    var line := NewMungeLine(UNCLOSED).(preformatted := true);
    assert Read(UNCLOSED) == [line] && [line][1..] == [];
    assert Removed(ANALYTICS_TAG, [], false) == Some([]);
    KeptWhenNotFailed(fileName, UNCLOSED);
    QuietIffFencesClose(fileName, UNCLOSED);
  }
}
