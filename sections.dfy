/** The section layout of the code printer: how one file's annotations are
    cut into same-line runs (`addFileSection`), how the origin file's
    section is assembled (`addOriginFileSection`) and how the other files
    follow it (`addSourceSections`).  Text is kept as a sequence of parts;
    the renderer of a single line's annotations is not part of this model,
    so each call to it is recorded as a `LineMessages` part. */
module Sections {
  import opened Wrappers
  import opened Origins
  import opened CodeSources
  import opened SourceSets
  import opened SourceMaps
  import opened Layout

  datatype Part =
    | Newline
      /** What the origin's enclosing context writes for its stack. */
    | StackTrace(text: string)
      /** `addFilenameLine`: the file's name on a line of its own. */
    | FileName(file: FileId)
      /** One call of the per-line renderer, with the gutter width the
          section computed. */
    | LineMessages(run: seq<Source>, sidebarWidth: int)
      /** `addDivider`'s padded marker. */
    | Divider(text: string)
      /** A plain string pushed as a section of its own. */
    | Notice(text: string)

  type Section = seq<Part>

  /** The annotations of `runs`, in order. */
  function Flatten(runs: seq<seq<Source>>): seq<Source>
    decreases |runs|
  {
    if runs == [] then [] else runs[0] + Flatten(runs[1..])
  }

  /** The calls `addFileSection`'s walk makes on what is left of the set:
      `run` is being collected, and `current` is the origin each annotation
      is compared with.  An annotation off `current`'s line closes `run` and
      opens a new one. */
  function RunsFrom(s: seq<Source>, run: seq<Source>, current: Origin): seq<seq<Source>>
    decreases |s|
  {
    if s == [] then [run]
    else if s[0].origin.OnSameLine(current) then RunsFrom(s[1..], run + [s[0]], current)
    else [run] + RunsFrom(s[1..], [s[0]], s[0].origin)
  }

  /** The runs of a set: the walk starts from the first annotation's origin
      with its line forced to -1, so that the first annotation normally
      opens a run of its own and the call before it gets an empty one. */
  function LineRuns(s: seq<Source>): seq<seq<Source>> {
    if s == [] then [] else RunsFrom(s, [], s[0].origin.(line := -1))
  }

  /** All members of `run` are on the line of `o`. */
  predicate OnLineOf(run: seq<Source>, o: Origin) {
    forall x :: x in run ==> x.origin.OnSameLine(o)
  }

  /** The walk hands every annotation to exactly one call, in order. */
  lemma {:induction false} RunsFromFlatten(s: seq<Source>, run: seq<Source>, current: Origin)
    ensures Flatten(RunsFrom(s, run, current)) == run + s
    decreases |s|
  {
    if s == [] {
      assert Flatten([run]) == run + Flatten([]);
    } else if s[0].origin.OnSameLine(current) {
      RunsFromFlatten(s[1..], run + [s[0]], current);
      assert run + [s[0]] + s[1..] == run + s;
    } else {
      var rest := RunsFrom(s[1..], [s[0]], s[0].origin);
      RunsFromFlatten(s[1..], [s[0]], s[0].origin);
      assert ([run] + rest)[1..] == rest;
      assert [s[0]] + s[1..] == s;
    }
  }

  /** Shape of the walk: the first call gets `run` extended by the leading
      annotations on `current`'s line (so exactly `run` iff the next one is
      off that line); every later call gets a non-empty run. */
  lemma {:induction false} RunsFromShape(s: seq<Source>, run: seq<Source>, current: Origin)
    ensures var r := RunsFrom(s, run, current);
            && |r| >= 1
            && run <= r[0]
            && (r[0] == run <==> s == [] || !s[0].origin.OnSameLine(current))
            && forall k :: 1 <= k < |r| ==> r[k] != []
    decreases |s|
  {
    if s == [] {
    } else if s[0].origin.OnSameLine(current) {
      RunsFromShape(s[1..], run + [s[0]], current);
    } else {
      RunsFromShape(s[1..], [s[0]], s[0].origin);
      var rest := RunsFrom(s[1..], [s[0]], s[0].origin);
      var r: seq<seq<Source>> := [run] + rest;
      forall k | 1 <= k < |r| ensures r[k] != [] {
        assert r[k] == rest[k - 1];
        assert [s[0]] <= rest[0];
      }
    }
  }

  /** Each run lies on one line, and each run after the first starts off
      the line of the run before it: the runs are maximal. */
  lemma {:induction false} RunsFromLines(s: seq<Source>, run: seq<Source>, current: Origin)
    requires OnLineOf(run, current)
    ensures var r := RunsFrom(s, run, current);
            && |r| >= 1
            && OnLineOf(r[0], current)
            && (|r| > 1 ==> r[1] != [] && !r[1][0].origin.OnSameLine(current))
            && (forall k :: 1 <= k < |r| ==> r[k] != [] && OnLineOf(r[k], r[k][0].origin))
            && (forall k :: 2 <= k < |r| && r[k - 1] != [] ==> !r[k][0].origin.OnSameLine(r[k - 1][0].origin))
    decreases |s|
  {
    RunsFromShape(s, run, current);
    if s == [] {
    } else if s[0].origin.OnSameLine(current) {
      RunsFromLines(s[1..], run + [s[0]], current);
    } else {
      var o := s[0].origin;
      RunsFromLines(s[1..], [s[0]], o);
      RunsFromShape(s[1..], [s[0]], o);
      var rest := RunsFrom(s[1..], [s[0]], o);
      var r: seq<seq<Source>> := [run] + rest;
      assert rest[0][0] == s[0];
      forall k | 1 <= k < |r| ensures r[k] != [] && OnLineOf(r[k], r[k][0].origin) {
        assert r[k] == rest[k - 1];
      }
      forall k | 2 <= k < |r| && r[k - 1] != []
        ensures !r[k][0].origin.OnSameLine(r[k - 1][0].origin)
      {
        assert r[k] == rest[k - 1] && r[k - 1] == rest[k - 2];
      }
    }
  }

  /** `addFileSection`'s walk splits a set into maximal runs of same-line
      annotations whose concatenation is the set; only the first run can be
      empty, and it is empty exactly when the first annotation's line is not
      the -1 the walk starts from. */
  lemma LineRunsPartition(s: seq<Source>)
    ensures Flatten(LineRuns(s)) == s
    ensures s == [] <==> LineRuns(s) == []
    ensures s != [] ==> (LineRuns(s)[0] == [] <==> s[0].origin.line != -1)
    ensures var r := LineRuns(s);
            && (forall k :: 1 <= k < |r| ==> r[k] != [])
            && (forall k :: 0 <= k < |r| && r[k] != [] ==> OnLineOf(r[k], r[k][0].origin))
            && (forall k :: 1 <= k < |r| && r[k - 1] != [] ==> !r[k][0].origin.OnSameLine(r[k - 1][0].origin))
  {
    if s != [] {
      var cur := s[0].origin.(line := -1);
      RunsFromFlatten(s, [], cur);
      RunsFromShape(s, [], cur);
      RunsFromLines(s, [], cur);
      var r: seq<seq<Source>> := LineRuns(s);
      if r[0] != [] {
        assert OnLineOf(r[0], r[0][0].origin);
        if |r| > 1 {
          assert r[0][0].origin.OnSameLine(cur);
        }
      }
    }
  }

  /** One `LineMessages` part per run, all with the same gutter width. */
  function RunParts(runs: seq<seq<Source>>, width: int): (r: seq<Part>)
    ensures |r| == |runs|
    decreases |runs|
  {
    if runs == [] then [] else [LineMessages(runs[0], width)] + RunParts(runs[1..], width)
  }

  /** Part `k` renders run `k` at the given width. */
  lemma {:induction false} RunPartsLists(runs: seq<seq<Source>>, width: int)
    ensures forall k :: 0 <= k < |runs| ==> RunParts(runs, width)[k] == LineMessages(runs[k], width)
    decreases |runs|
  {
    if runs != [] {
      RunPartsLists(runs[1..], width);
      var r := RunParts(runs, width);
      forall k | 0 <= k < |runs| ensures r[k] == LineMessages(runs[k], width) {
        if k > 0 {
          var j := k - 1;
          assert r[k] == RunParts(runs[1..], width)[j] && runs[k] == runs[1..][j];
        }
      }
    }
  }

  /** The gutter width `addFileSection` uses: the given one, or, when it is
      negative, the width for the line of the set's greatest member. */
  function EffectiveWidth(fileSources: seq<Source>, sidebarWidth: int): int
    requires fileSources != []
  {
    if sidebarWidth < 0 then SidebarWidth(fileSources[|fileSources| - 1].origin.line)
    else sidebarWidth
  }

  /** What `addFileSection` appends: nothing for an empty set; otherwise the
      file name when asked for, then one part per call of the walk. */
  function FileSectionParts(file: FileId, fileSources: seq<Source>,
                            sidebarWidth: int, addFilename: bool): seq<Part>
  {
    if fileSources == [] then []
    else (if addFilename then [FileName(file)] else [])
         + RunParts(LineRuns(fileSources), EffectiveWidth(fileSources, sidebarWidth))
  }

  /** One step of the walk at position `i`, with the current run starting
      at `lineStart`. */
  lemma RunsFromStep(s: seq<Source>, lineStart: nat, i: nat, current: Origin)
    requires lineStart <= i < |s|
    ensures RunsFrom(s[i..], s[lineStart..i], current)
            == if s[i].origin.OnSameLine(current) then RunsFrom(s[i + 1..], s[lineStart..i + 1], current)
               else [s[lineStart..i]] + RunsFrom(s[i + 1..], s[i..i + 1], s[i].origin)
  {
    assert s[i..][0] == s[i];
    assert s[i..][1..] == s[i + 1..];
    assert s[lineStart..i] + [s[i]] == s[lineStart..i + 1];
    assert [s[i]] == s[i..i + 1];
  }

  /** Rendering one more run appends one more part. */
  lemma {:induction false} RunPartsAppend(runs: seq<seq<Source>>, run: seq<Source>, width: int)
    ensures RunParts(runs + [run], width) == RunParts(runs, width) + [LineMessages(run, width)]
    decreases |runs|
  {
    if runs == [] {
      assert [run][1..] == [];
    } else {
      assert (runs + [run])[0] == runs[0];
      assert (runs + [run])[1..] == runs[1..] + [run];
      RunPartsAppend(runs[1..], run, width);
    }
  }

  /** `addFileSection` on a stream: the gutter width defaults to "compute it"
      (-1) and the file name is written by default. */
  method AddFileSection(ss: seq<Part>, file: FileId, fileSources: seq<Source>,
                        sidebarWidth: int := -1, addFilename: bool := true)
    returns (out: seq<Part>)
    ensures out == ss + FileSectionParts(file, fileSources, sidebarWidth, addFilename)
  {
    out := ss;
    if |fileSources| == 0 {
      return;
    }
    var head: seq<Part> := [];
    if addFilename {
      head := [FileName(file)];
    }
    var width := sidebarWidth;
    if width < 0 {
      width := GetSidebarWidth(fileSources[|fileSources| - 1].origin.line);
    }
    assert width == EffectiveWidth(fileSources, sidebarWidth);
    ghost var runParts := RunParts(LineRuns(fileSources), width);
    assert FileSectionParts(file, fileSources, sidebarWidth, addFilename) == head + runParts;
    out := AddLineRuns(ss + head, fileSources, width);
    assert (ss + head) + runParts == ss + (head + runParts);
  }

  /** The walk of `addFileSection`: each time the line changes, the run
      gathered so far becomes one `LineMessages` part; the last run follows
      the loop. */
  method AddLineRuns(ss: seq<Part>, fileSources: seq<Source>, width: int) returns (out: seq<Part>)
    requires fileSources != []
    ensures out == ss + RunParts(LineRuns(fileSources), width)
  {
    out := ss;
    var currentOrigin := fileSources[0].origin.(line := -1);
    var lineStart := 0;
    var i := 0;
    ghost var runs: seq<seq<Source>> := [];
    assert fileSources[0..] == fileSources && fileSources[0..0] == [];
    while i < |fileSources|
      invariant 0 <= lineStart <= i <= |fileSources|
      invariant runs + RunsFrom(fileSources[i..], fileSources[lineStart..i], currentOrigin)
                == LineRuns(fileSources)
      invariant out == ss + RunParts(runs, width)
    {
      if !fileSources[i].origin.OnSameLine(currentOrigin) {
        var run := fileSources[lineStart..i];
        WalkNewLine(fileSources, runs, lineStart, i, currentOrigin);
        PushRun(ss, runs, run, width);
        out := out + [LineMessages(run, width)];
        currentOrigin := fileSources[i].origin;
        runs := runs + [run];
        lineStart := i;
      } else {
        WalkSameLine(fileSources, runs, lineStart, i, currentOrigin);
      }
      i := i + 1;
    }
    var run := fileSources[lineStart..i];
    assert fileSources[i..] == [];
    assert runs + [run] == LineRuns(fileSources);
    PushRun(ss, runs, run, width);
    out := out + [LineMessages(run, width)];
  }

  /** The walk meets an annotation on the current line: the run grows. */
  lemma WalkSameLine(s: seq<Source>, runs: seq<seq<Source>>, lineStart: nat, i: nat, current: Origin)
    requires lineStart <= i < |s| && s[i].origin.OnSameLine(current)
    requires runs + RunsFrom(s[i..], s[lineStart..i], current) == LineRuns(s)
    ensures runs + RunsFrom(s[i + 1..], s[lineStart..i + 1], current) == LineRuns(s)
  {
    RunsFromStep(s, lineStart, i, current);
  }

  /** The walk meets a new line: the run so far is finished and a new one
      starts at `i`. */
  lemma WalkNewLine(s: seq<Source>, runs: seq<seq<Source>>, lineStart: nat, i: nat, current: Origin)
    requires lineStart <= i < |s| && !s[i].origin.OnSameLine(current)
    requires runs + RunsFrom(s[i..], s[lineStart..i], current) == LineRuns(s)
    ensures (runs + [s[lineStart..i]]) + RunsFrom(s[i + 1..], s[i..i + 1], s[i].origin) == LineRuns(s)
  {
    RunsFromStep(s, lineStart, i, current);
    var later := RunsFrom(s[i + 1..], s[i..i + 1], s[i].origin);
    assert runs + ([s[lineStart..i]] + later) == (runs + [s[lineStart..i]]) + later;
  }

  /** Writing one more run's part extends the rendered runs by one. */
  lemma PushRun(ss: seq<Part>, runs: seq<seq<Source>>, run: seq<Source>, width: int)
    ensures (ss + RunParts(runs, width)) + [LineMessages(run, width)] == ss + RunParts(runs + [run], width)
  {
    RunPartsAppend(runs, run, width);
    assert (ss + RunParts(runs, width)) + [LineMessages(run, width)]
           == ss + (RunParts(runs, width) + [LineMessages(run, width)]);
  }

  /** The `strVector` overload of `addFileSection`: the section is built on
      its own and pushed as one more entry. */
  method PushFileSection(sections: seq<Section>, file: FileId, fileSources: seq<Source>,
                         sidebarWidth: int := -1, addFilename: bool := true)
    returns (out: seq<Section>)
    ensures out == sections + [FileSectionParts(file, fileSources, sidebarWidth, addFilename)]
  {
    var ss := AddFileSection([], file, fileSources, sidebarWidth, addFilename);
    assert ss == FileSectionParts(file, fileSources, sidebarWidth, addFilename);
    out := sections + [ss];
  }

  /** `addFileSection` adds nothing for an empty set. */
  lemma FileSectionOfEmptySet(file: FileId, sidebarWidth: int, addFilename: bool)
    ensures FileSectionParts(file, [], sidebarWidth, addFilename) == []
  {
  }

  /** For a non-empty set the section is the optional file name followed by
      the runs, in order, and reading back the runs gives the set. */
  lemma FileSectionLists(file: FileId, fileSources: seq<Source>, sidebarWidth: int, addFilename: bool)
    requires fileSources != []
    ensures var p := FileSectionParts(file, fileSources, sidebarWidth, addFilename);
            var skip := if addFilename then 1 else 0;
            && |p| == skip + |LineRuns(fileSources)|
            && (addFilename ==> p[0] == FileName(file))
            && (forall k :: skip <= k < |p| ==>
                  (p[k].LineMessages? && p[k].sidebarWidth == EffectiveWidth(fileSources, sidebarWidth)))
            && Flatten(seq(|p| - skip, k requires 0 <= k < |p| - skip => p[skip + k].run)) == fileSources
  {
    var p := FileSectionParts(file, fileSources, sidebarWidth, addFilename);
    var skip := if addFilename then 1 else 0;
    var runs := LineRuns(fileSources);
    LineRunsPartition(fileSources);
    RunPartsLists(runs, EffectiveWidth(fileSources, sidebarWidth));
    assert seq(|p| - skip, k requires 0 <= k < |p| - skip => p[skip + k].run) == runs;
  }

  /** A file section never holds a divider. */
  lemma FileSectionHasNoDivider(file: FileId, fileSources: seq<Source>, sidebarWidth: int, addFilename: bool)
    ensures forall k :: 0 <= k < |FileSectionParts(file, fileSources, sidebarWidth, addFilename)|
              ==> !FileSectionParts(file, fileSources, sidebarWidth, addFilename)[k].Divider?
  {
    if fileSources != [] {
      RunPartsLists(LineRuns(fileSources), EffectiveWidth(fileSources, sidebarWidth));
      var p := FileSectionParts(file, fileSources, sidebarWidth, addFilename);
      var skip := if addFilename then 1 else 0;
      forall k | skip <= k < |p| ensures !p[k].Divider? {
        assert p[k] == RunParts(LineRuns(fileSources), EffectiveWidth(fileSources, sidebarWidth))[k - skip];
      }
    }
  }

  /** The largest line among `line` and the lines of `fileSources`, scanning
      left to right as `addOriginFileSection` does. */
  function MaxLine(line: int, fileSources: seq<Source>): int
    decreases |fileSources|
  {
    if fileSources == [] then line
    else MaxLine(if line < fileSources[0].origin.line then fileSources[0].origin.line else line,
                 fileSources[1..])
  }

  /** `MaxLine` is the maximum: no smaller than the start line or any member's
      line, and equal to one of them. */
  lemma {:induction false} MaxLineIsMaximum(line: int, fileSources: seq<Source>)
    ensures MaxLine(line, fileSources) >= line
    ensures forall x :: x in fileSources ==> MaxLine(line, fileSources) >= x.origin.line
    ensures MaxLine(line, fileSources) == line
            || exists x :: x in fileSources && MaxLine(line, fileSources) == x.origin.line
    decreases |fileSources|
  {
    if fileSources != [] {
      var m := if line < fileSources[0].origin.line then fileSources[0].origin.line else line;
      MaxLineIsMaximum(m, fileSources[1..]);
      assert fileSources == [fileSources[0]] + fileSources[1..];
    }
  }

  /** The origin comes first in its file when no annotation of the file
      lies off the origin's line and after it. */
  predicate OriginIsFirst(origin: Origin, fileSources: seq<Source>) {
    forall x :: x in fileSources ==> x.origin.OnSameLine(origin) || origin.DistanceTo(x.origin) <= 0
  }

  /** The scan at the top of `addOriginFileSection`: the maximum line for
      the gutter and whether the origin comes first in its file. */
  method ScanOriginFile(origin: Origin, fileSources: seq<Source>)
    returns (maxLine: int, originIsFirstSource: bool)
    ensures maxLine == MaxLine(origin.line, fileSources)
    ensures originIsFirstSource == OriginIsFirst(origin, fileSources)
  {
    originIsFirstSource := true;
    maxLine := origin.line;
    var i := 0;
    while i < |fileSources|
      invariant 0 <= i <= |fileSources|
      invariant MaxLine(maxLine, fileSources[i..]) == MaxLine(origin.line, fileSources)
      invariant originIsFirstSource == OriginIsFirst(origin, fileSources[..i])
    {
      var source := fileSources[i];
      assert fileSources[i..][1..] == fileSources[i + 1..];
      assert fileSources[..i + 1] == fileSources[..i] + [source];
      i := i + 1;
      if maxLine < source.origin.line {
        maxLine := source.origin.line;
      }
      if !source.origin.OnSameLine(origin) && origin.DistanceTo(source.origin) > 0 {
        originIsFirstSource := false;
      }
    }
    assert fileSources[..i] == fileSources;
  }

  /** Whether the origin section needs its "^^^" divider. */
  predicate NeedsDivider(origin: Origin, originLineSources: seq<Source>, fileSources: seq<Source>) {
    !OriginIsFirst(origin, fileSources) && originLineSources != [] && fileSources != []
  }

  /** The origin section: the stack text, then the origin-line annotations
      (with the file name), then the divider, then the rest of the origin
      file's annotations (without it), all with one gutter width. */
  function OriginSectionParts(origin: Origin, originLineSources: seq<Source>,
                              fileSources: seq<Source>): seq<Part>
  {
    var width := SidebarWidth(MaxLine(origin.line, fileSources));
    var divider := NeedsDivider(origin, originLineSources, fileSources);
    (match origin.stack
     case Some(text) => [StackTrace(text)]
     case None => [])
    + (if originLineSources != [] then [Newline] + FileSectionParts(origin.file, originLineSources, width, true) else [])
    + (if divider then [Newline, Divider(DividerText("^^^", width))] else [])
    + (if fileSources != [] then
         (if divider then [Newline] else []) + FileSectionParts(origin.file, fileSources, width, false)
       else [])
  }

  /** The body of `addOriginFileSection` once the origin file's set has been
      looked up: the scan, then the stack text, the origin line's
      annotations, the divider when needed, and the rest of the file. */
  method OriginSection(origin: Origin, originLineSources: seq<Source>, fileSources: seq<Source>)
    returns (ss: seq<Part>)
    ensures ss == OriginSectionParts(origin, originLineSources, fileSources)
  {
    var maxLine, originIsFirstSource := ScanOriginFile(origin, fileSources);

    ss := [];
    if origin.stack.Some? {
      ss := [StackTrace(origin.stack.value)];
    }

    var sidebarWidth := GetSidebarWidth(maxLine);
    SidebarWidthAtLeastThree(maxLine);
    var hasOriginSources := |originLineSources| > 0;
    var hasFileSources := |fileSources| > 0;
    var needsDivider := !originIsFirstSource && hasOriginSources && hasFileSources;
    assert needsDivider == NeedsDivider(origin, originLineSources, fileSources);

    var lineSection: seq<Part> := [];
    if hasOriginSources {
      lineSection := AddFileSection([Newline], origin.file, originLineSources, sidebarWidth);
    }
    ss := ss + lineSection;

    var divider: seq<Part> := [];
    if needsDivider {
      divider := [Newline, Divider(DividerText("^^^", sidebarWidth))];
    }
    ss := ss + divider;

    var rest: seq<Part> := [];
    if hasFileSources {
      if needsDivider {
        rest := [Newline];
      }
      rest := AddFileSection(rest, origin.file, fileSources, sidebarWidth, false);
    }
    ss := ss + rest;
  }

  /** The divider appears exactly when some annotation of the origin file is
      off the origin's line and after it, and both groups are non-empty. */
  lemma DividerIffLaterSource(origin: Origin, originLineSources: seq<Source>, fileSources: seq<Source>)
    ensures (exists k :: 0 <= k < |OriginSectionParts(origin, originLineSources, fileSources)|
               && OriginSectionParts(origin, originLineSources, fileSources)[k].Divider?)
            <==> (originLineSources != [] && fileSources != []
                  && exists x :: x in fileSources && !x.origin.OnSameLine(origin) && origin.DistanceTo(x.origin) > 0)
  {
    var width := SidebarWidth(MaxLine(origin.line, fileSources));
    FileSectionHasNoDivider(origin.file, originLineSources, width, true);
    FileSectionHasNoDivider(origin.file, fileSources, width, false);
    var p := OriginSectionParts(origin, originLineSources, fileSources);
    if NeedsDivider(origin, originLineSources, fileSources) {
      var k := (if origin.stack.Some? then 1 else 0)
               + (if originLineSources != [] then 1 + |FileSectionParts(origin.file, originLineSources, width, true)| else 0)
               + 1;
      assert p[k].Divider?;
    }
  }

  /** Every `LineMessages` part of `p` uses gutter width `width`. */
  predicate UsesWidth(p: seq<Part>, width: int) {
    forall k :: 0 <= k < |p| && p[k].LineMessages? ==> p[k].sidebarWidth == width
  }

  lemma UsesWidthConcat(a: seq<Part>, b: seq<Part>, width: int)
    requires UsesWidth(a, width) && UsesWidth(b, width)
    ensures UsesWidth(a + b, width)
  {
    forall k | 0 <= k < |a + b| && (a + b)[k].LineMessages? ensures (a + b)[k].sidebarWidth == width {
      if k >= |a| { assert (a + b)[k] == b[k - |a|]; }
    }
  }

  lemma FileSectionUsesWidth(file: FileId, fileSources: seq<Source>, width: int, addFilename: bool)
    requires width >= 0
    ensures UsesWidth(FileSectionParts(file, fileSources, width, addFilename), width)
  {
    if fileSources != [] {
      FileSectionLists(file, fileSources, width, addFilename);
    }
  }

  /** Every part of the origin section that shows annotations uses the
      gutter width of the largest line in the origin file, the origin's own
      line included. */
  lemma OriginSectionWidth(origin: Origin, originLineSources: seq<Source>, fileSources: seq<Source>)
    ensures var m := MaxLine(origin.line, fileSources);
            && m >= origin.line
            && (forall x :: x in fileSources ==> m >= x.origin.line)
            && UsesWidth(OriginSectionParts(origin, originLineSources, fileSources), SidebarWidth(m))
  {
    MaxLineIsMaximum(origin.line, fileSources);
    var width := SidebarWidth(MaxLine(origin.line, fileSources));
    var divider := NeedsDivider(origin, originLineSources, fileSources);
    var a: seq<Part> := match origin.stack case Some(text) => [StackTrace(text)] case None => [];
    var b: seq<Part> := if originLineSources != [] then [Newline] + FileSectionParts(origin.file, originLineSources, width, true) else [];
    var c: seq<Part> := if divider then [Newline, Divider(DividerText("^^^", width))] else [];
    var d: seq<Part> := if fileSources != [] then
         (if divider then [Newline] else []) + FileSectionParts(origin.file, fileSources, width, false)
       else [];
    assert OriginSectionParts(origin, originLineSources, fileSources) == a + b + c + d;
    FileSectionUsesWidth(origin.file, originLineSources, width, true);
    FileSectionUsesWidth(origin.file, fileSources, width, false);
    UsesWidthConcat([Newline], FileSectionParts(origin.file, originLineSources, width, true), width);
    UsesWidthConcat(if divider then [Newline] else [], FileSectionParts(origin.file, fileSources, width, false), width);
    UsesWidthConcat(a, b, width);
    UsesWidthConcat(a + b, c, width);
    UsesWidthConcat(a + b + c, d, width);
  }

  /** The entries `addSourceSections` visits: every entry of the map except
      the origin's file, in key order. */
  function OtherBuckets(bs: seq<Bucket>, originFile: FileId): seq<Bucket>
    decreases |bs|
  {
    if bs == [] then []
    else (if bs[0].file != originFile then [bs[0]] else []) + OtherBuckets(bs[1..], originFile)
  }

  /** `addSourceSections`' loop: one section per entry whose file is not the
      origin's, in key order.  An empty entry gives an empty section. */
  function OtherFileSections(bs: seq<Bucket>, originFile: FileId): seq<Section>
    decreases |bs|
  {
    if bs == [] then []
    else (if bs[0].file != originFile then [FileSectionParts(bs[0].file, bs[0].members, -1, true)] else [])
         + OtherFileSections(bs[1..], originFile)
  }

  /** Section `k` is the section of visited entry `k`, for every `k`. */
  predicate SectionsOfBuckets(r: seq<Section>, ob: seq<Bucket>) {
    && |r| == |ob|
    && forall k :: 0 <= k < |ob| ==> r[k] == FileSectionParts(ob[k].file, ob[k].members, -1, true)
  }

  /** The sections are those of the visited entries, one for one. */
  lemma {:induction false} OtherFileSectionsMatchBuckets(bs: seq<Bucket>, originFile: FileId)
    ensures SectionsOfBuckets(OtherFileSections(bs, originFile), OtherBuckets(bs, originFile))
    decreases |bs|
  {
    if bs != [] {
      OtherFileSectionsMatchBuckets(bs[1..], originFile);
      if bs[0].file != originFile {
        SectionsOfBucketsCons(bs[0], OtherFileSections(bs[1..], originFile), OtherBuckets(bs[1..], originFile));
      }
    }
  }

  lemma SectionsOfBucketsCons(b: Bucket, r: seq<Section>, ob: seq<Bucket>)
    requires SectionsOfBuckets(r, ob)
    ensures SectionsOfBuckets([FileSectionParts(b.file, b.members, -1, true)] + r, [b] + ob)
  {
    var r' := [FileSectionParts(b.file, b.members, -1, true)] + r;
    var ob' := [b] + ob;
    forall k | 0 <= k < |ob'| ensures r'[k] == FileSectionParts(ob'[k].file, ob'[k].members, -1, true) {
      if k > 0 {
        var j := k - 1;
        assert r'[k] == r[j] && ob'[k] == ob[j];
      }
    }
  }

  /** The first key of an ordered map is below all the others. */
  lemma FirstFileBelowRest(bs: seq<Bucket>)
    requires FilesIncreasing(bs) && bs != []
    ensures Files(bs) == {bs[0].file} + Files(bs[1..])
    ensures forall g :: g in Files(bs[1..]) ==> bs[0].file < g
  {
    assert bs == [bs[0]] + bs[1..];
    forall g | g in Files(bs[1..]) ensures bs[0].file < g {
      var b :| b in bs[1..] && b.file == g;
      var j :| 0 <= j < |bs[1..]| && bs[1..][j] == b;
      assert bs[j + 1] == b;
    }
  }

  /** The visited entries are exactly the map's entries for other files. */
  lemma {:induction false} OtherBucketsMembers(bs: seq<Bucket>, originFile: FileId)
    ensures forall b :: b in OtherBuckets(bs, originFile) <==> b in bs && b.file != originFile
    decreases |bs|
  {
    if bs != [] {
      OtherBucketsMembers(bs[1..], originFile);
      assert bs == [bs[0]] + bs[1..];
    }
  }

  /** Skipping an entry keeps the others in key order. */
  lemma {:induction false} OtherBucketsOrdered(bs: seq<Bucket>, originFile: FileId)
    requires FilesIncreasing(bs)
    ensures FilesIncreasing(OtherBuckets(bs, originFile))
    decreases |bs|
  {
    if bs != [] {
      var t := bs[1..];
      TailIncreasing(bs);
      OtherBucketsOrdered(t, originFile);
      if bs[0].file != originFile {
        OtherBucketsMembers(t, originFile);
        HeadBelowTail(bs);
        ConsIncreasing(bs[0], OtherBuckets(t, originFile));
      }
    }
  }

  /** Exactly one entry is skipped when the origin's file is a key. */
  lemma {:induction false} OtherBucketsCount(bs: seq<Bucket>, originFile: FileId)
    requires FilesIncreasing(bs)
    ensures |OtherBuckets(bs, originFile)| == |bs| - (if originFile in Files(bs) then 1 else 0)
    decreases |bs|
  {
    if bs != [] {
      OtherBucketsCount(bs[1..], originFile);
      FirstFileBelowRest(bs);
    }
  }

  /** The visited entries are the map without the origin's file. */
  lemma OtherBucketsAreTheOtherFiles(bs: seq<Bucket>, originFile: FileId)
    requires FilesIncreasing(bs)
    ensures var ob := OtherBuckets(bs, originFile);
            && (forall b :: b in ob <==> b in bs && b.file != originFile)
            && FilesIncreasing(ob)
            && Files(ob) == Files(bs) - {originFile}
            && |ob| == |bs| - (if originFile in Files(bs) then 1 else 0)
  {
    OtherBucketsMembers(bs, originFile);
    OtherBucketsOrdered(bs, originFile);
    OtherBucketsCount(bs, originFile);
  }

  /** Each section belongs to the matching visited entry: it names that file
      first when the entry is non-empty and is empty otherwise. */
  lemma OtherFileSectionsInKeyOrder(bs: seq<Bucket>, originFile: FileId)
    requires FilesIncreasing(bs)
    ensures var r := OtherFileSections(bs, originFile);
            var ob := OtherBuckets(bs, originFile);
            && |r| == |ob|
            && (forall k :: 0 <= k < |r| ==> (r[k] == [] <==> ob[k].members == []))
            && (forall k :: 0 <= k < |r| && r[k] != [] ==> r[k][0] == FileName(ob[k].file))
            && (forall k, l :: 0 <= k < l < |ob| ==> ob[k].file < ob[l].file)
            && Files(ob) == Files(bs) - {originFile}
  {
    OtherBucketsAreTheOtherFiles(bs, originFile);
    OtherFileSectionsMatchBuckets(bs, originFile);
  }

  /** Storing anything under the origin's file does not change what the
      other-files walk visits. */
  lemma {:induction false} OtherBucketsIgnorePut(bs: seq<Bucket>, originFile: FileId, m: seq<Source>)
    requires FilesIncreasing(bs)
    ensures OtherBuckets(Put(bs, originFile, m), originFile) == OtherBuckets(bs, originFile)
    ensures OtherFileSections(Put(bs, originFile, m), originFile) == OtherFileSections(bs, originFile)
    decreases |bs|
  {
    if bs != [] {
      var r := Put(bs, originFile, m);
      if originFile < bs[0].file {
        assert r[1..] == bs;
      } else if originFile == bs[0].file {
        assert r[1..] == bs[1..];
      } else {
        OtherBucketsIgnorePut(bs[1..], originFile, m);
        assert r[1..] == Put(bs[1..], originFile, m);
      }
    }
  }

  /** The loop of `addSourceSections`: a section for every entry whose file
      is not the origin's, pushed in key order. */
  method AddOtherFileSections(sections: seq<Section>, bs: seq<Bucket>, originFile: FileId)
    returns (out: seq<Section>)
    ensures out == sections + OtherFileSections(bs, originFile)
  {
    out := sections;
    var rest := bs;
    while rest != []
      invariant out + OtherFileSections(rest, originFile) == sections + OtherFileSections(bs, originFile)
      decreases |rest|
    {
      var b := rest[0];
      ghost var before := out;
      ghost var head := OtherFileSections(rest[..1], originFile);
      ghost var later := OtherFileSections(rest[1..], originFile);
      OtherFileSectionsSplit(rest, originFile);
      if b.file != originFile {
        out := PushFileSection(out, b.file, b.members);
      }
      assert out == before + head;
      SectionsAssoc(before, head, later);
      rest := rest[1..];
    }
  }

  /** The walk's first entry contributes its section ahead of the rest. */
  lemma OtherFileSectionsSplit(bs: seq<Bucket>, originFile: FileId)
    requires bs != []
    ensures OtherFileSections(bs, originFile)
            == OtherFileSections(bs[..1], originFile) + OtherFileSections(bs[1..], originFile)
    ensures OtherFileSections(bs[..1], originFile)
            == if bs[0].file != originFile then [FileSectionParts(bs[0].file, bs[0].members, -1, true)] else []
  {
    assert bs[..1][1..] == [];
  }

  lemma SectionsAssoc(a: seq<Section>, b: seq<Section>, c: seq<Section>)
    ensures (a + b) + c == a + (b + c)
  {
  }
}
