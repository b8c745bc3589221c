/**
 * The grid composer of stack_visualizer.py (CodeVisualization.visualize_instructions):
 * it runs the program line by line on one stack, lays out a frame after every
 * non-blank line and tiles the frames into rows of `nr_per_row` columns.
 */
module GridComposer {
  import opened Wrappers
  import opened Text
  import opened StackModel
  import opened Geometry
  import opened FrameLayout

  const SVG_TEMPLATE := "svg_template.svg"

  /** The exceptions that end a run. */
  datatype VisError =
    | UnpackError(line: nat)  // the stripped line does not split into exactly two words
    | Underflow(line: nat)    // a pop on an empty stack
    | ZeroDivision            // nr_per_row is 0
    | NoFrames                // no non-blank line, so no frame width was ever set

  /** A line split into its command word and its operand. */
  datatype Instruction = Instruction(cmd: string, value: string)

  /** What a command word asks of the stack. */
  datatype Command = PushCmd(entry: string) | PopCmd | Invalid

  /** `cmd, value = [x.strip() for x in line.split(' ', 2)]`, None where the unpacking raises. */
  function Decode(line: string): Option<Instruction> {
    var parts := SplitMax(line, ' ', 2);
    if |parts| != 2 then None else Some(Instruction(Strip(parts[0]), Strip(parts[1])))
  }

  /** Decoding succeeds exactly for a line with one space, and splits the line at it. */
  lemma DecodeSpec(line: string)
    ensures Decode(line).Some? <==> Count(line, ' ') == 1
    ensures Decode(line).Some? ==>
              var i := Find(line, ' ');
              0 <= i && Decode(line).value == Instruction(Strip(line[..i]), Strip(line[i + 1..]))
  {
    SplitTwoIffOneSpace(line);
  }

  /** A command word starting with "push" pushes, one starting with "pop" pops, anything else is invalid. */
  function Classify(ins: Instruction): Command {
    if StartsWith(ins.cmd, "push") then PushCmd(ins.value)
    else if StartsWith(ins.cmd, "pop") then PopCmd
    else Invalid
  }

  /** One laid-out frame: the raw line index it came from, its size and its markup. */
  datatype Frame = Frame(nr: nat, w: int, h: int, svg: Markup)

  /** The frame a fresh StackVisualization builds for line `nr` from the stack `s`, offset labels on. */
  function FrameOf(nr: nat, s: Snapshot): (f: Frame)
    ensures f.nr == nr && f.w == 200 && f.h == 60 + 20 * |s.content|
  {
    var v := FrameVis(s, true);
    FrameSize(s, true);
    Frame(nr, v.svg.value.w, v.svg.value.h, Render(FRAME_TEMPLATE, FrameData(v)))
  }

  /** The interpreter's state after some lines: the stack, the frames so far, the warned lines, the error. */
  datatype Run = Run(stack: Snapshot, frames: seq<Frame>, warnings: seq<nat>, error: Option<VisError>)

  /** What the command does to the stack, and whether it raised (a pop on an empty stack). */
  function Execute(s: Snapshot, cmd: Command): (Snapshot, bool) {
    match cmd
    case PushCmd(e) => (Pushed(s, e), false)
    case PopCmd => (Popped(s).0, Popped(s).1.Err?)
    case Invalid => (s, false)
  }

  /** Executing a command never touches ebp, and keeps the pointer invariant unless it raised. */
  lemma ExecuteSpec(s: Snapshot, cmd: Command)
    ensures Execute(s, cmd).0.ebp == s.ebp
    ensures Execute(s, cmd).1 <==> cmd.PopCmd? && s.content == []
    ensures Valid(s) && !Execute(s, cmd).1 ==> Valid(Execute(s, cmd).0)
  {
  }

  /** The rest of an iteration once the line has been decoded into `cmd`. */
  function Apply(run: Run, nr: nat, cmd: Command, perRow: int): Run {
    var (s1, failed) := Execute(run.stack, cmd);
    if failed then run.(stack := s1, error := Some(Underflow(nr))) else
      var s2 := s1.(nr := nr + 1);
      var warnings := run.warnings + (if cmd.Invalid? then [nr] else []);
      if perRow == 0 then Run(s2, run.frames, warnings, Some(ZeroDivision))
      else Run(s2, run.frames + [FrameOf(nr, s2)], warnings, None)
  }

  /** One iteration of the loop over the lines, for the line with raw index `nr`. */
  function Step(run: Run, nr: nat, line: string, perRow: int): Run {
    if run.error.Some? || |Strip(line)| == 0 then run else
      match Decode(Strip(line))
      case None => run.(error := Some(UnpackError(nr)))
      case Some(ins) => Apply(run, nr, Classify(ins), perRow)
  }

  /** The cases of `Apply`: a failed pop stops the run, otherwise the frame number is set and a frame laid out. */
  lemma ApplySpec(run: Run, nr: nat, cmd: Command, perRow: int)
    ensures var next := Apply(run, nr, cmd, perRow);
            var (s1, failed) := Execute(run.stack, cmd);
            if failed then next == run.(stack := s1, error := Some(Underflow(nr)))
            else next.stack == s1.(nr := nr + 1) &&
                 next.warnings == run.warnings + (if cmd.Invalid? then [nr] else []) &&
                 (perRow == 0 ==> next.frames == run.frames && next.error == Some(ZeroDivision)) &&
                 (perRow != 0 ==> next.frames == run.frames + [FrameOf(nr, next.stack)] && next.error.None?)
  {
  }

  /** A non-blank line that decodes is handed to `Apply`. */
  lemma StepDecoded(run: Run, nr: nat, line: string, perRow: int)
    requires run.error.None? && |Strip(line)| != 0 && Decode(Strip(line)).Some?
    ensures Step(run, nr, line, perRow) == Apply(run, nr, Classify(Decode(Strip(line)).value), perRow)
  {
  }

  /** A line that is blank once stripped is skipped. */
  lemma StepBlank(run: Run, nr: nat, line: string, perRow: int)
    requires |Strip(line)| == 0
    ensures Step(run, nr, line, perRow) == run
  {
  }

  /** A non-blank line that does not split into two words raises. */
  lemma StepUnpack(run: Run, nr: nat, line: string, perRow: int)
    requires run.error.None? && |Strip(line)| != 0 && |SplitMax(Strip(line), ' ', 2)| != 2
    ensures Step(run, nr, line, perRow) == run.(error := Some(UnpackError(nr)))
  {
  }

  /** One iteration keeps ebp; without an error it adds a frame exactly for a non-blank line. */
  lemma StepSpec(run: Run, nr: nat, line: string, perRow: int)
    ensures Step(run, nr, line, perRow).stack.ebp == run.stack.ebp
    ensures run.error.Some? ==> Step(run, nr, line, perRow) == run
    ensures var next := Step(run, nr, line, perRow);
            run.error.None? && next.error.None? ==>
              if |Strip(line)| == 0 then next == run
              else perRow != 0 && next.frames == run.frames + [FrameOf(nr, next.stack)] &&
                   (Valid(run.stack) ==> Valid(next.stack))
  {
    if run.error.None? && |Strip(line)| != 0 && Decode(Strip(line)).Some? {
      var cmd := Classify(Decode(Strip(line)).value);
      StepDecoded(run, nr, line, perRow);
      ApplySpec(run, nr, cmd, perRow);
      ExecuteSpec(run.stack, cmd);
    }
  }

  /** The loop run over all of `lines`, starting from the stack `s0`. */
  function RunLines(s0: Snapshot, lines: seq<string>, perRow: int): Run
    decreases |lines|
  {
    if lines == [] then Run(s0, [], [], None)
    else Step(RunLines(s0, lines[..|lines| - 1], perRow), |lines| - 1, lines[|lines| - 1], perRow)
  }

  /** The raw indices of the lines that are not blank once stripped. */
  function NonBlank(lines: seq<string>): seq<nat>
    decreases |lines|
  {
    if lines == [] then []
    else NonBlank(lines[..|lines| - 1]) + (if |Strip(lines[|lines| - 1])| == 0 then [] else [|lines| - 1])
  }

  /**
   * What a run guarantees: ebp is never touched; while no error occurs there is
   * exactly one frame per non-blank line, numbered by its raw line index (blank
   * lines included in the count), every frame is 200 wide, a frame exists only
   * when nr_per_row is nonzero, and the pointer invariant of the stack is kept.
   */
  predicate RunInvariant(s0: Snapshot, lines: seq<string>, perRow: int, run: Run) {
    run.stack.ebp == s0.ebp &&
    (run.error.None? ==>
       FramesNumbered(run.frames, NonBlank(lines)) &&
       (run.frames != [] ==> perRow != 0) &&
       (Valid(s0) ==> Valid(run.stack)))
  }

  /** Frame j comes from line nrs[j] and is 200 wide. */
  predicate FramesNumbered(frames: seq<Frame>, nrs: seq<nat>) {
    |frames| == |nrs| && forall j :: 0 <= j < |frames| ==> frames[j].nr == nrs[j] && frames[j].w == 200
  }

  /** One more line keeps the run invariant, for any successor state with the properties `StepSpec` gives. */
  lemma RunInvariantStep(s0: Snapshot, lines: seq<string>, perRow: int, prev: Run, next: Run)
    requires lines != [] && RunInvariant(s0, lines[..|lines| - 1], perRow, prev)
    requires next.stack.ebp == prev.stack.ebp
    requires prev.error.Some? ==> next == prev
    requires prev.error.None? && next.error.None? ==>
               var n := |lines| - 1;
               if |Strip(lines[n])| == 0 then next == prev
               else perRow != 0 && next.frames == prev.frames + [FrameOf(n, next.stack)] &&
                    (Valid(prev.stack) ==> Valid(next.stack))
    ensures RunInvariant(s0, lines, perRow, next)
  {
    var n := |lines| - 1;
    var nrs := NonBlank(lines[..n]);
    assert lines[..n] == lines[..|lines| - 1];
    if prev.error.None? && next.error.None? {
      if |Strip(lines[n])| == 0 {
        assert NonBlank(lines) == nrs;
      } else {
        assert NonBlank(lines) == nrs + [n];
        FramesNumberedSnoc(prev.frames, nrs, FrameOf(n, next.stack), n);
      }
    }
  }

  lemma FramesNumberedSnoc(frames: seq<Frame>, nrs: seq<nat>, f: Frame, n: nat)
    requires FramesNumbered(frames, nrs) && f.nr == n && f.w == 200
    ensures FramesNumbered(frames + [f], nrs + [n])
  {
  }

  lemma {:induction false} RunLinesSpec(s0: Snapshot, lines: seq<string>, perRow: int)
    ensures RunInvariant(s0, lines, perRow, RunLines(s0, lines, perRow))
    decreases |lines|
  {
    if lines != [] {
      var n := |lines| - 1;
      var prev := RunLines(s0, lines[..n], perRow);
      RunLinesSpec(s0, lines[..n], perRow);
      StepSpec(prev, n, lines[n], perRow);
      RunInvariantStep(s0, lines, perRow, prev, Step(prev, n, lines[n], perRow));
    }
  }

  /** The first nr + 1 lines are the first nr lines and one more step. */
  lemma RunLinesSnoc(s0: Snapshot, lines: seq<string>, perRow: int, nr: nat)
    requires nr < |lines|
    ensures RunLines(s0, lines[..nr + 1], perRow) == Step(RunLines(s0, lines[..nr], perRow), nr, lines[nr], perRow)
  {
    assert lines[..nr + 1][..nr] == lines[..nr];
  }

  /** Once a line has raised, the lines after it change nothing. */
  lemma {:induction false} RunLinesStops(s0: Snapshot, lines: seq<string>, perRow: int, k: nat)
    requires k <= |lines| && RunLines(s0, lines[..k], perRow).error.Some?
    ensures RunLines(s0, lines, perRow) == RunLines(s0, lines[..k], perRow)
    decreases |lines| - k
  {
    if k < |lines| {
      assert lines[..k + 1][..k] == lines[..k];
      RunLinesStops(s0, lines, perRow, k + 1);
    } else {
      assert lines[..k] == lines;
    }
  }

  /** A line whose command is neither push nor pop changes nothing but the frame number, and still yields a frame. */
  lemma InvalidLineKeepsStack(run: Run, nr: nat, line: string, perRow: int)
    requires run.error.None? && perRow != 0 && |Strip(line)| != 0
    requires Decode(Strip(line)).Some? && Classify(Decode(Strip(line)).value).Invalid?
    ensures var next := Step(run, nr, line, perRow);
            next.stack == run.stack.(nr := nr + 1) && next.error.None? &&
            next.frames == run.frames + [FrameOf(nr, next.stack)] &&
            next.warnings == run.warnings + [nr]
  {
    StepDecoded(run, nr, line, perRow);
    ApplySpec(run, nr, Invalid, perRow);
  }

  /** The running layout state: `y_offset`, `max_height` and the placed frames. */
  datatype Placement = Placement(yOffset: int, maxHeight: int, figs: seq<Fig>)

  /**
   * Places one frame: column `nr % nr_per_row`; a frame in column 0 first moves
   * the row down by the tallest frame of the row before it.
   */
  function Place(p: Placement, f: Frame, perRow: int): Placement
    requires perRow != 0
  {
    var col := PyMod(f.nr, perRow);
    var y := if col == 0 then p.yOffset + p.maxHeight else p.yOffset;
    var m := if col == 0 then 0 else p.maxHeight;
    Placement(y, if f.h > m then f.h else m, p.figs + [Fig(col * f.w, y, f.svg)])
  }

  /** The layout state after placing all of `frames`, in order. */
  function PlaceAll(frames: seq<Frame>, perRow: int): Placement
    requires perRow != 0
    decreases |frames|
  {
    if frames == [] then Placement(0, 0, [])
    else Place(PlaceAll(frames[..|frames| - 1], perRow), frames[|frames| - 1], perRow)
  }

  /** The canvas: the placed frames, `width * nr_per_row` wide, as high as all rows together. */
  function Canvas(frames: seq<Frame>, perRow: int, template: string): Markup
    requires perRow != 0 && frames != []
  {
    var p := PlaceAll(frames, perRow);
    Render(template, CanvasData(p.figs, frames[|frames| - 1].w * perRow, p.yOffset + p.maxHeight))
  }

  /**
   * `visualize_instructions(code, stack, nr_per_row)` on a stack in state `s0`:
   * the final stack state, the canvas or the error, and the lines warned about.
   */
  function Visualize(s0: Snapshot, code: string, perRow: int, template: string): (Snapshot, Result<Markup, VisError>, seq<nat>) {
    var run := RunLines(s0, Split(code, '\n'), perRow);
    RunLinesSpec(s0, Split(code, '\n'), perRow);
    if run.error.Some? then (run.stack, Err(run.error.value), run.warnings)
    else if run.frames == [] then (run.stack, Err(NoFrames), run.warnings)
    else (run.stack, Ok(Canvas(run.frames, perRow, template)), run.warnings)
  }

  /** Once the first k lines have raised, that error is the outcome. */
  lemma VisualizeStops(s0: Snapshot, code: string, perRow: int, template: string, k: nat)
    requires k <= |Split(code, '\n')| && RunLines(s0, Split(code, '\n')[..k], perRow).error.Some?
    ensures var run := RunLines(s0, Split(code, '\n')[..k], perRow);
            Visualize(s0, code, perRow, template) == (run.stack, Err(run.error.value), run.warnings)
  {
    RunLinesStops(s0, Split(code, '\n'), perRow, k);
  }

  /** Placing one more frame. */
  lemma PlaceAllSnoc(frames: seq<Frame>, f: Frame, perRow: int)
    requires perRow != 0
    ensures PlaceAll(frames + [f], perRow) == Place(PlaceAll(frames, perRow), f, perRow)
  {
    assert (frames + [f])[..|frames|] == frames;
  }

  /** The canvas in terms of the layout state after the last frame. */
  lemma CanvasFrom(frames: seq<Frame>, perRow: int, template: string, p: Placement, w: int)
    requires perRow != 0 && frames != [] && PlaceAll(frames, perRow) == p
    requires w == frames[|frames| - 1].w
    ensures Canvas(frames, perRow, template) == Render(template, CanvasData(p.figs, w * perRow, p.yOffset + p.maxHeight))
  {
  }

  /** When every line has run without raising, the outcome is the canvas, or NoFrames when no frame was laid out. */
  lemma VisualizeFinished(s0: Snapshot, code: string, perRow: int, template: string)
    requires RunLines(s0, Split(code, '\n'), perRow).error.None?
    ensures var run := RunLines(s0, Split(code, '\n'), perRow);
            (run.frames != [] ==> perRow != 0) &&
            Visualize(s0, code, perRow, template) ==
              (run.stack, if run.frames == [] then Err(NoFrames) else Ok(Canvas(run.frames, perRow, template)), run.warnings)
  {
    RunLinesSpec(s0, Split(code, '\n'), perRow);
  }

  /**
   * Where the loop over `lines` stands once it has stopped after `nr` lines:
   * the run so far is `Run(m, frames, warnings, err)`, it stopped because a line
   * raised or the lines ran out, and the layout variables `p` and `width` hold
   * the placement of the frames and the width of the last one.
   */
  predicate LoopDone(s0: Snapshot, lines: seq<string>, perRow: int, nr: nat,
                     m: Snapshot, frames: seq<Frame>, warnings: seq<nat>, err: Option<VisError>,
                     p: Placement, width: Option<int>)
  {
    nr <= |lines| && RunLines(s0, lines[..nr], perRow) == Run(m, frames, warnings, err) &&
    (err.None? ==> nr == |lines|) &&
    (err.None? && perRow != 0 ==> PlaceAll(frames, perRow) == p) &&
    (err.None? ==> width == if frames == [] then None else Some(frames[|frames| - 1].w))
  }

  /**
   * The outcome of the loop, once it has stopped after `nr` lines because a line
   * raised or the lines ran out, in terms of the loop's own variables: the
   * result `r` the method returns is the one `Visualize` describes.
   */
  lemma VisualizeOutcome(s0: Snapshot, code: string, perRow: int, template: string, nr: nat,
                         m: Snapshot, frames: seq<Frame>, warnings: seq<nat>, err: Option<VisError>,
                         p: Placement, width: Option<int>, canvasW: int, r: Result<Markup, VisError>)
    requires LoopDone(s0, Split(code, '\n'), perRow, nr, m, frames, warnings, err, p, width)
    requires width.Some? ==> canvasW == width.value * perRow
    requires r == if err.Some? then Err(err.value)
                  else if width.None? then Err(NoFrames)
                  else Ok(Render(template, CanvasData(p.figs, canvasW, p.yOffset + p.maxHeight)))
    ensures (m, r, warnings) == Visualize(s0, code, perRow, template)
  {
    var lines := Split(code, '\n');
    var run := Run(m, frames, warnings, err);
    if err.Some? {
      VisualizeStops(s0, code, perRow, template, nr);
    } else {
      assert lines[..nr] == lines;
      assert RunLines(s0, lines, perRow) == run;
      VisualizeFinished(s0, code, perRow, template);
      if width.Some? {
        assert frames != [] && perRow != 0;
        CanvasFrom(frames, perRow, template, p, width.value);
      }
    }
  }

  // ---------------------------------------------------------------------------
  // Rows: an independent description of where frames land vertically.
  // A row begins at every frame whose raw index is a multiple of nr_per_row;
  // frames before the first such frame form row 0.

  predicate StartsRow(f: Frame, perRow: int)
    requires perRow != 0
  {
    PyMod(f.nr, perRow) == 0
  }

  /** How many of `frames` begin a row; the row of frame j is CountStarts(frames[..j + 1]). */
  function CountStarts(frames: seq<Frame>, perRow: int): nat
    requires perRow != 0
    decreases |frames|
  {
    if frames == [] then 0
    else CountStarts(frames[..|frames| - 1], perRow) + (if StartsRow(frames[|frames| - 1], perRow) then 1 else 0)
  }

  function Max(a: int, b: int): int {
    if b > a then b else a
  }

  /** The height of the tallest frame in row r, 0 for a row without frames. */
  function RowMax(frames: seq<Frame>, perRow: int, r: nat): (m: int)
    requires perRow != 0
    ensures m >= 0
    decreases |frames|
  {
    if frames == [] then 0 else
      var n := |frames| - 1;
      Max(RowMax(frames[..n], perRow, r), if CountStarts(frames, perRow) == r then frames[n].h else 0)
  }

  /** The total height of rows 0 .. r-1. */
  function HeightAbove(frames: seq<Frame>, perRow: int, r: nat): int
    requires perRow != 0
  {
    if r == 0 then 0 else HeightAbove(frames, perRow, r - 1) + RowMax(frames, perRow, r - 1)
  }

  lemma {:induction false} RowMaxBeyond(frames: seq<Frame>, perRow: int, r: nat)
    requires perRow != 0 && r > CountStarts(frames, perRow)
    ensures RowMax(frames, perRow, r) == 0
    decreases |frames|
  {
    if frames != [] {
      RowMaxBeyond(frames[..|frames| - 1], perRow, r);
    }
  }

  /** Appending a frame leaves every row that is already complete as it was. */
  lemma HeightAboveExtend(frames: seq<Frame>, f: Frame, perRow: int, r: nat)
    requires perRow != 0 && r <= CountStarts(frames, perRow)
    ensures HeightAbove(frames + [f], perRow, r) == HeightAbove(frames, perRow, r)
  {
    assert (frames + [f])[..|frames|] == frames;
  }

  lemma {:induction false} HeightAbovePrefix(frames: seq<Frame>, perRow: int, k: nat, r: nat)
    requires perRow != 0 && k <= |frames| && r <= CountStarts(frames[..k], perRow)
    ensures HeightAbove(frames, perRow, r) == HeightAbove(frames[..k], perRow, r)
    decreases |frames| - k
  {
    if k < |frames| {
      assert frames[..k + 1] == frames[..k] + [frames[k]];
      HeightAboveExtend(frames[..k], frames[k], perRow, r);
      HeightAbovePrefix(frames, perRow, k + 1, r);
    } else {
      assert frames[..k] == frames;
    }
  }

  /** `y_offset` is the height of the completed rows and `max_height` the tallest frame of the current one. */
  lemma {:induction false} PlaceAllRows(frames: seq<Frame>, perRow: int)
    requires perRow != 0
    ensures var c := CountStarts(frames, perRow);
            PlaceAll(frames, perRow).yOffset == HeightAbove(frames, perRow, c) &&
            PlaceAll(frames, perRow).maxHeight == RowMax(frames, perRow, c)
    decreases |frames|
  {
    if frames != [] {
      var n := |frames| - 1;
      var init, f := frames[..n], frames[n];
      assert frames == init + [f];
      PlaceAllRows(init, perRow);
      var c0 := CountStarts(init, perRow);
      HeightAboveExtend(init, f, perRow, c0);
      if StartsRow(f, perRow) {
        RowMaxBeyond(init, perRow, c0 + 1);
      }
    }
  }

  /** Placing more frames only appends: the first k placed frames are those of the first k frames. */
  lemma {:induction false} PlaceAllPrefix(frames: seq<Frame>, perRow: int, k: nat)
    requires perRow != 0 && k <= |frames|
    ensures |PlaceAll(frames, perRow).figs| == |frames|
    ensures PlaceAll(frames, perRow).figs[..k] == PlaceAll(frames[..k], perRow).figs
    decreases |frames|
  {
    if frames == [] {
    } else if k == |frames| {
      assert frames[..k] == frames;
      PlaceAllPrefix(frames[..|frames| - 1], perRow, k - 1);
    } else {
      var n := |frames| - 1;
      assert frames[..n][..k] == frames[..k];
      PlaceAllPrefix(frames[..n], perRow, k);
    }
  }

  /** Where frame j is placed: its column, the rows above it and its markup. */
  lemma PlaceAllFig(frames: seq<Frame>, perRow: int, j: nat)
    requires perRow != 0 && j < |frames|
    ensures |PlaceAll(frames, perRow).figs| == |frames|
    ensures var fig := PlaceAll(frames, perRow).figs[j];
            fig.x == PyMod(frames[j].nr, perRow) * frames[j].w &&
            fig.y == HeightAbove(frames, perRow, CountStarts(frames[..j + 1], perRow)) &&
            fig.svg == frames[j].svg
  {
    var pre := frames[..j + 1];
    PlaceAllPrefix(frames, perRow, j + 1);
    assert PlaceAll(frames, perRow).figs[j] == PlaceAll(pre, perRow).figs[j];
    assert pre[..j] == frames[..j] && pre[j] == frames[j];
    PlaceAllPrefix(frames[..j], perRow, 0);
    PlaceAllRows(pre, perRow);
    HeightAbovePrefix(frames, perRow, j + 1, CountStarts(pre, perRow));
  }

  /**
   * The placed frames: one per frame, frame j in column `nr % nr_per_row`, at the
   * height of all rows completed before its own row.
   */
  lemma PlaceAllFigs(frames: seq<Frame>, perRow: int)
    requires perRow != 0
    ensures var figs := PlaceAll(frames, perRow).figs;
            |figs| == |frames| &&
            forall j :: 0 <= j < |frames| ==>
              figs[j].x == PyMod(frames[j].nr, perRow) * frames[j].w &&
              figs[j].y == HeightAbove(frames, perRow, CountStarts(frames[..j + 1], perRow)) &&
              figs[j].svg == frames[j].svg
  {
    PlaceAllPrefix(frames, perRow, 0);
    forall j | 0 <= j < |frames|
      ensures var fig := PlaceAll(frames, perRow).figs[j];
              fig.x == PyMod(frames[j].nr, perRow) * frames[j].w &&
              fig.y == HeightAbove(frames, perRow, CountStarts(frames[..j + 1], perRow)) &&
              fig.svg == frames[j].svg
    {
      PlaceAllFig(frames, perRow, j);
    }
  }

  /**
   * Two frames in the same column with no row start from the first up to the
   * second are drawn at the same place, one over the other.
   */
  lemma SamePlace(frames: seq<Frame>, perRow: int, a: nat, b: nat)
    requires perRow != 0 && a < b < |frames| && frames[a].w == frames[b].w
    requires PyMod(frames[a].nr, perRow) == PyMod(frames[b].nr, perRow)
    requires CountStarts(frames[..a + 1], perRow) == CountStarts(frames[..b + 1], perRow)
    ensures var figs := PlaceAll(frames, perRow).figs;
            |figs| == |frames| && figs[a].x == figs[b].x && figs[a].y == figs[b].y
  {
    PlaceAllFig(frames, perRow, a);
    PlaceAllFig(frames, perRow, b);
  }

  /**
   * Blank lines count toward the column but cannot start a row: with two frames
   * per row, frames for lines 0, 1 and 3 (a program whose third line is blank:
   * RunLinesSpec numbers frames by raw line index) put the last two on the same spot.
   */
  lemma BlankLineOverlap(f0: Frame, f1: Frame, f3: Frame)
    requires f0.nr == 0 && f1.nr == 1 && f3.nr == 3 && f1.w == f3.w
    ensures var figs := PlaceAll([f0, f1, f3], 2).figs;
            |figs| == 3 && figs[1].x == figs[2].x && figs[1].y == figs[2].y
  {
    var frames := [f0, f1, f3];
    assert frames[..2] == [f0, f1] && frames[..3] == frames;
    assert [f0, f1][..1] == [f0] && [f0][..0] == [];
    assert PyMod(1, 2) == 1 && PyMod(3, 2) == 1;
    assert CountStarts([f0, f1], 2) == CountStarts([f0], 2);
    assert CountStarts(frames, 2) == CountStarts([f0, f1], 2);
    SamePlace(frames, 2, 1, 2);
  }

  /** The canvas is as high as all rows together, the last row included. */
  lemma CanvasHeight(frames: seq<Frame>, perRow: int)
    requires perRow != 0
    ensures var p := PlaceAll(frames, perRow);
            p.yOffset + p.maxHeight == HeightAbove(frames, perRow, CountStarts(frames, perRow) + 1)
  {
    PlaceAllRows(frames, perRow);
  }


  /**
   * The outcome is a canvas exactly when no line raised and some line is not
   * blank. The canvas then holds one placed frame per non-blank line, is
   * 200 * nr_per_row wide and is as high as all rows together.
   */
  lemma VisualizeResult(s0: Snapshot, code: string, perRow: int, template: string)
    ensures Visualize(s0, code, perRow, template).1.Ok? <==>
              RunLines(s0, Split(code, '\n'), perRow).error.None? && NonBlank(Split(code, '\n')) != []
    ensures Visualize(s0, code, perRow, template).1.Ok? ==>
              perRow != 0 &&
              |PlaceAll(RunLines(s0, Split(code, '\n'), perRow).frames, perRow).figs| == |NonBlank(Split(code, '\n'))| &&
              Visualize(s0, code, perRow, template).1.value ==
                CanvasMarkup(RunLines(s0, Split(code, '\n'), perRow).frames, perRow, template)
  {
    var run := RunLines(s0, Split(code, '\n'), perRow);
    RunLinesSpec(s0, Split(code, '\n'), perRow);
    CanvasOutcome(run, NonBlank(Split(code, '\n')), perRow, template, Visualize(s0, code, perRow, template).1);
  }

  /** `VisualizeResult` for any run that keeps the run invariant, with `nrs` the raw indices of its non-blank lines. */
  lemma CanvasOutcome(run: Run, nrs: seq<nat>, perRow: int, template: string, out: Result<Markup, VisError>)
    requires run.error.None? ==> FramesNumbered(run.frames, nrs) && (run.frames != [] ==> perRow != 0)
    requires out == if run.error.Some? then Err(run.error.value)
                    else if run.frames == [] then Err(NoFrames)
                    else Ok(Canvas(run.frames, perRow, template))
    ensures out.Ok? <==> run.error.None? && nrs != []
    ensures out.Ok? ==>
              perRow != 0 && |PlaceAll(run.frames, perRow).figs| == |nrs| &&
              out.value == CanvasMarkup(run.frames, perRow, template)
  {
    if out.Ok? {
      CanvasOf(run.frames, perRow, template);
    }
  }

  /**
   * The canvas described by rows: the placed frames, nr_per_row frames of width
   * 200 side by side, and the total height of all rows, the last one included.
   */
  function CanvasMarkup(frames: seq<Frame>, perRow: int, template: string): Markup
    requires perRow != 0
  {
    Render(template, CanvasData(PlaceAll(frames, perRow).figs, 200 * perRow,
                                HeightAbove(frames, perRow, CountStarts(frames, perRow) + 1)))
  }

  /** The canvas of frames that are all 200 wide: one figure per frame, nr_per_row frames wide, all rows high. */
  lemma CanvasOf(frames: seq<Frame>, perRow: int, template: string)
    requires perRow != 0 && frames != [] && frames[|frames| - 1].w == 200
    ensures |PlaceAll(frames, perRow).figs| == |frames|
    ensures Canvas(frames, perRow, template) == CanvasMarkup(frames, perRow, template)
  {
    CanvasHeight(frames, perRow);
    PlaceAllPrefix(frames, perRow, 0);
  }

  /**
   * The layout step of one iteration: a frame in column 0 starts a new row below
   * the tallest frame of the row before, and the frame goes at x = column * width.
   */
  method PlaceFrame(yOffset: int, maxHeight: int, figs: seq<Fig>, f: Frame, perRow: int)
    returns (y: int, m: int, placed: seq<Fig>)
    requires perRow != 0
    ensures Placement(y, m, placed) == Place(Placement(yOffset, maxHeight, figs), f, perRow)
  {
    y, m := yOffset, maxHeight;
    var col := PyMod(f.nr, perRow);
    if col == 0 {
      y := y + m;
      m := 0;
    }
    if f.h > m {
      m := f.h;
    }
    placed := figs + [Fig(col * f.w, y, f.svg)];
  }

  /**
   * The part of one iteration after decoding: runs the command on the stack,
   * records a warning for an unknown command, sets the frame number, lays out
   * the frame and takes `nr % nr_per_row`, which raises when nr_per_row is 0.
   */
  method RunCommand(stack: StackData, nr: nat, cmd: string, value: string, perRow: int,
                    warnings: seq<nat>, ghost frames: seq<Frame>)
    returns (err: Option<VisError>, frame: Option<Frame>, warned: seq<nat>)
    modifies stack
    ensures err.None? ==> perRow != 0 && frame.Some? && frame.value.nr == nr
    ensures Apply(Run(old(stack.Model()), frames, warnings, None), nr, Classify(Instruction(cmd, value)), perRow) ==
            Run(stack.Model(), if err.None? then frames + [frame.value] else frames, warned, err)
    ensures stack.lastAction == old(stack.lastAction)
  {
    ghost var prev := Run(stack.Model(), frames, warnings, None);
    ghost var c := Classify(Instruction(cmd, value));
    ApplySpec(prev, nr, c, perRow);
    frame, warned := None, warnings;
    if StartsWith(cmd, "push") {
      stack.Push(value);
    } else if StartsWith(cmd, "pop") {
      var popped := stack.Pop();
      if popped.Err? {
        return Some(Underflow(nr)), frame, warned;
      }
    } else {
      warned := warned + [nr];
    }
    var vis := new StackVisualization();
    stack.nr := nr + 1;
    vis.BuildStackVis(stack, true);
    assert vis.Data() == FrameVis(stack.Model(), true);
    FrameSize(stack.Model(), true);
    frame := Some(Frame(nr, vis.box.value.w, vis.box.value.h, vis.svg.value));
    err := if perRow == 0 then Some(ZeroDivision) else None;
  }

  /**
   * One iteration of the loop for the line with raw index nr, up to the point
   * where the frame is placed: a blank line is skipped, a line that does not
   * split into two words raises, anything else goes to `RunCommand`.
   */
  method VisitLine(stack: StackData, nr: nat, raw: string, perRow: int,
                   warnings: seq<nat>, ghost frames: seq<Frame>)
    returns (err: Option<VisError>, frame: Option<Frame>, warned: seq<nat>)
    modifies stack
    ensures Step(Run(old(stack.Model()), frames, warnings, None), nr, raw, perRow) ==
            Run(stack.Model(), if err.None? && frame.Some? then frames + [frame.value] else frames, warned, err)
    ensures err.None? && frame.Some? ==> perRow != 0 && frame.value.nr == nr
    ensures stack.lastAction == old(stack.lastAction)
  {
    ghost var prev := Run(stack.Model(), frames, warnings, None);
    var line := Strip(raw);
    if |line| == 0 {
      StepBlank(prev, nr, raw, perRow);
      return None, None, warnings;
    }
    var parts := SplitMax(line, ' ', 2);
    if |parts| != 2 {
      StepUnpack(prev, nr, raw, perRow);
      return Some(UnpackError(nr)), None, warnings;
    }
    var cmd, value := Strip(parts[0]), Strip(parts[1]);
    assert Decode(line) == Some(Instruction(cmd, value));
    StepDecoded(prev, nr, raw, perRow);
    err, frame, warned := RunCommand(stack, nr, cmd, value, perRow, warnings, frames);
  }

  /**
   * The loop of `visualize_instructions` over the lines of the program: it stops
   * after the first line that raises, or when the lines run out, and returns the
   * layout variables it has built up.
   */
  method RunProgram(lines: seq<string>, stack: StackData, perRow: int)
    returns (err: Option<VisError>, nr: nat, warnings: seq<nat>,
             yOffset: int, maxHeight: int, figs: seq<Fig>, width: Option<int>, ghost frames: seq<Frame>)
    modifies stack
    ensures LoopDone(old(stack.Model()), lines, perRow, nr, stack.Model(), frames, warnings, err,
                     Placement(yOffset, maxHeight, figs), width)
    ensures stack.lastAction == old(stack.lastAction)
  {
    ghost var s0 := stack.Model();
    yOffset, maxHeight, figs, width := 0, 0, [], None;
    frames, warnings, err := [], [], None;
    nr := 0;
    while nr < |lines| && err.None?
      invariant 0 <= nr <= |lines|
      invariant RunLines(s0, lines[..nr], perRow) == Run(stack.Model(), frames, warnings, err)
      invariant err.None? && perRow != 0 ==> PlaceAll(frames, perRow) == Placement(yOffset, maxHeight, figs)
      invariant err.None? && perRow == 0 ==> frames == []
      invariant err.None? ==> width == if frames == [] then None else Some(frames[|frames| - 1].w)
      invariant stack.lastAction == old(stack.lastAction)
    {
      RunLinesSnoc(s0, lines, perRow, nr);
      var frame;
      err, frame, warnings := VisitLine(stack, nr, lines[nr], perRow, warnings, frames);
      if err.None? && frame.Some? {
        var f := frame.value;
        width := Some(f.w);
        PlaceAllSnoc(frames, f, perRow);
        yOffset, maxHeight, figs := PlaceFrame(yOffset, maxHeight, figs, f, perRow);
        frames := frames + [f];
      }
      nr := nr + 1;
    }
  }

  /** The composer object; `visualize_instructions` stores the rendered canvas in `svg`. */
  class CodeVisualization {
    var svgTemplate: string
    var svg: Option<Markup>

    constructor ()
      ensures svgTemplate == SVG_TEMPLATE && svg == None
    {
      svgTemplate := SVG_TEMPLATE;
      svg := None;
    }

    method VisualizeInstructions(code: string, stack: StackData, nrPerRow: int)
      returns (r: Result<Markup, VisError>, warnings: seq<nat>)
      modifies this, stack
      ensures (stack.Model(), r, warnings) == Visualize(old(stack.Model()), code, nrPerRow, old(svgTemplate))
      ensures svg == (if r.Ok? then Some(r.value) else old(svg))
      ensures svgTemplate == old(svgTemplate) && stack.lastAction == old(stack.lastAction)
    {
      ghost var s0 := stack.Model();
      var lines := Split(code, '\n');
      var err, nr, yOffset, maxHeight, figs, width;
      ghost var frames;
      err, nr, warnings, yOffset, maxHeight, figs, width, frames := RunProgram(lines, stack, nrPerRow);
      var canvasW := if width.Some? then width.value * nrPerRow else 0;
      if err.Some? {
        r := Err(err.value);
      } else if width.None? {
        r := Err(NoFrames);
      } else {
        r := Ok(Render(svgTemplate, CanvasData(figs, canvasW, yOffset + maxHeight)));
        svg := Some(r.value);
      }
      VisualizeOutcome(old(stack.Model()), code, nrPerRow, old(svgTemplate), nr, stack.Model(), frames, warnings, err,
                       Placement(yOffset, maxHeight, figs), width, canvasW, r);
    }
  }
}
