# stack-visualization in Dafny

A verified model of `stack_visualizer.py`, a small tool that draws the x86 call
stack as SVG. It reads a program of lines such as `push <value>` and
`pop <operand>`, and runs it on an abstract stack. A non-blank line raises
unless, once stripped, it holds exactly one space character (`DecodeSpec`):
a bare `pop`, `push\ta` and `push  a` raise, while `push a\tb` pushes
`a\tb`. After every non-blank line it lays
out one picture of the stack, called a *frame*, and it tiles those frames into rows of
`nr_per_row` columns on one canvas.

The model has three parts:

- **The stack** (`stack_data.dfy`, module `StackModel`). `StackData` holds a
  list of slot labels, bottom first, and two integer pointers. `esp` indexes
  the top slot. `ebp` is the reference slot for offset labels. Both start at
  -1. The class updates its fields in place. Its methods are proved against
  the value-level functions `Pushed` and `Popped`, and lemmas about those
  functions state the push/pop round trip and the pointer invariant
  `esp == |content| - 1`.
- **The per-frame layout engine** (`stack_visualization.dfy`, module
  `FrameLayout`). A frame has a 40-high header, titled "Stack n" when the
  frame number n is nonzero, and one 20-high row per slot. With offset labels
  on, each slot gets a label: "EBP" for slot ebp, otherwise
  `(ebp - slot) * 4` followed by `(%ebp)`. An arrow is drawn next to the row
  of slot esp. A bounding box surrounds the stack, its margins and a 10-wide
  outer margin. The class `StackVisualization` builds all of this with loops
  that are proved against the pure functions `PlainStack`, `WithEbpLabels`,
  `WithEspLabel` and `Sizes`. The configuration constants are those of the
  `cfg` dictionary.
- **The grid composer** (`code_visualization.dfy`, module `GridComposer`). The
  loop of `visualize_instructions` is the method `RunProgram`, proved against
  the fold `RunLines` of the per-line step `Step` and the placement fold
  `PlaceAll`. `Visualize` gives the whole outcome: the final stack, the canvas
  or the error, and the lines that drew an "invalid command" warning. An
  independent description of rows (`CountStarts`, `RowMax`, `HeightAbove`)
  says where each frame lands.

`text.dfy` (module `Text`) models the pieces of Python string and integer
behaviour the tool relies on:

- `str.strip` over Python's white-space set.
- `str.split` with and without a split limit, with its join inverse.
- `str.startswith`.
- `str(int)`, with a parse-back inverse.
- The floor-modulo `%`.

`geometry.dfy` holds the typed forms of the dictionaries handed to the
template engine. The engine itself is an opaque constructor, `Render`.

Some behaviour is reproduced as the code has it:

- A frame's column is `nr % nr_per_row`, where `nr` is the raw line index and
  blank lines are counted. A new row starts only at a frame whose index is a
  multiple of `nr_per_row`. A blank line can therefore make two frames land
  on the same spot. `SamePlace` states the general condition and
  `BlankLineOverlap` gives the two-per-row instance for lines 0, 1 and 3.
- A non-blank line that, once stripped, does not hold exactly one space
  character (so `split(' ', 2)` does not give two pieces), a `pop` on an empty
  stack, and `nr_per_row == 0` each raise in the source. They are modelled as
  errors (`UnpackError`, `Underflow`, `ZeroDivision`) that end the run. The
  stack keeps whatever the failing line had already done to it: a failed pop
  has already decremented esp.
- A program without a non-blank line leaves `width` unbound and raises. It
  is modelled as `NoFrames`.
- The commands handled are exactly those the code dispatches: a command word
  that starts with `push` or `pop`. Anything else only draws a warning, and
  still yields a frame.
- Offset labels read `<offset>(%ebp)`, or `EBP` at ebp.

## Model

| member | source | states |
|---|---|---|
| `Text.Strip` | stack_visualizer.py:15 | `str.strip()`: trailing white space is dropped after leading white space; its meaning is given by `TrimLeft`, `TrimRight` and `StripEmptyIffBlank` |
| `Text.TrimLeft` | stack_visualizer.py:15 | the result is the suffix of the input that starts at its first non-space, and every dropped character is white space |
| `Text.TrimRight` | stack_visualizer.py:15 | the result is the prefix of the input that ends at its last non-space, and every dropped character is white space |
| `Text.StripEmptyIffBlank` | stack_visualizer.py:15-17 | a line strips to nothing exactly when all its characters are white space, which is when the loop skips it |
| `Text.StripIdempotent` | stack_visualizer.py:15 | stripping a line that has already been stripped changes nothing |
| `Text.FindFrom` | stack_visualizer.py:18 | the first index of the character at or after `from`, with no occurrence before it, or -1 when there is none |
| `Text.Find` | stack_visualizer.py:18 | the index of the first occurrence of the separator, or -1 when it does not occur |
| `Text.FindIffIn` | stack_visualizer.py:18 | the separator is found exactly when it occurs in the string |
| `Text.Split` | stack_visualizer.py:14 | `code.split('\n')`: the text before the first separator, then the split of the rest; its meaning is given by `SplitLength`, `SplitPieces` and `SplitJoin` |
| `Text.SplitLength` | stack_visualizer.py:14 | `code.split('\n')` yields one line more than the code has newlines |
| `Text.SplitPieces` | stack_visualizer.py:14 | no line of the split holds a newline |
| `Text.SplitJoin` | stack_visualizer.py:14 | joining the lines with newlines gives back the code |
| `Text.SplitMax` | stack_visualizer.py:18 | `line.split(' ', 2)`: at most two splits from the left, the rest left in the last piece; its meaning is given by `SplitMaxLength`, `SplitMaxPieces`, `SplitMaxJoin` and `SplitTwoIffOneSpace` |
| `Text.SplitMaxLength` | stack_visualizer.py:18 | `split(' ', 2)` yields between one and three pieces |
| `Text.SplitMaxPieces` | stack_visualizer.py:18 | only the last piece of a bounded split may hold the separator |
| `Text.SplitMaxJoin` | stack_visualizer.py:18 | joining the pieces of a bounded split gives back the line |
| `Text.SplitTwoIffOneSpace` | stack_visualizer.py:18 | `line.split(' ', 2)` has exactly two pieces exactly when the line holds exactly one space, and the pieces are then the text before and after it |
| `Text.StartsWith` | stack_visualizer.py:19-21 | `cmd.startswith(p)`: the command word begins with the characters of p |
| `Text.ToDecimal` | stack_visualizer.py:117 | `str(n)` of an int: a minus sign for a negative number, then the digits; `ParseToDecimal` proves it reads back as n |
| `Text.NatToDecimal` | stack_visualizer.py:150 | the decimal notation of a natural number is a non-empty digit string without a leading zero |
| `Text.ParseNatToDecimal` | stack_visualizer.py:150 | the decimal notation of a natural number reads back as that number |
| `Text.ParseToDecimal` | stack_visualizer.py:150 | `str(n)` is a numeral that reads back as n, negative numbers included |
| `Text.PyMod` | stack_visualizer.py:30 | Python's `%`: the remainder lies between 0 and the divisor and takes the divisor's sign, and the dividend is divisor times floor quotient plus remainder |
| `StackModel.InitialNr` | stack_visualizer.py:63 | the frame number is nonzero exactly when a nonzero number was given, and is then that number |
| `StackModel.Pushed` | stack_visualizer.py:75-77 | the state after `push`: esp one higher and the label appended |
| `StackModel.Popped` | stack_visualizer.py:79-81 | the state after `pop` and its result: esp one lower in every case, and the top label removed and returned, or IndexError on an empty list |
| `StackModel.PushPopRoundTrip` | stack_visualizer.py:75-81 | a push followed by a pop returns the pushed label and restores the state before the push |
| `StackModel.PointerInvariantStep` | stack_visualizer.py:75-81 | a push keeps `esp == len(content) - 1`; a pop keeps it exactly when the stack was not empty, and fails exactly when it was |
| `StackModel.RunOpsKeepsInvariant` | stack_visualizer.py:75-81 | any run of pushes and non-failing pops keeps the pointer invariant, leaves ebp and nr alone and changes the height by the net number of pushes |
| `StackModel.FromInitial` | stack_visualizer.py:59-81 | starting from a fresh stack, esp tracks the top slot and ebp stays -1 for as long as no pop fails |
| `StackModel.StackData.constructor` | stack_visualizer.py:59-64 | a new stack has both pointers at -1, no content and frame number `nr if nr else 0` |
| `StackModel.StackData.BuildFromList` | stack_visualizer.py:66-67 | replaces the content and nothing else, so the pointers may no longer match it |
| `StackModel.StackData.SetEsp` | stack_visualizer.py:69-70 | overwrites esp and nothing else |
| `StackModel.StackData.SetEbp` | stack_visualizer.py:72-73 | overwrites ebp and nothing else |
| `StackModel.StackData.Push` | stack_visualizer.py:75-77 | esp grows by one and the label is appended, other fields unchanged |
| `StackModel.StackData.Pop` | stack_visualizer.py:79-81 | esp shrinks by one in every case; a non-empty stack loses and returns its top label, an empty one raises IndexError |
| `StackModel.PushThenPop` | stack_visualizer.py:75-81 | on the object, push then pop returns the pushed label and restores every field |
| `FrameLayout.Header` | stack_visualizer.py:116-124 | the 40-high header at y 0, titled "Stack nr" exactly when nr is nonzero, belonging to no slot |
| `FrameLayout.SlotRow` | stack_visualizer.py:127-132 | the 20-high row of slot i at y 40 + 20i, labelled with the slot's content |
| `FrameLayout.PlainStack` | stack_visualizer.py:112-142 | the header, then one row per slot, the stack height, width 70, all margins 0 and the label offsets; `PlainStackTiles` and `SlotRows` state its shape |
| `FrameLayout.OffsetLabel` | stack_visualizer.py:148-152 | the offset label of slot n; `OffsetLabelSpec` states what it reads |
| `FrameLayout.WithEbpLabels` | stack_visualizer.py:144-152 | the right margin grows by 50 and every slot row gets its offset label; `EbpLabelsSpec` states the result |
| `FrameLayout.WithEspLabel` | stack_visualizer.py:154-164 | the left margin grows by 60 and the arrow is set at the last row of slot esp, if any; `EspArrowSpec` and `ArrowMarksTop` state the result |
| `FrameLayout.Sizes` | stack_visualizer.py:166-172 | the frame size: the stack plus its margins plus twice the outer margin of 10; `FrameSize` gives the values |
| `FrameLayout.Built` | stack_visualizer.py:98-110 | the data after `build_stack_vis`: plain stack, offset labels when asked, arrow, size |
| `FrameLayout.FrameVis` | stack_visualizer.py:98-110 | the data of a fresh layout engine after `build_stack_vis` |
| `FrameLayout.PlainStackTiles` | stack_visualizer.py:112-142 | the header and the slot rows tile the stack's height, each starting where the previous one ends |
| `FrameLayout.OffsetLabelSpec` | stack_visualizer.py:144-152 | the label is "EBP" exactly at slot ebp, and elsewhere is a numeral reading back as `(ebp - slot) * 4` followed by "(%ebp)" |
| `FrameLayout.LastMatch` | stack_visualizer.py:156-164 | the arrow row is the last rectangle belonging to slot esp, and no rectangle belongs to esp when there is none |
| `FrameLayout.FrameSize` | stack_visualizer.py:166-172 | with offset labels a frame is 200 wide, otherwise 150, and 60 + 20 per slot high, with margin 10 |
| `FrameLayout.EbpLabelsSpec` | stack_visualizer.py:144-152 | the right margin grows by 50, the header gets no label, every slot row gets its offset label, and the label is "EBP" exactly at ebp |
| `FrameLayout.EspArrowSpec` | stack_visualizer.py:154-164 | the arrow is drawn exactly when esp indexes a slot, next to that slot's row |
| `FrameLayout.ArrowOnRows` | stack_visualizer.py:154-164 | over a header and slot rows, the arrow lands on row esp exactly when that row exists |
| `FrameLayout.SlotRows` | stack_visualizer.py:112-152 | before the arrow is added, the rectangles are the header and then slot k's row at height 40 + 20k, offset labels or not |
| `FrameLayout.ArrowMarksTop` | stack_visualizer.py:154-164 | for a stack that keeps its pointer invariant, the arrow marks the top slot and is absent when the stack is empty |
| `FrameLayout.StackVisualization.constructor` | stack_visualizer.py:86-96 | a new layout engine has empty data and no markup |
| `FrameLayout.StackVisualization.BuildStackVis` | stack_visualizer.py:98-110 | the data becomes the plain stack, then offset labels if asked, then the arrow and the size, and the markup is the frame template rendered from that data |
| `FrameLayout.StackVisualization.BuildPlainStack` | stack_visualizer.py:112-142 | the loop lays out the header and one row per slot at the accumulated height, with the margins and label offsets of the configuration |
| `FrameLayout.StackVisualization.AddEbpLabels` | stack_visualizer.py:144-152 | the loop labels every slot row with its offset from ebp and widens the right margin by 50 |
| `FrameLayout.StackVisualization.AddEspLabel` | stack_visualizer.py:154-164 | the loop widens the left margin by 60 and records the arrow for the last row of slot esp, if there is one |
| `FrameLayout.StackVisualization.CalcSizes` | stack_visualizer.py:166-172 | the box is the stack size plus its margins plus twice the outer margin |
| `FrameLayout.StackVisualization.GenerateSvg` | stack_visualizer.py:174-178 | the markup is the frame template rendered from the current data |
| `GridComposer.Decode` | stack_visualizer.py:18 | `cmd, value = [x.strip() for x in line.split(' ', 2)]`, None where the unpacking raises; `DecodeSpec` states when it succeeds and what it gives |
| `GridComposer.Classify` | stack_visualizer.py:19-24 | the dispatch on the command word: push, pop, or an invalid command |
| `GridComposer.Execute` | stack_visualizer.py:19-24 | the command run on the stack state, and whether it raised; `ExecuteSpec` states its properties |
| `GridComposer.Apply` | stack_visualizer.py:19-29 | the rest of an iteration after decoding: the command, the warning, `stack.nr = nr + 1`, the frame, and the ZeroDivision of `nr % 0` |
| `GridComposer.Step` | stack_visualizer.py:15-29 | one iteration: skip a blank line, raise on a failed unpacking, otherwise `Apply`; `StepSpec` states its properties |
| `GridComposer.RunLines` | stack_visualizer.py:14-29 | the loop over the lines, stopped at the first raise; `RunLinesSpec` and `RunLinesStops` state its properties |
| `GridComposer.NonBlank` | stack_visualizer.py:14-17 | the raw indices of the lines that are not blank once stripped, which are the lines that yield frames |
| `GridComposer.DecodeSpec` | stack_visualizer.py:18 | unpacking succeeds exactly for a stripped line with one space, and gives the stripped words before and after it |
| `GridComposer.FrameOf` | stack_visualizer.py:26-29 | a frame carries its raw line index, is 200 wide and 60 + 20 per slot high |
| `GridComposer.ExecuteSpec` | stack_visualizer.py:19-24 | a command never touches ebp, raises exactly for a pop on an empty stack, and otherwise keeps the pointer invariant |
| `GridComposer.StepSpec` | stack_visualizer.py:14-29 | an iteration keeps ebp, changes nothing after an error, and without an error adds a frame exactly for a non-blank line while keeping the pointer invariant |
| `GridComposer.RunInvariantStep` | stack_visualizer.py:14-29 | one more line keeps the run invariant: frames numbered by the raw indices of the non-blank lines, 200 wide, only when nr_per_row is nonzero |
| `GridComposer.RunLinesSpec` | stack_visualizer.py:14-29 | after any lines, ebp is unchanged, and without an error there is one frame per non-blank line, numbered by raw line index, with the pointer invariant kept |
| `GridComposer.RunLinesStops` | stack_visualizer.py:14-24 | once a line has raised, later lines change nothing |
| `GridComposer.InvalidLineKeepsStack` | stack_visualizer.py:23-29 | an unknown command leaves the stack alone except the frame number, is warned about, and still yields a frame |
| `GridComposer.Place` | stack_visualizer.py:30-36 | one layout step: column `nr % nr_per_row`, a row break at column 0, the row height as a maximum, the figure at column times width |
| `GridComposer.PlaceAll` | stack_visualizer.py:30-36 | the layout after all frames; `PlaceAllRows` and `PlaceAllFigs` state where every frame lands |
| `GridComposer.Canvas` | stack_visualizer.py:37-41 | the canvas: the placed frames, `width * nr_per_row` wide, `y_offset + max_height` high; `CanvasOf` ties it to the row description |
| `GridComposer.Visualize` | stack_visualizer.py:10-41 | the whole call: final stack, canvas or error, warned lines; `VisualizeResult` and `VisualizeStops` state its outcome |
| `GridComposer.VisualizeResult` | stack_visualizer.py:10-41 | the outcome is a canvas exactly when no line raised and some line is not blank; the canvas then holds one figure per non-blank line, is 200 * nr_per_row wide and as high as all rows together |
| `GridComposer.CanvasOf` | stack_visualizer.py:37-38 | for frames 200 wide, the canvas built from the last width and the final `y_offset + max_height` has one figure per frame, is 200 * nr_per_row wide and has the total height of all rows |
| `GridComposer.VisualizeStops` | stack_visualizer.py:10-38 | when the first k lines raise, that error is the outcome |
| `GridComposer.VisualizeOutcome` | stack_visualizer.py:10-38 | the loop's stopping state and the result built from its variables are the outcome `Visualize` describes |
| `GridComposer.PlaceAllRows` | stack_visualizer.py:30-34 | `y_offset` is the total height of the completed rows and `max_height` the tallest frame of the current row |
| `GridComposer.PlaceAllPrefix` | stack_visualizer.py:35-36 | placing frames only appends, one figure per frame |
| `GridComposer.PlaceAllFig` | stack_visualizer.py:30-36 | frame j is placed at x = `(nr % nr_per_row) * width`, at the height of the rows before its own, with its own markup |
| `GridComposer.PlaceAllFigs` | stack_visualizer.py:30-36 | every placed frame is at its column times its width and at the height of the rows completed before it |
| `GridComposer.SamePlace` | stack_visualizer.py:30-36 | two equally wide frames in the same column with no row start between them are drawn at the same spot |
| `GridComposer.BlankLineOverlap` | stack_visualizer.py:14-36 | with two frames per row, the frames of lines 1 and 3 (line 2 blank) are drawn at the same spot |
| `GridComposer.CanvasHeight` | stack_visualizer.py:37-38 | the canvas height is the total height of all rows, the last one included |
| `GridComposer.PlaceFrame` | stack_visualizer.py:30-36 | a frame in column 0 moves down by the previous row's tallest frame, the row height becomes the maximum, and the figure goes at column times width |
| `GridComposer.RunCommand` | stack_visualizer.py:19-29 | runs the command on the stack object, warns about an unknown one, sets the frame number and lays out the frame, as `Apply` describes |
| `GridComposer.VisitLine` | stack_visualizer.py:15-29 | one iteration on the stack object, as `Step` describes |
| `GridComposer.RunProgram` | stack_visualizer.py:14-36 | the loop stops at the first line that raises or after the last line, with the stack, frames and warnings of `RunLines` and the layout of `PlaceAll` |
| `GridComposer.CodeVisualization.constructor` | stack_visualizer.py:7-8 | the canvas template is "svg_template.svg" |
| `GridComposer.CodeVisualization.VisualizeInstructions` | stack_visualizer.py:10-41 | the final stack, the result and the warned lines are those of `Visualize`, and the rendered canvas is stored on success |

## Left out

- Template I/O is not modelled. Reading the Jinja templates, writing the
  output file and the final "done" message (lines 39-54 and 174-178) are left
  out. Rendering is the opaque constructor `Geometry.Render`, which records
  the template name and the data.
- The command line (lines 180-191) is not modelled. Its parameters become
  the arguments of `VisualizeInstructions`.
- Printing is not modelled. The "invalid command" message is a list of the
  warned line indices.
- `arrow_y` is `norm_h / 2`, a float (10.0) in Python. It is modelled as the
  integer 10.
- `StackModel.StackData.BuildFromList`: the content is a value. The Python
  list is shared with the caller, so aliasing is not captured.
- The `is not None` checks on esp and ebp are not modelled. Both fields are
  always integers here, so those branches are always taken.
- Missing dictionary keys are not modelled. A layout step run out of order
  would find a margin key missing. The model initialises every margin to 0,
  and `build_stack_vis` always runs the steps in order.
- `Text.IsSpace` follows Python's `str.isspace` table for the code points it
  lists. There is no Unicode normalisation.
- `StackData.last_action` is set to `''` by `__init__` and never read or
  changed afterwards. The constructor sets `lastAction` to `""` and every
  other method leaves it unchanged.
