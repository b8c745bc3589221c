/**
 * The per-frame layout engine of stack_visualizer.py (class StackVisualization):
 * one stack snapshot becomes a 40-high header and one 20-high row per slot,
 * optional base-pointer offset labels, a stack-pointer arrow and a bounding box.
 */
module FrameLayout {
  import opened Wrappers
  import opened Text
  import opened StackModel
  import opened Geometry

  // The configuration dictionary `cfg` of StackVisualization.
  const START_H := 40
  const NORM_H := 20
  const STACK_W := 70
  const ADDR_SPACE := 50
  const LAB_OFF_X := 5
  const LAB_OFF_Y := 15
  const ARROW_LENGTH := 20
  const ESP_WIDTH := 25
  const L_MAR_ESP := 60
  const SVG_MARGIN := 10
  const FRAME_TEMPLATE := "cache_template.svg"

  /** The data of a freshly constructed StackVisualization. */
  const Empty := VisData(StackGeom([], 0, 0, 0, 0, 0, 0, 0, 0), None, None)

  /** The header rectangle: titled "Stack <nr>" when nr is nonzero, untitled otherwise. */
  function Header(nr: int): Element {
    Element(0, START_H, None, if nr != 0 then Some("Stack " + ToDecimal(nr)) else None, None)
  }

  /** The rectangle of slot i: directly below the header and the i slots before it. */
  function SlotRow(content: seq<string>, i: nat): Element
    requires i < |content|
  {
    Element(START_H + NORM_H * i, NORM_H, Some(i), Some(content[i]), None)
  }

  /** The stack dictionary `_build_plain_stack` produces: every margin 0, height of all rows. */
  function PlainStack(content: seq<string>, nr: int): StackGeom {
    StackGeom(
      [Header(nr)] + seq(|content|, i requires 0 <= i < |content| => SlotRow(content, i)),
      START_H + NORM_H * |content|, STACK_W,
      0, 0, 0, 0,
      LAB_OFF_X, LAB_OFF_Y)
  }

  /** The rows of a plain stack tile its height: each starts where the previous one ends. */
  lemma PlainStackTiles(content: seq<string>, nr: int)
    ensures var g := PlainStack(content, nr);
            |g.elements| == |content| + 1 &&
            g.elements[0].y == 0 &&
            (forall k :: 0 <= k < |content| ==> g.elements[k].y + g.elements[k].h == g.elements[k + 1].y) &&
            g.elements[|content|].y + g.elements[|content|].h == g.h
  {
  }

  /** The offset label of slot n: "EBP" at ebp itself, otherwise `(ebp - n) * 4` followed by "(%ebp)". */
  function OffsetLabel(ebp: int, n: int): string {
    var offset := (ebp - n) * 4;
    if offset != 0 then ToDecimal(offset) + "(%ebp)" else "EBP"
  }

  /** The label is "EBP" exactly at ebp, and elsewhere reads back as the byte offset. */
  lemma OffsetLabelSpec(ebp: int, n: int)
    ensures OffsetLabel(ebp, n) == "EBP" <==> n == ebp
    ensures n != ebp ==>
              var s := OffsetLabel(ebp, n);
              |s| > 6 && s[|s| - 6..] == "(%ebp)" &&
              IsNumeral(s[..|s| - 6]) && ParseDecimal(s[..|s| - 6]) == (ebp - n) * 4
  {
    if n != ebp {
      var offset := (ebp - n) * 4;
      var s := OffsetLabel(ebp, n);
      assert offset != 0;
      ParseToDecimal(offset);
      assert s[..|s| - 6] == ToDecimal(offset);
      assert s != "EBP" by { assert |s| > 3; }
    }
  }

  /** A slot row with its offset label added; the header is left as it is. */
  function Labelled(e: Element, ebp: int): Element {
    if e.nr.Some? then e.(ebpOffset := Some(OffsetLabel(ebp, e.nr.value))) else e
  }

  /** The stack dictionary after `_add_ebp_labels(ebp)`. */
  function WithEbpLabels(g: StackGeom, ebp: int): StackGeom {
    g.(rMar := g.rMar + ADDR_SPACE,
       elements := seq(|g.elements|, i requires 0 <= i < |g.elements| => Labelled(g.elements[i], ebp)))
  }

  /** The index of the last rectangle that belongs to slot `esp`, if any. */
  function LastMatch(elements: seq<Element>, esp: int): (r: Option<nat>)
    ensures r.Some? ==> r.value < |elements| && elements[r.value].nr == Some(esp) &&
                        forall j :: r.value < j < |elements| ==> elements[j].nr != Some(esp)
    ensures r.None? ==> forall j :: 0 <= j < |elements| ==> elements[j].nr != Some(esp)
  {
    if elements == [] then None
    else if elements[|elements| - 1].nr == Some(esp) then Some(|elements| - 1)
    else LastMatch(elements[..|elements| - 1], esp)
  }

  /** The arrow drawn next to a row at height y. */
  function ArrowAt(y: int): EspArrow {
    EspArrow(y, -L_MAR_ESP, NORM_H / 2, ESP_WIDTH, ARROW_LENGTH + ESP_WIDTH)
  }

  /** The data after `_add_esp_label(esp)`: wider left margin, arrow at the matching row if there is one. */
  function WithEspLabel(d: VisData, esp: int): VisData {
    var m := LastMatch(d.stack.elements, esp);
    VisData(
      d.stack.(lMar := d.stack.lMar + L_MAR_ESP),
      if m.Some? then Some(ArrowAt(d.stack.elements[m.value].y)) else d.esp,
      d.svg)
  }

  /** The frame's size: the stack, its margins and the outer margin on both sides. */
  function Sizes(g: StackGeom): SvgBox {
    SvgBox(g.w + g.lMar + g.rMar + SVG_MARGIN * 2, g.h + g.tMar + g.bMar + SVG_MARGIN * 2, SVG_MARGIN)
  }

  /** The data after `build_stack_vis(stack, addEbp)` on an object whose data was `d`. */
  function Built(d: VisData, s: Snapshot, addEbp: bool): VisData {
    var g := PlainStack(s.content, s.nr);
    var d1 := WithEspLabel(d.(stack := if addEbp then WithEbpLabels(g, s.ebp) else g), s.esp);
    d1.(svg := Some(Sizes(d1.stack)))
  }

  /** The data of a fresh StackVisualization after `build_stack_vis(stack, addEbp)`. */
  function FrameVis(s: Snapshot, addEbp: bool): VisData {
    Built(Empty, s, addEbp)
  }

  /** With offset labels a frame is 200 wide and 60 + 20 per slot high; without them, 150 wide. */
  lemma FrameSize(s: Snapshot, addEbp: bool)
    ensures FrameVis(s, addEbp).svg ==
              Some(SvgBox(if addEbp then 200 else 150, 60 + 20 * |s.content|, 10))
  {
  }

  /**
   * The offset labels: the right margin grows by 50, the header keeps no label,
   * and slot i reads "EBP" exactly when i == ebp.
   */
  lemma EbpLabelsSpec(s: Snapshot)
    ensures var g := FrameVis(s, true).stack;
            |g.elements| == |s.content| + 1 &&
            g.rMar == ADDR_SPACE && g.lMar == L_MAR_ESP && g.tMar == 0 && g.bMar == 0 &&
            g.elements[0] == Header(s.nr) &&
            forall i :: 0 <= i < |s.content| ==>
              g.elements[i + 1] == SlotRow(s.content, i).(ebpOffset := Some(OffsetLabel(s.ebp, i))) &&
              (g.elements[i + 1].ebpOffset == Some("EBP") <==> i == s.ebp)
  {
    forall i | 0 <= i < |s.content|
      ensures OffsetLabel(s.ebp, i) == "EBP" <==> i == s.ebp
    {
      OffsetLabelSpec(s.ebp, i);
    }
  }

  /** The arrow is drawn exactly when esp indexes a slot, next to that slot's row. */
  lemma EspArrowSpec(s: Snapshot, addEbp: bool)
    ensures FrameVis(s, addEbp).esp.Some? <==> 0 <= s.esp < |s.content|
    ensures FrameVis(s, addEbp).esp.Some? ==>
              FrameVis(s, addEbp).esp.value == ArrowAt(START_H + NORM_H * s.esp)
  {
    var g := PlainStack(s.content, s.nr);
    var d := Empty.(stack := if addEbp then WithEbpLabels(g, s.ebp) else g);
    SlotRows(s, addEbp);
    ArrowOnRows(d, s.esp, |s.content|);
    assert FrameVis(s, addEbp).esp == WithEspLabel(d, s.esp).esp;
  }

  /** On rows laid out slot by slot below a header, the arrow lands on row esp exactly when that row exists. */
  lemma ArrowOnRows(d: VisData, esp: int, n: nat)
    requires d.esp.None? && SlotsBelowHeader(d.stack.elements, n)
    ensures WithEspLabel(d, esp).esp.Some? <==> 0 <= esp < n
    ensures 0 <= esp < n ==> WithEspLabel(d, esp).esp.value == ArrowAt(START_H + NORM_H * esp)
  {
    if 0 <= esp < n {
      assert d.stack.elements[esp + 1].nr == Some(esp);
    }
  }

  /** A header that belongs to no slot, then for each of the n slots k - 1 its row k, stacked downwards. */
  predicate SlotsBelowHeader(els: seq<Element>, n: nat) {
    |els| == n + 1 && els[0].nr == None &&
    forall k :: 1 <= k < |els| ==> els[k].nr == Some(k - 1) && els[k].y == START_H + NORM_H * (k - 1)
  }

  /** Before the arrow is added, the rectangles are the header and then one row per slot. */
  lemma SlotRows(s: Snapshot, addEbp: bool)
    ensures var g := PlainStack(s.content, s.nr);
            SlotsBelowHeader((if addEbp then WithEbpLabels(g, s.ebp) else g).elements, |s.content|)
  {
  }

  /** For a stack that keeps its pointer invariant, the arrow marks the top slot, and is absent when empty. */
  lemma ArrowMarksTop(s: Snapshot, addEbp: bool)
    requires Valid(s)
    ensures FrameVis(s, addEbp).esp.Some? <==> s.content != []
    ensures s.content != [] ==> FrameVis(s, addEbp).esp.value.y == NORM_H + NORM_H * |s.content|
  {
    EspArrowSpec(s, addEbp);
  }

  /** The layout engine object; each step of `build_stack_vis` updates its dictionaries in place. */
  class StackVisualization {
    var stack: StackGeom
    var esp: Option<EspArrow>
    var box: Option<SvgBox>
    var svg: Option<Markup>

    function Data(): VisData
      reads this
    {
      VisData(stack, esp, box)
    }

    constructor ()
      ensures Data() == Empty && svg == None
    {
      stack := Empty.stack;
      esp := None;
      box := None;
      svg := None;
    }

    method BuildStackVis(s: StackData, addEbp: bool)
      modifies this
      ensures Data() == Built(old(Data()), s.Model(), addEbp)
      ensures svg == Some(Render(FRAME_TEMPLATE, FrameData(Data())))
    {
      BuildPlainStack(s.content, s.nr);
      if addEbp {
        AddEbpLabels(s.ebp);
      }
      AddEspLabel(s.esp);
      CalcSizes();
      GenerateSvg();
    }

    /** Lays out the header and one row per slot, accumulating the stack's height. */
    method BuildPlainStack(content: seq<string>, nr: int)
      modifies this
      ensures stack == PlainStack(content, nr)
      ensures esp == old(esp) && box == old(box) && svg == old(svg)
    {
      var stackHeight := 0;
      stack := stack.(elements := []);
      var title := if nr != 0 then Some("Stack " + ToDecimal(nr)) else None;
      stack := stack.(elements := stack.elements + [Element(stackHeight, START_H, None, title, None)]);
      stackHeight := stackHeight + START_H;
      var i := 0;
      while i < |content|
        invariant 0 <= i <= |content|
        invariant stackHeight == START_H + NORM_H * i
        invariant stack.elements == [Header(nr)] + seq(i, j requires 0 <= j < i => SlotRow(content, j))
        invariant esp == old(esp) && box == old(box) && svg == old(svg)
      {
        stack := stack.(elements := stack.elements + [Element(stackHeight, NORM_H, Some(i), Some(content[i]), None)]);
        stackHeight := stackHeight + NORM_H;
        i := i + 1;
      }
      stack := stack.(h := stackHeight, w := STACK_W, lMar := 0, rMar := 0, tMar := 0, bMar := 0);
      stack := stack.(labOffX := LAB_OFF_X, labOffY := LAB_OFF_Y);
    }

    /** Widens the right margin and gives every slot row its offset from ebp. */
    method AddEbpLabels(ebp: int)
      modifies this
      ensures stack == WithEbpLabels(old(stack), ebp)
      ensures esp == old(esp) && box == old(box) && svg == old(svg)
    {
      stack := stack.(rMar := stack.rMar + ADDR_SPACE);
      var i := 0;
      while i < |stack.elements|
        invariant 0 <= i <= |stack.elements| == |old(stack).elements|
        invariant forall j :: 0 <= j < i ==> stack.elements[j] == Labelled(old(stack).elements[j], ebp)
        invariant forall j :: i <= j < |stack.elements| ==> stack.elements[j] == old(stack).elements[j]
        invariant stack == old(stack).(rMar := old(stack).rMar + ADDR_SPACE, elements := stack.elements)
        invariant esp == old(esp) && box == old(box) && svg == old(svg)
      {
        var e := stack.elements[i];
        if e.nr.Some? {
          var offset := (ebp - e.nr.value) * 4;
          var text := if offset != 0 then ToDecimal(offset) + "(%ebp)" else "EBP";
          stack := stack.(elements := stack.elements[i := e.(ebpOffset := Some(text))]);
        }
        i := i + 1;
      }
    }

    /** Widens the left margin and records the arrow for the row of slot esp, if there is one. */
    method AddEspLabel(esp: int)
      modifies this
      ensures Data() == WithEspLabel(old(Data()), esp)
      ensures svg == old(svg)
    {
      stack := stack.(lMar := stack.lMar + L_MAR_ESP);
      var i := 0;
      while i < |stack.elements|
        invariant 0 <= i <= |stack.elements|
        invariant stack == old(stack).(lMar := old(stack).lMar + L_MAR_ESP)
        invariant var m := LastMatch(stack.elements[..i], esp);
                  this.esp == if m.Some? then Some(ArrowAt(stack.elements[m.value].y)) else old(this.esp)
        invariant box == old(box) && svg == old(svg)
      {
        var e := stack.elements[i];
        if e.nr == Some(esp) {
          this.esp := Some(EspArrow(e.y, -L_MAR_ESP, NORM_H / 2, ESP_WIDTH, ARROW_LENGTH + ESP_WIDTH));
        }
        assert stack.elements[..i + 1][..i] == stack.elements[..i];
        i := i + 1;
      }
      assert stack.elements[..i] == stack.elements;
    }

    /** Records the frame's size. */
    method CalcSizes()
      modifies this
      ensures box == Some(SvgBox(stack.w + stack.lMar + stack.rMar + SVG_MARGIN * 2,
                                 stack.h + stack.tMar + stack.bMar + SVG_MARGIN * 2, SVG_MARGIN))
      ensures stack == old(stack) && esp == old(esp) && svg == old(svg)
    {
      box := Some(SvgBox(stack.w + stack.lMar + stack.rMar + SVG_MARGIN * 2,
                         stack.h + stack.tMar + stack.bMar + SVG_MARGIN * 2, SVG_MARGIN));
    }

    /** Renders the frame template from the data. */
    method GenerateSvg()
      modifies this
      ensures svg == Some(Render(FRAME_TEMPLATE, FrameData(Data())))
      ensures stack == old(stack) && esp == old(esp) && box == old(box)
    {
      svg := Some(Render(FRAME_TEMPLATE, FrameData(Data())));
    }
  }
}
