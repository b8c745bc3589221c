/**
 * The records the layout engine and the grid composer hand to the template
 * renderer, typed instead of string-keyed dictionaries, and the renderer itself
 * as an opaque stub.
 */
module Geometry {
  import opened Wrappers

  /** One rectangle of a frame: the header (nr == None) or the row of stack slot `nr`. */
  datatype Element = Element(y: int, h: int, nr: Option<int>, caption: Option<string>, ebpOffset: Option<string>)

  /** The `stack` dictionary: the rectangles, the stack's size, its four margins and the label offsets. */
  datatype StackGeom = StackGeom(
    elements: seq<Element>,
    h: int, w: int,
    lMar: int, rMar: int, tMar: int, bMar: int,
    labOffX: int, labOffY: int)

  /** The `esp` dictionary: where the stack-pointer arrow is drawn. */
  datatype EspArrow = EspArrow(y: int, x: int, arrowY: int, arrowX1: int, arrowX2: int)

  /** The `svg` dictionary of one frame or of the whole canvas: its size and outer margin. */
  datatype SvgBox = SvgBox(w: int, h: int, margin: int)

  /** Everything a frame template is rendered from; `esp` and `svg` are absent until set. */
  datatype VisData = VisData(stack: StackGeom, esp: Option<EspArrow>, svg: Option<SvgBox>)

  /** One frame placed on the canvas. */
  datatype Fig = Fig(x: int, y: int, svg: Markup)

  /** What a template is rendered from: a single frame, or the canvas of placed frames. */
  datatype RenderData = FrameData(vis: VisData) | CanvasData(figs: seq<Fig>, w: int, h: int)

  /**
   * Rendered markup. The template engine is not part of this model: a rendering
   * is identified by the template's name and the data it was given.
   */
  datatype Markup = Rendered(template: string, data: RenderData)

  /** `Template().read_template(name).render(data=...)`. */
  function Render(template: string, data: RenderData): Markup {
    Rendered(template, data)
  }
}
