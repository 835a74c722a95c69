/**
 * The three shapes of svg.h: `Circle`, `Polyline` and `Text`. Each is a
 * builder class whose setters change one field in place and return the same
 * object for chaining; `ToShape` takes the value a document stores when the
 * shape is added. Rendering works on that value: each kind writes a fixed
 * tag layout, proved equal to the `Tag` of the shape.
 */
module Shapes {
  import opened Options
  import opened Output
  import opened Sequences
  import opened Style
  import opened Context
  import opened Escaping

  type uint32 = n: int | 0 <= n < 0x1_0000_0000

  /** A point; coordinates are integers (see `FormatNumber`). */
  datatype Point = Point(x: int, y: int)

  const Origin := Point(0, 0)

  /** A shape as a document holds it once added. */
  datatype Shape =
    | CircleShape(center: Point, radius: int, style: PathProps)
    | PolylineShape(points: seq<Point>, style: PathProps)
    | TextShape(position: Point, offset: Point, fontSize: uint32, fontFamily: string, fontWeight: string,
                data: string, style: PathProps)

  // ---------- tag layouts ----------

  /** `x,y`: one vertex of a polyline. */
  function PointText(p: Point): string {
    FormatNumber(p.x) + "," + FormatNumber(p.y)
  }

  /** The vertices joined by single spaces, in order; empty for no vertices. */
  function PointsValue(points: seq<Point>): string {
    if |points| == 0 then ""
    else if |points| == 1 then PointText(points[0])
    else PointsValue(points[..|points| - 1]) + " " + PointText(points[|points| - 1])
  }

  /** `cx`, `cy` and `r`, then the style attributes. */
  function CircleAttributes(center: Point, radius: int, style: PathProps): seq<Attribute> {
    [Attribute("cx", FormatNumber(center.x)), Attribute("cy", FormatNumber(center.y)),
     Attribute("r", FormatNumber(radius))] + StyleAttributes(style)
  }

  function PolylineAttributes(points: seq<Point>, style: PathProps): seq<Attribute> {
    [Attribute("points", PointsValue(points))] + StyleAttributes(style)
  }

  /** An attribute written only when its value is not empty. */
  function OptionalAttribute(name: string, value: string): seq<Attribute> {
    if value == "" then [] else [Attribute(name, value)]
  }

  /** `x`, `y`, `dx`, `dy` and `font-size`, always written. */
  function Placement(position: Point, offset: Point, fontSize: uint32): seq<Attribute> {
    [Attribute("x", FormatNumber(position.x)), Attribute("y", FormatNumber(position.y)),
     Attribute("dx", FormatNumber(offset.x)), Attribute("dy", FormatNumber(offset.y)),
     Attribute("font-size", FormatNumber(fontSize))]
  }

  /** The style attributes first, then position, offset and size, then family and weight when set. */
  function TextAttributes(position: Point, offset: Point, fontSize: uint32, fontFamily: string, fontWeight: string,
                          style: PathProps): seq<Attribute> {
    StyleAttributes(style) + Placement(position, offset, fontSize)
    + OptionalAttribute("font-family", fontFamily) + OptionalAttribute("font-weight", fontWeight)
  }

  /** The element a shape renders to (`RenderObject`). */
  function Tag(s: Shape): string {
    match s
    case CircleShape(center, radius, style) =>
      "<circle" + RenderAll(CircleAttributes(center, radius, style)) + " />"
    case PolylineShape(points, style) =>
      "<polyline" + RenderAll(PolylineAttributes(points, style)) + " />"
    case TextShape(position, offset, fontSize, fontFamily, fontWeight, data, style) =>
      "<text" + RenderAll(TextAttributes(position, offset, fontSize, fontFamily, fontWeight, style))
      + " >" + data + "</text>"
  }

  // ---------- rendering ----------

  /**
   * Writing an attribute's opening and value, then a literal that is its
   * closing quote followed by `next`, wrote the attribute followed by `next`.
   */
  lemma Straddle(before: string, text: string, opening: string, name: string, value: string, close: string, next: string)
    requires opening == " " + name + "=\""
    requires close == "\"" + next
    requires text == before + opening + value + close
    ensures text == before + AttributeText(Attribute(name, value)) + next
  {
    assert text == before + (opening + value + "\"") + next;
  }

  /** Three attributes render one after another. */
  lemma RenderThree(a: Attribute, b: Attribute, c: Attribute)
    ensures RenderAll([a, b, c]) == AttributeText(a) + AttributeText(b) + AttributeText(c)
  {
    assert [a, b, c][..2] == [a, b];
    assert [a, b][..1] == [a];
    RenderOne(a);
  }

  /** An element assembled from an opening, two runs of attributes and a closing. */
  lemma Assembled(t0: string, text: string, open: string, head: seq<Attribute>, rest: seq<Attribute>, close: string)
    requires text == t0 + open + RenderAll(head) + RenderAll(rest) + close
    ensures text == t0 + (open + RenderAll(head + rest) + close)
  {
    var a, b := RenderAll(head), RenderAll(rest);
    RenderAllAppend(head, rest);
    ConcatAssociative(t0, open, a);
    ConcatAssociative(t0, open + a, b);
    ConcatAssociative(t0, open + a + b, close);
    ConcatAssociative(open, a, b);
  }

  lemma CircleLiterals()
    ensures "<circle cx=\"" == "<circle" + " cx=\""
    ensures "\" cy=\"" == "\"" + " cy=\""
    ensures "\" " + "r=\"" == "\"" + " r=\""
    ensures " cx=\"" == " " + "cx" + "=\""
    ensures " cy=\"" == " " + "cy" + "=\""
    ensures " r=\"" == " " + "r" + "=\""
  {
  }

  /** Three attributes written one after another render as their list. */
  lemma WroteThree(t0: string, text: string, open: string, a: Attribute, b: Attribute, c: Attribute)
    requires text == t0 + open + AttributeText(a) + AttributeText(b) + AttributeText(c)
    ensures text == t0 + open + RenderAll([a, b, c])
  {
    RenderThree(a, b, c);
    var u, v, w := AttributeText(a), AttributeText(b), AttributeText(c);
    ConcatAssociative(t0 + open + u, v, w);
    ConcatAssociative(t0 + open, u, v + w);
    ConcatAssociative(u, v, w);
  }

  /** `Circle::RenderObject`. */
  method RenderCircle(center: Point, radius: int, style: PathProps, out: Stream)
    modifies out
    ensures out.text == old(out.text) + Tag(CircleShape(center, radius, style))
  {
    var x, y, r := FormatNumber(center.x), FormatNumber(center.y), FormatNumber(radius);
    ghost var cx, cy, rr := Attribute("cx", x), Attribute("cy", y), Attribute("r", r);
    CircleLiterals();
    ghost var h0 := out.text + "<circle";
    out.Write("<circle cx=\"");
    ConcatAssociative(old(out.text), "<circle", " cx=\"");
    assert out.text == h0 + " cx=\"";
    out.Write(x);
    out.Write("\" cy=\"");
    Straddle(h0, out.text, " cx=\"", "cx", x, "\" cy=\"", " cy=\"");
    ghost var h1 := h0 + AttributeText(cx);
    assert out.text == h1 + " cy=\"";
    out.Write(y);
    out.Write("\" ");
    out.Write("r=\"");
    ConcatAssociative(h1 + " cy=\"" + y, "\" ", "r=\"");
    Straddle(h1, out.text, " cy=\"", "cy", y, "\" " + "r=\"", " r=\"");
    ghost var h2 := h1 + AttributeText(cy);
    assert out.text == h2 + " r=\"";
    out.Write(r);
    out.Write("\"");
    Straddle(h2, out.text, " r=\"", "r", r, "\"", "");
    assert out.text == h0 + AttributeText(cx) + AttributeText(cy) + AttributeText(rr);
    WroteThree(old(out.text), out.text, "<circle", cx, cy, rr);
    RenderAttributes(style, out);
    out.Write(" />");
    Assembled(old(out.text), out.text, "<circle", [cx, cy, rr], StyleAttributes(style), " />");
  }

  /** One more vertex: a space first unless it is the first one. */
  lemma PointsValueStep(points: seq<Point>, i: nat)
    requires i < |points|
    ensures PointsValue(points[..i + 1]) ==
      (if i == 0 then PointText(points[i]) else PointsValue(points[..i]) + " " + PointText(points[i]))
  {
    assert points[..i + 1][..i] == points[..i];
  }

  lemma WrotePoint(h: string, pv: string, before: string, text: string, sep: string, x: string, y: string)
    requires before == h + pv
    requires text == before + sep + x + "," + y
    ensures text == h + (pv + sep + (x + "," + y))
  {
    ConcatAssociative(h + pv + sep + x, ",", y);
    ConcatAssociative(h + pv + sep, x, "," + y);
    ConcatAssociative(h + pv, sep, x + "," + y);
    ConcatAssociative(h, pv, sep + (x + "," + y));
    ConcatAssociative(pv, sep, x + "," + y);
  }

  lemma FirstPoint(h: string, pv: string, before: string, text: string, x: string, y: string)
    requires pv == "" && before == h + pv
    requires text == before + x + "," + y
    ensures text == h + (x + "," + y)
  {
    ConcatAssociative(before + x, ",", y);
    ConcatAssociative(before, x, "," + y);
  }

  lemma PolylineLiterals()
    ensures "<polyline points=\"" == "<polyline" + " points=\""
    ensures " points=\"" == " " + "points" + "=\""
  {
  }

  /** `Polyline::RenderObject`: the vertices separated by spaces, using a first-vertex flag. */
  method RenderPolyline(points: seq<Point>, style: PathProps, out: Stream)
    modifies out
    ensures out.text == old(out.text) + Tag(PolylineShape(points, style))
  {
    PolylineLiterals();
    ghost var h0 := out.text + "<polyline";
    out.Write("<polyline points=\"");
    ConcatAssociative(old(out.text), "<polyline", " points=\"");
    ghost var h := out.text;
    var isFirst := true;
    for i := 0 to |points|
      invariant isFirst == (i == 0)
      invariant out.text == h + PointsValue(points[..i])
    {
      ghost var before := out.text;
      var x, y := FormatNumber(points[i].x), FormatNumber(points[i].y);
      PointsValueStep(points, i);
      if !isFirst {
        out.Write(" ");
        out.Write(x);
        out.Write(",");
        out.Write(y);
        WrotePoint(h, PointsValue(points[..i]), before, out.text, " ", x, y);
      } else {
        out.Write(x);
        out.Write(",");
        out.Write(y);
        FirstPoint(h, PointsValue(points[..i]), before, out.text, x, y);
      }
      isFirst := false;
    }
    assert points[..|points|] == points;
    out.Write("\"");
    ghost var pt := Attribute("points", PointsValue(points));
    WroteAttribute(h0, out.text, " points=\"", "points", PointsValue(points));
    RenderAttributes(style, out);
    out.Write(" />");
    Assembled(old(out.text), out.text, "<polyline", [pt], StyleAttributes(style), " />");
  }

  lemma TextOpenings()
    ensures " x=\"" == " " + "x" + "=\""
    ensures " y=\"" == " " + "y" + "=\""
    ensures " dx=\"" == " " + "dx" + "=\""
    ensures " dy=\"" == " " + "dy" + "=\""
    ensures " font-size=\"" == " " + "font-size" + "=\""
  {
  }

  lemma FontOpenings()
    ensures " font-family=\"" == " " + "font-family" + "=\""
    ensures " font-weight=\"" == " " + "font-weight" + "=\""
  {
  }

  lemma Associate5(t0: string, a: string, b: string, c: string, d: string)
    ensures t0 + a + b + c + d == t0 + (a + b + c + d)
  {
    ConcatAssociative(t0, a, b);
    ConcatAssociative(t0, a + b, c);
    ConcatAssociative(t0, a + b + c, d);
  }

  /** The five attributes `Text::RenderObject` always writes after the style. */
  method RenderPlacement(position: Point, offset: Point, fontSize: uint32, out: Stream)
    modifies out
    ensures out.text == old(out.text) + RenderAll(Placement(position, offset, fontSize))
  {
    TextOpenings();
    ghost var fixed := Placement(position, offset, fontSize);
    ghost var s0 := out.text;
    WriteAttribute(" x=\"", "x", FormatNumber(position.x), out);
    ghost var s1 := out.text;
    WriteAttribute(" y=\"", "y", FormatNumber(position.y), out);
    ghost var s2 := out.text;
    WriteAttribute(" dx=\"", "dx", FormatNumber(offset.x), out);
    ghost var s3 := out.text;
    WriteAttribute(" dy=\"", "dy", FormatNumber(offset.y), out);
    ghost var s4 := out.text;
    WriteAttribute(" font-size=\"", "font-size", FormatNumber(fontSize), out);
    WrittenPieces([fixed[0]], [fixed[1]], [fixed[2]], [fixed[3]], [fixed[4]], s0, s1, s2, s3, s4, out.text);
    assert [fixed[0]] + [fixed[1]] + [fixed[2]] + [fixed[3]] + [fixed[4]] == fixed;
  }

  /** The `if (!value.empty())` blocks of `Text::RenderObject`. */
  method RenderOptional(opening: string, name: string, value: string, out: Stream)
    requires opening == " " + name + "=\""
    modifies out
    ensures out.text == old(out.text) + RenderAll(OptionalAttribute(name, value))
  {
    if value != "" {
      WriteAttribute(opening, name, value, out);
    }
  }

  /** `Text::RenderObject`: style first, then the fixed attributes, then family and weight when not empty. */
  method RenderText(position: Point, offset: Point, fontSize: uint32, fontFamily: string, fontWeight: string,
                    data: string, style: PathProps, out: Stream)
    modifies out
    ensures out.text == old(out.text) + Tag(TextShape(position, offset, fontSize, fontFamily, fontWeight, data, style))
  {
    FontOpenings();
    out.Write("<text");
    ghost var t0 := out.text;
    RenderAttributes(style, out);
    ghost var s0 := out.text;
    RenderPlacement(position, offset, fontSize, out);
    ghost var s1 := out.text;
    RenderOptional(" font-family=\"", "font-family", fontFamily, out);
    ghost var s2 := out.text;
    RenderOptional(" font-weight=\"", "font-weight", fontWeight, out);
    ghost var s3 := out.text;
    ghost var attrs := TextAttributes(position, offset, fontSize, fontFamily, fontWeight, style);
    WrittenPieces(StyleAttributes(style), Placement(position, offset, fontSize),
                  OptionalAttribute("font-family", fontFamily), OptionalAttribute("font-weight", fontWeight), [],
                  t0, s0, s1, s2, s3, s3);
    assert attrs + [] == attrs;
    out.Write(" >");
    out.Write(data);
    out.Write("</text>");
    TextClosed(old(out.text), out.text, position, offset, fontSize, fontFamily, fontWeight, data, style);
  }

  /** The opening, the attributes, the character data and the closing tag make the text element. */
  lemma TextClosed(t0: string, text: string, position: Point, offset: Point, fontSize: uint32, fontFamily: string,
                   fontWeight: string, data: string, style: PathProps)
    requires text == t0 + "<text" + RenderAll(TextAttributes(position, offset, fontSize, fontFamily, fontWeight, style))
                    + " >" + data + "</text>"
    ensures text == t0 + Tag(TextShape(position, offset, fontSize, fontFamily, fontWeight, data, style))
  {
    var attrs := RenderAll(TextAttributes(position, offset, fontSize, fontFamily, fontWeight, style));
    Associate5(t0, "<text", attrs, " >", data);
    ConcatAssociative(t0, "<text" + attrs + " >" + data, "</text>");
  }

  /** `RenderObject`, dispatched on the kind of shape. */
  method RenderObject(s: Shape, out: Stream)
    modifies out
    ensures out.text == old(out.text) + Tag(s)
  {
    match s
    case CircleShape(center, radius, style) =>
      RenderCircle(center, radius, style, out);
    case PolylineShape(points, style) =>
      RenderPolyline(points, style, out);
    case TextShape(position, offset, fontSize, fontFamily, fontWeight, data, style) =>
      RenderText(position, offset, fontSize, fontFamily, fontWeight, data, style, out);
  }

  /** `Object::Render`: the indent, the tag, then a line break. */
  method Render(s: Shape, ctx: RenderContext)
    modifies ctx.out
    ensures ctx.out.text == old(ctx.out.text) + Spaces(ctx.indent) + Tag(s) + "\n"
  {
    ctx.RenderIndent();
    RenderObject(s, ctx.out);
    ctx.out.Write("\n");
  }

  // ---------- builders ----------

  /** `Circle`: centre and radius, plus the style block. */
  class Circle {
    var center: Point
    var radius: int
    var style: PathProps

    constructor ()
      ensures center == Origin && radius == 1 && style == NoStyle
    {
      center := Origin;
      radius := 1;
      style := NoStyle;
    }

    /** The value a document stores when this circle is added. */
    function ToShape(): Shape
      reads this
    {
      CircleShape(center, radius, style)
    }

    method SetCenter(c: Point) returns (self: Circle)
      modifies this
      ensures center == c && radius == old(radius) && style == old(style)
      ensures self == this
    {
      center := c;
      self := this;
    }

    method SetRadius(r: int) returns (self: Circle)
      modifies this
      ensures radius == r && center == old(center) && style == old(style)
      ensures self == this
    {
      radius := r;
      self := this;
    }

    method SetFillColor(color: Color) returns (self: Circle)
      modifies this
      ensures style == old(style).(fill := Some(color))
      ensures center == old(center) && radius == old(radius) && self == this
    {
      style := style.(fill := Some(color));
      self := this;
    }

    method SetStrokeColor(color: Color) returns (self: Circle)
      modifies this
      ensures style == old(style).(stroke := Some(color))
      ensures center == old(center) && radius == old(radius) && self == this
    {
      style := style.(stroke := Some(color));
      self := this;
    }

    method SetStrokeWidth(width: int) returns (self: Circle)
      modifies this
      ensures style == old(style).(width := Some(width))
      ensures center == old(center) && radius == old(radius) && self == this
    {
      style := style.(width := Some(width));
      self := this;
    }

    method SetStrokeLineCap(cap: StrokeLineCap) returns (self: Circle)
      modifies this
      ensures style == old(style).(lineCap := Some(cap))
      ensures center == old(center) && radius == old(radius) && self == this
    {
      style := style.(lineCap := Some(cap));
      self := this;
    }

    method SetStrokeLineJoin(join: StrokeLineJoin) returns (self: Circle)
      modifies this
      ensures style == old(style).(lineJoin := Some(join))
      ensures center == old(center) && radius == old(radius) && self == this
    {
      style := style.(lineJoin := Some(join));
      self := this;
    }
  }

  /** `c.SetFillColor(first).SetFillColor(second)`: the later colour wins and the geometry is kept. */
  method ChainedFillLastWins(c: Circle, first: Color, second: Color) returns (self: Circle)
    modifies c
    ensures c.style == old(c.style).(fill := Some(second))
    ensures c.center == old(c.center) && c.radius == old(c.radius) && self == c
  {
    var chained := c.SetFillColor(first);
    self := chained.SetFillColor(second);
  }

  /** `Polyline`: a list of vertices that only grows, plus the style block. */
  class Polyline {
    var points: seq<Point>
    var style: PathProps

    constructor ()
      ensures points == [] && style == NoStyle
    {
      points := [];
      style := NoStyle;
    }

    function ToShape(): Shape
      reads this
    {
      PolylineShape(points, style)
    }

    /** `AddPoint`: one more vertex at the end. */
    method AddPoint(p: Point) returns (self: Polyline)
      modifies this
      ensures points == old(points) + [p] && style == old(style)
      ensures self == this
    {
      points := points + [p];
      self := this;
    }

    method SetFillColor(color: Color) returns (self: Polyline)
      modifies this
      ensures style == old(style).(fill := Some(color))
      ensures points == old(points) && self == this
    {
      style := style.(fill := Some(color));
      self := this;
    }

    method SetStrokeColor(color: Color) returns (self: Polyline)
      modifies this
      ensures style == old(style).(stroke := Some(color))
      ensures points == old(points) && self == this
    {
      style := style.(stroke := Some(color));
      self := this;
    }

    method SetStrokeWidth(width: int) returns (self: Polyline)
      modifies this
      ensures style == old(style).(width := Some(width))
      ensures points == old(points) && self == this
    {
      style := style.(width := Some(width));
      self := this;
    }

    method SetStrokeLineCap(cap: StrokeLineCap) returns (self: Polyline)
      modifies this
      ensures style == old(style).(lineCap := Some(cap))
      ensures points == old(points) && self == this
    {
      style := style.(lineCap := Some(cap));
      self := this;
    }

    method SetStrokeLineJoin(join: StrokeLineJoin) returns (self: Polyline)
      modifies this
      ensures style == old(style).(lineJoin := Some(join))
      ensures points == old(points) && self == this
    {
      style := style.(lineJoin := Some(join));
      self := this;
    }
  }

  /** `Text`: placement, font, the (escaped) character data, plus the style block. */
  class Text {
    var position: Point
    var offset: Point
    var fontSize: uint32
    var fontFamily: string
    var fontWeight: string
    var data: string
    var style: PathProps

    constructor ()
      ensures position == Origin && offset == Origin && fontSize == 1
      ensures fontFamily == "" && fontWeight == "" && data == "" && style == NoStyle
    {
      position := Origin;
      offset := Origin;
      fontSize := 1;
      fontFamily := "";
      fontWeight := "";
      data := "";
      style := NoStyle;
    }

    function ToShape(): Shape
      reads this
    {
      TextShape(position, offset, fontSize, fontFamily, fontWeight, data, style)
    }

    /** Every field except the style block is as it was. */
    twostate predicate PlacementUnchanged()
      reads this
    {
      position == old(position) && offset == old(offset) && fontSize == old(fontSize)
      && fontFamily == old(fontFamily) && fontWeight == old(fontWeight) && data == old(data)
    }

    method SetPosition(pos: Point) returns (self: Text)
      modifies this
      ensures ToShape() == TextShape(pos, old(offset), old(fontSize), old(fontFamily), old(fontWeight), old(data), old(style))
      ensures self == this
    {
      position := pos;
      self := this;
    }

    method SetOffset(off: Point) returns (self: Text)
      modifies this
      ensures ToShape() == TextShape(old(position), off, old(fontSize), old(fontFamily), old(fontWeight), old(data), old(style))
      ensures self == this
    {
      offset := off;
      self := this;
    }

    method SetFontSize(size: uint32) returns (self: Text)
      modifies this
      ensures ToShape() == TextShape(old(position), old(offset), size, old(fontFamily), old(fontWeight), old(data), old(style))
      ensures self == this
    {
      fontSize := size;
      self := this;
    }

    method SetFontFamily(family: string) returns (self: Text)
      modifies this
      ensures ToShape() == TextShape(old(position), old(offset), old(fontSize), family, old(fontWeight), old(data), old(style))
      ensures self == this
    {
      fontFamily := family;
      self := this;
    }

    method SetFontWeight(weight: string) returns (self: Text)
      modifies this
      ensures ToShape() == TextShape(old(position), old(offset), old(fontSize), old(fontFamily), weight, old(data), old(style))
      ensures self == this
    {
      fontWeight := weight;
      self := this;
    }

    /** `SetData`: stores the escaped form of `raw`; whatever was stored before is gone. */
    method SetData(raw: string) returns (self: Text)
      modifies this
      ensures data == Escape(raw)
      ensures ToShape() == TextShape(old(position), old(offset), old(fontSize), old(fontFamily), old(fontWeight), Escape(raw), old(style))
      ensures self == this
    {
      var screened := ScreenData(raw);
      data := screened;
      self := this;
    }

    method SetFillColor(color: Color) returns (self: Text)
      modifies this
      ensures style == old(style).(fill := Some(color))
      ensures PlacementUnchanged() && self == this
    {
      style := style.(fill := Some(color));
      self := this;
    }

    method SetStrokeColor(color: Color) returns (self: Text)
      modifies this
      ensures style == old(style).(stroke := Some(color))
      ensures PlacementUnchanged() && self == this
    {
      style := style.(stroke := Some(color));
      self := this;
    }

    method SetStrokeWidth(width: int) returns (self: Text)
      modifies this
      ensures style == old(style).(width := Some(width))
      ensures PlacementUnchanged() && self == this
    {
      style := style.(width := Some(width));
      self := this;
    }

    method SetStrokeLineCap(cap: StrokeLineCap) returns (self: Text)
      modifies this
      ensures style == old(style).(lineCap := Some(cap))
      ensures PlacementUnchanged() && self == this
    {
      style := style.(lineCap := Some(cap));
      self := this;
    }

    method SetStrokeLineJoin(join: StrokeLineJoin) returns (self: Text)
      modifies this
      ensures style == old(style).(lineJoin := Some(join))
      ensures PlacementUnchanged() && self == this
    {
      style := style.(lineJoin := Some(join));
      self := this;
    }
  }
}
