/**
 * Colours, the stroke enums and the `PathProps` block of five optional style
 * attributes shared by every shape (svg.h), together with the attribute list
 * the block renders to.
 */
module Style {
  import opened Options
  import opened Output
  import opened Sequences

  type uint8 = n: int | 0 <= n < 256

  /**
   * A colour: unset, a named colour, RGB or RGBA. The model carries colours
   * only as values: rendering never prints them.
   */
  datatype Color =
    | NoColor
    | Named(name: string)
    | Rgb(red: uint8, green: uint8, blue: uint8)
    | Rgba(red: uint8, green: uint8, blue: uint8, opacity: real)

  datatype StrokeLineCap = Butt | Round | Square

  datatype StrokeLineJoin = Arcs | Bevel | Miter | MiterClip | Round

  /** `operator<<(ostream&, StrokeLineCap)`. */
  function LineCapText(cap: StrokeLineCap): (r: string)
    ensures ParseLineCap(r) == Some(cap)
  {
    match cap
    case Butt => "butt"
    case Round => "round"
    case Square => "square"
  }

  /** `operator<<(ostream&, StrokeLineJoin)`. */
  function LineJoinText(join: StrokeLineJoin): (r: string)
    ensures ParseLineJoin(r) == Some(join)
  {
    match join
    case Arcs => "arcs"
    case Bevel => "bevel"
    case Miter => "miter"
    case MiterClip => "miter-clip"
    case Round => "round"
  }

  /** The line cap an SVG reader takes from a `stroke-linecap` value. */
  function ParseLineCap(s: string): Option<StrokeLineCap> {
    if s == "butt" then Some(Butt)
    else if s == "round" then Some(StrokeLineCap.Round)
    else if s == "square" then Some(Square)
    else None
  }

  /** The line join an SVG reader takes from a `stroke-linejoin` value. */
  function ParseLineJoin(s: string): Option<StrokeLineJoin> {
    if s == "arcs" then Some(Arcs)
    else if s == "bevel" then Some(Bevel)
    else if s == "miter" then Some(Miter)
    else if s == "miter-clip" then Some(MiterClip)
    else if s == "round" then Some(StrokeLineJoin.Round)
    else None
  }

  /** Distinct line caps are written as distinct words. */
  lemma LineCapTextInjective(a: StrokeLineCap, b: StrokeLineCap)
    ensures LineCapText(a) == LineCapText(b) ==> a == b
  {
  }

  /** Distinct line joins are written as distinct words. */
  lemma LineJoinTextInjective(a: StrokeLineJoin, b: StrokeLineJoin)
    ensures LineJoinText(a) == LineJoinText(b) ==> a == b
  {
  }

  /**
   * The five optional style attributes of `PathProps`; `None` means the
   * attribute was never set. Stroke widths are integers (see `FormatNumber`).
   */
  datatype PathProps = PathProps(
    fill: Option<Color>,
    stroke: Option<Color>,
    width: Option<int>,
    lineCap: Option<StrokeLineCap>,
    lineJoin: Option<StrokeLineJoin>)

  /** A freshly constructed `PathProps`: nothing set. */
  const NoStyle := PathProps(None, None, None, None, None)

  // ---------- attributes ----------

  /** One rendered attribute `name="value"`. */
  datatype Attribute = Attribute(name: string, value: string)

  /** ` name="value"`, with the leading space every attribute is written with. */
  function AttributeText(a: Attribute): string {
    " " + a.name + "=\"" + a.value + "\""
  }

  /** The attributes written one after another, in order. */
  function RenderAll(attrs: seq<Attribute>): string {
    if attrs == [] then ""
    else RenderAll(attrs[..|attrs| - 1]) + AttributeText(attrs[|attrs| - 1])
  }

  lemma {:induction false} RenderAllAppend(a: seq<Attribute>, b: seq<Attribute>)
    ensures RenderAll(a + b) == RenderAll(a) + RenderAll(b)
    decreases |b|
  {
    if b == [] {
      assert a + b == a;
    } else {
      var b', x := b[..|b| - 1], b[|b| - 1];
      assert (a + b)[..|a + b| - 1] == a + b';
      assert (a + b)[|a + b| - 1] == x;
      calc {
        RenderAll(a + b);
        RenderAll(a + b') + AttributeText(x);
        { RenderAllAppend(a, b'); }
        RenderAll(a) + RenderAll(b') + AttributeText(x);
        { ConcatAssociative(RenderAll(a), RenderAll(b'), AttributeText(x)); }
        RenderAll(a) + (RenderAll(b') + AttributeText(x));
      }
    }
  }

  lemma RenderOne(a: Attribute)
    ensures RenderAll([a]) == AttributeText(a)
  {
    assert [a][..0] == [];
  }

  /** Whether some attribute in `attrs` is called `name`. */
  predicate HasAttribute(attrs: seq<Attribute>, name: string) {
    exists i :: 0 <= i < |attrs| && attrs[i].name == name
  }

  lemma HasAttributeAppend(a: seq<Attribute>, b: seq<Attribute>, name: string)
    ensures HasAttribute(a + b, name) <==> HasAttribute(a, name) || HasAttribute(b, name)
  {
    if HasAttribute(a + b, name) {
      var i :| 0 <= i < |a + b| && (a + b)[i].name == name;
      if i >= |a| {
        assert b[i - |a|].name == name;
      }
    }
    if HasAttribute(a, name) {
      var i :| 0 <= i < |a| && a[i].name == name;
      assert (a + b)[i].name == name;
    }
    if HasAttribute(b, name) {
      var i :| 0 <= i < |b| && b[i].name == name;
      assert (a + b)[|a| + i].name == name;
    }
  }

  /** Position of a style attribute in the fixed order fill, stroke, stroke-width, stroke-linecap, stroke-linejoin. */
  function StyleRank(name: string): int {
    if name == "fill" then 0
    else if name == "stroke" then 1
    else if name == "stroke-width" then 2
    else if name == "stroke-linecap" then 3
    else if name == "stroke-linejoin" then 4
    else -1
  }

  /** Every attribute is a style attribute and they follow the fixed order. */
  predicate InStyleOrder(attrs: seq<Attribute>) {
    (forall i :: 0 <= i < |attrs| ==> 0 <= StyleRank(attrs[i].name))
    && forall i, j :: 0 <= i < j < |attrs| ==> StyleRank(attrs[i].name) < StyleRank(attrs[j].name)
  }

  /** At most one attribute, of the given rank. */
  predicate RankedPiece(more: seq<Attribute>, rank: int) {
    |more| <= 1 && forall i :: 0 <= i < |more| ==> StyleRank(more[i].name) == rank
  }

  /** The attribute a field renders to when present, none when absent. */
  function FillAttribute(p: PathProps): seq<Attribute> {
    // The colour itself is not written: the value stays empty.
    if p.fill.Some? then [Attribute("fill", "")] else []
  }

  function StrokeAttribute(p: PathProps): seq<Attribute> {
    if p.stroke.Some? then [Attribute("stroke", "")] else []
  }

  function WidthAttribute(p: PathProps): seq<Attribute> {
    if p.width.Some? then [Attribute("stroke-width", FormatNumber(p.width.value))] else []
  }

  function LineCapAttribute(p: PathProps): seq<Attribute> {
    if p.lineCap.Some? then [Attribute("stroke-linecap", LineCapText(p.lineCap.value))] else []
  }

  function LineJoinAttribute(p: PathProps): seq<Attribute> {
    if p.lineJoin.Some? then [Attribute("stroke-linejoin", LineJoinText(p.lineJoin.value))] else []
  }

  /** What `PathProps::RenderAttributes` writes, as a list of attributes. */
  function StyleAttributes(p: PathProps): seq<Attribute> {
    FillAttribute(p) + StrokeAttribute(p) + WidthAttribute(p) + LineCapAttribute(p) + LineJoinAttribute(p)
  }

  lemma AppendInStyleOrder(attrs: seq<Attribute>, more: seq<Attribute>, rank: int)
    requires InStyleOrder(attrs) && 0 <= rank
    requires forall i :: 0 <= i < |attrs| ==> StyleRank(attrs[i].name) < rank
    requires RankedPiece(more, rank)
    ensures InStyleOrder(attrs + more)
    ensures forall i :: 0 <= i < |attrs + more| ==> StyleRank((attrs + more)[i].name) <= rank
  {
  }

  lemma PiecesRanked(p: PathProps)
    ensures RankedPiece(FillAttribute(p), 0)
    ensures RankedPiece(StrokeAttribute(p), 1)
    ensures RankedPiece(WidthAttribute(p), 2)
    ensures RankedPiece(LineCapAttribute(p), 3)
    ensures RankedPiece(LineJoinAttribute(p), 4)
  {
  }

  /** The attributes come in the fixed order fill, stroke, stroke-width, stroke-linecap, stroke-linejoin. */
  lemma StyleAttributesInOrder(p: PathProps)
    ensures InStyleOrder(StyleAttributes(p))
  {
    var a0 := FillAttribute(p);
    var a1 := a0 + StrokeAttribute(p);
    var a2 := a1 + WidthAttribute(p);
    var a3 := a2 + LineCapAttribute(p);
    PiecesRanked(p);
    assert InStyleOrder(a0);
    AppendInStyleOrder(a0, StrokeAttribute(p), 1);
    AppendInStyleOrder(a1, WidthAttribute(p), 2);
    AppendInStyleOrder(a2, LineCapAttribute(p), 3);
    AppendInStyleOrder(a3, LineJoinAttribute(p), 4);
  }

  /** Which name each field renders, and when. */
  lemma PiecesNamed(p: PathProps, name: string)
    ensures HasAttribute(FillAttribute(p), name) <==> p.fill.Some? && name == "fill"
    ensures HasAttribute(StrokeAttribute(p), name) <==> p.stroke.Some? && name == "stroke"
    ensures HasAttribute(WidthAttribute(p), name) <==> p.width.Some? && name == "stroke-width"
    ensures HasAttribute(LineCapAttribute(p), name) <==> p.lineCap.Some? && name == "stroke-linecap"
    ensures HasAttribute(LineJoinAttribute(p), name) <==> p.lineJoin.Some? && name == "stroke-linejoin"
  {
    if p.fill.Some? {
      assert FillAttribute(p)[0].name == "fill";
    }
    if p.stroke.Some? {
      assert StrokeAttribute(p)[0].name == "stroke";
    }
    if p.width.Some? {
      assert WidthAttribute(p)[0].name == "stroke-width";
    }
    if p.lineCap.Some? {
      assert LineCapAttribute(p)[0].name == "stroke-linecap";
    }
    if p.lineJoin.Some? {
      assert LineJoinAttribute(p)[0].name == "stroke-linejoin";
    }
  }

  /** A name is among the style attributes iff the field that renders it is set. */
  lemma HasStyleAttribute(p: PathProps, name: string)
    ensures HasAttribute(StyleAttributes(p), name) <==>
      (p.fill.Some? && name == "fill") || (p.stroke.Some? && name == "stroke") ||
      (p.width.Some? && name == "stroke-width") || (p.lineCap.Some? && name == "stroke-linecap") ||
      (p.lineJoin.Some? && name == "stroke-linejoin")
  {
    var a1 := FillAttribute(p) + StrokeAttribute(p);
    var a2 := a1 + WidthAttribute(p);
    var a3 := a2 + LineCapAttribute(p);
    HasAttributeAppend(FillAttribute(p), StrokeAttribute(p), name);
    HasAttributeAppend(a1, WidthAttribute(p), name);
    HasAttributeAppend(a2, LineCapAttribute(p), name);
    HasAttributeAppend(a3, LineJoinAttribute(p), name);
    PiecesNamed(p, name);
  }

  /** Each attribute is written iff its field is set. */
  lemma StyleAttributesPresence(p: PathProps)
    ensures HasAttribute(StyleAttributes(p), "fill") <==> p.fill.Some?
    ensures HasAttribute(StyleAttributes(p), "stroke") <==> p.stroke.Some?
    ensures HasAttribute(StyleAttributes(p), "stroke-width") <==> p.width.Some?
    ensures HasAttribute(StyleAttributes(p), "stroke-linecap") <==> p.lineCap.Some?
    ensures HasAttribute(StyleAttributes(p), "stroke-linejoin") <==> p.lineJoin.Some?
  {
    HasStyleAttribute(p, "fill");
    HasStyleAttribute(p, "stroke");
    HasStyleAttribute(p, "stroke-width");
    HasStyleAttribute(p, "stroke-linecap");
    HasStyleAttribute(p, "stroke-linejoin");
  }

  /** A set field is written with the value it renders to; fill and stroke with an empty value. */
  lemma StyleAttributeValues(p: PathProps)
    ensures p.fill.Some? ==> Attribute("fill", "") in StyleAttributes(p)
    ensures p.stroke.Some? ==> Attribute("stroke", "") in StyleAttributes(p)
    ensures p.width.Some? ==> Attribute("stroke-width", FormatNumber(p.width.value)) in StyleAttributes(p)
    ensures p.lineCap.Some? ==> Attribute("stroke-linecap", LineCapText(p.lineCap.value)) in StyleAttributes(p)
    ensures p.lineJoin.Some? ==> Attribute("stroke-linejoin", LineJoinText(p.lineJoin.value)) in StyleAttributes(p)
  {
  }

  /** A fresh `PathProps` renders nothing. */
  lemma NoStyleRendersNothing()
    ensures StyleAttributes(NoStyle) == []
    ensures RenderAll(StyleAttributes(NoStyle)) == ""
  {
  }

  /** Setting an attribute twice keeps only the second value, and so renders only the second. */
  lemma LastWriteWins(p: PathProps, first: PathProps, second: PathProps)
    ensures p.(fill := first.fill).(fill := second.fill) == p.(fill := second.fill)
    ensures p.(stroke := first.stroke).(stroke := second.stroke) == p.(stroke := second.stroke)
    ensures p.(width := first.width).(width := second.width) == p.(width := second.width)
    ensures p.(lineCap := first.lineCap).(lineCap := second.lineCap) == p.(lineCap := second.lineCap)
    ensures p.(lineJoin := first.lineJoin).(lineJoin := second.lineJoin) == p.(lineJoin := second.lineJoin)
  {
  }

  /** Colour values never reach the output: only whether fill and stroke are set matters. */
  lemma ColorsNotRendered(p: PathProps, fill: Color, stroke: Color)
    ensures p.fill.Some? ==> StyleAttributes(p.(fill := Some(fill))) == StyleAttributes(p)
    ensures p.stroke.Some? ==> StyleAttributes(p.(stroke := Some(stroke))) == StyleAttributes(p)
  {
  }

  /** Pieces written one after another render their concatenation. */
  lemma {:induction false} WrittenPieces(a: seq<Attribute>, b: seq<Attribute>, c: seq<Attribute>, d: seq<Attribute>, e: seq<Attribute>,
                                         t0: string, t1: string, t2: string, t3: string, t4: string, t5: string)
    requires t1 == t0 + RenderAll(a)
    requires t2 == t1 + RenderAll(b)
    requires t3 == t2 + RenderAll(c)
    requires t4 == t3 + RenderAll(d)
    requires t5 == t4 + RenderAll(e)
    ensures t5 == t0 + RenderAll(a + b + c + d + e)
  {
    RenderAllAppend(a, b);
    ConcatAssociative(t0, RenderAll(a), RenderAll(b));
    RenderAllAppend(a + b, c);
    ConcatAssociative(t0, RenderAll(a + b), RenderAll(c));
    RenderAllAppend(a + b + c, d);
    ConcatAssociative(t0, RenderAll(a + b + c), RenderAll(d));
    RenderAllAppend(a + b + c + d, e);
    ConcatAssociative(t0, RenderAll(a + b + c + d), RenderAll(e));
  }

  /** The opening of each style attribute as `RenderAttributes` writes it. */
  lemma StyleOpenings()
    ensures " fill=\"" == " " + "fill" + "=\""
    ensures " stroke=\"" == " " + "stroke" + "=\""
    ensures " stroke-width=\"" == " " + "stroke-width" + "=\""
    ensures " stroke-linecap=\"" == " " + "stroke-linecap" + "=\""
    ensures " stroke-linejoin=\"" == " " + "stroke-linejoin" + "=\""
  {
    StrokeOpenings();
  }

  /**
   * The last two openings of `StyleOpenings`, proved on their own: that split
   * only keeps the proof of `StyleOpenings` cheap.
   */
  lemma StrokeOpenings()
    ensures " stroke-linecap=\"" == " " + "stroke-linecap" + "=\""
    ensures " stroke-linejoin=\"" == " " + "stroke-linejoin" + "=\""
  {
  }

  /** Writing `opening`, the value and a closing quote wrote one attribute. */
  lemma WroteAttribute(before: string, text: string, opening: string, name: string, value: string)
    requires opening == " " + name + "=\""
    requires text == before + opening + value + "\""
    ensures text == before + RenderAll([Attribute(name, value)])
  {
    RenderOne(Attribute(name, value));
    assert text == before + (opening + value + "\"");
  }

  /** A field's attribute written when set, nothing written otherwise. */
  lemma WrotePiece(before: string, after: string, piece: seq<Attribute>, present: bool)
    requires present ==> |piece| == 1 && after == before + RenderAll([piece[0]])
    requires !present ==> piece == [] && after == before
    ensures after == before + RenderAll(piece)
  {
    if present {
      assert piece == [piece[0]];
    }
  }

  /** `out << opening << value << "\""`: one attribute whose opening is written as a single literal. */
  method WriteAttribute(opening: string, name: string, value: string, out: Stream)
    requires opening == " " + name + "=\""
    modifies out
    ensures out.text == old(out.text) + RenderAll([Attribute(name, value)])
  {
    out.Write(opening);
    out.Write(value);
    out.Write("\"");
    WroteAttribute(old(out.text), out.text, opening, name, value);
  }

  /** `PathProps::RenderAttributes`: writes each set attribute, in the fixed order. */
  method RenderAttributes(p: PathProps, out: Stream)
    modifies out
    ensures out.text == old(out.text) + RenderAll(StyleAttributes(p))
  {
    ghost var t0 := out.text;
    StyleOpenings();
    if p.fill.Some? {
      // The colour itself is not written: only the opening and the closing quote.
      WriteAttribute(" fill=\"", "fill", "", out);
    }
    ghost var t1 := out.text;
    WrotePiece(t0, t1, FillAttribute(p), p.fill.Some?);
    if p.stroke.Some? {
      WriteAttribute(" stroke=\"", "stroke", "", out);
    }
    ghost var t2 := out.text;
    WrotePiece(t1, t2, StrokeAttribute(p), p.stroke.Some?);
    if p.width.Some? {
      WriteAttribute(" stroke-width=\"", "stroke-width", FormatNumber(p.width.value), out);
    }
    ghost var t3 := out.text;
    WrotePiece(t2, t3, WidthAttribute(p), p.width.Some?);
    if p.lineCap.Some? {
      WriteAttribute(" stroke-linecap=\"", "stroke-linecap", LineCapText(p.lineCap.value), out);
    }
    ghost var t4 := out.text;
    WrotePiece(t3, t4, LineCapAttribute(p), p.lineCap.Some?);
    if p.lineJoin.Some? {
      WriteAttribute(" stroke-linejoin=\"", "stroke-linejoin", LineJoinText(p.lineJoin.value), out);
    }
    WrotePiece(t4, out.text, LineJoinAttribute(p), p.lineJoin.Some?);
    WrittenPieces(FillAttribute(p), StrokeAttribute(p), WidthAttribute(p), LineCapAttribute(p), LineJoinAttribute(p),
                  t0, t1, t2, t3, t4, out.text);
  }
}
