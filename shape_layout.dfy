/**
 * What the tags of svg.cpp look like once written: the polyline `points`
 * value read back vertex by vertex, the attributes a text element carries and
 * in which order, the tags of freshly built shapes, and the fact that no tag
 * spans more than one line unless its text does.
 */
module ShapeLayout {
  import opened Sequences
  import opened Options
  import opened Output
  import opened Style
  import opened Escaping
  import opened Shapes

  // ---------- polyline points ----------

  /** The text of each vertex, in order. */
  function PointTexts(points: seq<Point>): seq<string> {
    Map(points, PointText)
  }

  /** A vertex holds no space and no line break. */
  lemma PointTextNoBreak(p: Point)
    ensures forall i :: 0 <= i < |PointText(p)| ==> PointText(p)[i] != ' ' && PointText(p)[i] != '\n'
  {
  }

  /** A vertex is written as two numbers separated by the only comma. */
  lemma PointTextShape(p: Point)
    ensures Split(PointText(p), ',') == [FormatNumber(p.x), FormatNumber(p.y)]
  {
    var x, y := FormatNumber(p.x), FormatNumber(p.y);
    SplitWithoutSeparator(x, ',');
    SplitWithoutSeparator(y, ',');
    SplitAppend(x, y, ',');
  }

  /** Each vertex reads back as the point it was written from. */
  lemma PointTextRoundTrip(p: Point)
    ensures Split(PointText(p), ',') == [FormatNumber(p.x), FormatNumber(p.y)]
    ensures ParseNumber(Split(PointText(p), ',')[0]) == p.x
    ensures ParseNumber(Split(PointText(p), ',')[1]) == p.y
  {
    PointTextShape(p);
    FormatNumberRoundTrip(p.x);
    FormatNumberRoundTrip(p.y);
  }

  /** The `points` value splits at its spaces into exactly the vertices, in insertion order. */
  lemma PointTextHasNoSpace(p: Point)
    ensures Split(PointText(p), ' ') == [PointText(p)]
  {
    PointTextNoBreak(p);
    SplitWithoutSeparator(PointText(p), ' ');
  }

  lemma PointsValueSplitOne(p: Point)
    ensures Split(PointsValue([p]), ' ') == PointTexts([p])
  {
    PointTextHasNoSpace(p);
    assert [p][..0] == [];
  }

  lemma {:induction false} PointsValueSplit(points: seq<Point>)
    requires |points| > 0
    ensures Split(PointsValue(points), ' ') == PointTexts(points)
    decreases |points|
  {
    if |points| == 1 {
      assert points == [points[0]];
      PointsValueSplitOne(points[0]);
    } else {
      var t := PointText(points[|points| - 1]);
      PointTextHasNoSpace(points[|points| - 1]);
      var init := points[..|points| - 1];
      var v := PointsValue(init);
      assert PointsValue(points) == v + [' '] + t;
      SplitAppend(v, t, ' ');
      PointsValueSplit(init);
      assert PointTexts(points) == PointTexts(init) + [t];
    }
  }

  /** A polyline without vertices is written with an empty `points` value. */
  lemma EmptyPolylineTag()
    ensures PointsValue([]) == ""
    ensures Tag(PolylineShape([], NoStyle)) == "<polyline points=\"\" />"
  {
    var a := Attribute("points", "");
    NoStyleRendersNothing();
    assert PolylineAttributes([], NoStyle) == [a];
    RenderOne(a);
    assert AttributeText(a) == " points=\"\"";
    assert "<polyline" + " points=\"\"" + " />" == "<polyline points=\"\" />";
  }

  // ---------- freshly built shapes ----------

  lemma DefaultCircleAttributes()
    ensures CircleAttributes(Origin, 1, NoStyle) == [Attribute("cx", "0"), Attribute("cy", "0"), Attribute("r", "1")]
  {
    assert FormatNumber(0) == "0";
    assert FormatNumber(1) == "1";
  }

  lemma CircleTagIs(center: Point, radius: int, style: PathProps)
    ensures Tag(CircleShape(center, radius, style)) == "<circle" + RenderAll(CircleAttributes(center, radius, style)) + " />"
  {
  }

  /** A default circle (centre (0,0), radius 1, no style) is written as `<circle cx="0" cy="0" r="1" />`. */
  lemma DefaultCircleTag()
    ensures Tag(CircleShape(Origin, 1, NoStyle)) == "<circle" + " cx=\"0\"" + " cy=\"0\"" + " r=\"1\"" + " />"
  {
    DefaultCircleAttributes();
    RenderThree(Attribute("cx", "0"), Attribute("cy", "0"), Attribute("r", "1"));
    var a, b, c := AttributeText(Attribute("cx", "0")), AttributeText(Attribute("cy", "0")), AttributeText(Attribute("r", "1"));
    assert a == " cx=\"0\"";
    assert b == " cy=\"0\"";
    assert c == " r=\"1\"";
    CircleTagIs(Origin, 1, NoStyle);
    Associate4("<circle", a, b, c);
  }

  /** A default text element writes only its placement: position and offset (0,0), font size 1. */
  lemma DefaultTextAttributes()
    ensures TextAttributes(Origin, Origin, 1, "", "", NoStyle)
         == [Attribute("x", "0"), Attribute("y", "0"), Attribute("dx", "0"), Attribute("dy", "0"),
             Attribute("font-size", "1")]
  {
    assert FormatNumber(0) == "0";
    assert FormatNumber(1) == "1";
    assert StyleAttributes(NoStyle) == [];
  }

  lemma TextTagIs(position: Point, offset: Point, fontSize: uint32, fontFamily: string, fontWeight: string,
                  data: string, style: PathProps)
    ensures Tag(TextShape(position, offset, fontSize, fontFamily, fontWeight, data, style))
         == "<text" + RenderAll(TextAttributes(position, offset, fontSize, fontFamily, fontWeight, style)) + " >" + data + "</text>"
  {
  }

  lemma RenderFive(a: Attribute, b: Attribute, c: Attribute, d: Attribute, e: Attribute)
    ensures RenderAll([a, b, c, d, e])
         == AttributeText(a) + AttributeText(b) + AttributeText(c) + AttributeText(d) + AttributeText(e)
  {
    RenderAllAppend([a, b, c], [d, e]);
    assert [a, b, c] + [d, e] == [a, b, c, d, e];
    RenderThree(a, b, c);
    RenderAllAppend([d], [e]);
    assert [d] + [e] == [d, e];
    RenderOne(d);
    RenderOne(e);
    var x, y, z := AttributeText(a) + AttributeText(b) + AttributeText(c), AttributeText(d), AttributeText(e);
    ConcatAssociative(x, y, z);
  }

  /** A default text element (no font, no data, no style) is written as `<text x="0" y="0" dx="0" dy="0" font-size="1" ></text>`. */
  lemma DefaultTextTag()
    ensures Tag(TextShape(Origin, Origin, 1, "", "", "", NoStyle))
         == "<text" + " x=\"0\"" + " y=\"0\"" + " dx=\"0\"" + " dy=\"0\"" + " font-size=\"1\"" + " >" + "</text>"
  {
    DefaultTextAttributes();
    var xa, ya, dxa, dya, fsa := Attribute("x", "0"), Attribute("y", "0"), Attribute("dx", "0"), Attribute("dy", "0"),
                                 Attribute("font-size", "1");
    RenderFive(xa, ya, dxa, dya, fsa);
    var a, b, c, d, e := AttributeText(xa), AttributeText(ya), AttributeText(dxa), AttributeText(dya), AttributeText(fsa);
    assert a == " x=\"0\"";
    assert b == " y=\"0\"";
    assert c == " dx=\"0\"";
    assert d == " dy=\"0\"";
    assert e == " font-size=\"1\"";
    TextTagIs(Origin, Origin, 1, "", "", "", NoStyle);
    var open, body := "<text", a + b + c + d + e;
    assert open + body + " >" + "" == open + body + " >";
    ConcatAssociative(open, a + b + c + d, e);
    ConcatAssociative(open, a + b + c, d);
    ConcatAssociative(open, a + b, c);
    ConcatAssociative(open, a, b);
  }

  // ---------- text attributes ----------

  lemma PlacementNames(position: Point, offset: Point, fontSize: uint32, name: string)
    ensures HasAttribute(Placement(position, offset, fontSize), name) <==>
      name == "x" || name == "y" || name == "dx" || name == "dy" || name == "font-size"
  {
    var fixed := Placement(position, offset, fontSize);
    if name == "x" { assert fixed[0].name == name; }
    if name == "y" { assert fixed[1].name == name; }
    if name == "dx" { assert fixed[2].name == name; }
    if name == "dy" { assert fixed[3].name == name; }
    if name == "font-size" { assert fixed[4].name == name; }
  }

  lemma OptionalNamed(name: string, value: string, other: string)
    ensures HasAttribute(OptionalAttribute(name, value), other) <==> value != "" && other == name
  {
    if value != "" {
      assert OptionalAttribute(name, value)[0].name == name;
    }
  }

  /** A text element carries each font attribute iff it is not empty; the placement attributes always. */
  lemma TextFontAttributes(position: Point, offset: Point, fontSize: uint32, fontFamily: string, fontWeight: string,
                           style: PathProps, name: string)
    requires name == "font-family" || name == "font-weight" || name == "x" || name == "y"
          || name == "dx" || name == "dy" || name == "font-size"
    ensures HasAttribute(TextAttributes(position, offset, fontSize, fontFamily, fontWeight, style), name) <==>
      (name == "font-family" ==> fontFamily != "") && (name == "font-weight" ==> fontWeight != "")
  {
    var a := StyleAttributes(style);
    var b := Placement(position, offset, fontSize);
    var c := OptionalAttribute("font-family", fontFamily);
    var d := OptionalAttribute("font-weight", fontWeight);
    HasAttributeAppend(a, b, name);
    HasAttributeAppend(a + b, c, name);
    HasAttributeAppend(a + b + c, d, name);
    HasStyleAttribute(style, name);
    PlacementNames(position, offset, fontSize, name);
    OptionalNamed("font-family", fontFamily, name);
    OptionalNamed("font-weight", fontWeight, name);
  }

  /** The names a text element writes after its style are not style attributes. */
  lemma NotStyleNames()
    ensures StyleRank("x") < 0 && StyleRank("y") < 0 && StyleRank("dx") < 0 && StyleRank("dy") < 0
    ensures StyleRank("font-size") < 0 && StyleRank("font-family") < 0 && StyleRank("font-weight") < 0
  {
  }

  /** What a text element writes after its style: placement, then family and weight when set. */
  function TextTail(position: Point, offset: Point, fontSize: uint32, fontFamily: string, fontWeight: string): seq<Attribute> {
    Placement(position, offset, fontSize) + OptionalAttribute("font-family", fontFamily)
    + OptionalAttribute("font-weight", fontWeight)
  }

  lemma TextTailNotStyle(position: Point, offset: Point, fontSize: uint32, fontFamily: string, fontWeight: string)
    ensures var rest := TextTail(position, offset, fontSize, fontFamily, fontWeight);
      5 <= |rest| && rest[0].name == "x" && forall i :: 0 <= i < |rest| ==> StyleRank(rest[i].name) < 0
  {
    var p := Placement(position, offset, fontSize);
    var f := OptionalAttribute("font-family", fontFamily);
    var w := OptionalAttribute("font-weight", fontWeight);
    var rest := p + f + w;
    NotStyleNames();
    forall i | 0 <= i < |rest|
      ensures StyleRank(rest[i].name) < 0
    {
      if i < |p| {
        assert rest[i] == p[i];
      } else if i < |p| + |f| {
        assert rest[i] == f[i - |p|];
      } else {
        assert rest[i] == w[i - |p| - |f|];
      }
    }
    assert rest[0] == p[0];
  }

  /**
   * A text element starts with its style attributes, in the fixed style order,
   * then `x` comes; no style attribute follows.
   */
  lemma TextAttributeOrder(position: Point, offset: Point, fontSize: uint32, fontFamily: string, fontWeight: string,
                           style: PathProps)
    ensures var attrs := TextAttributes(position, offset, fontSize, fontFamily, fontWeight, style);
      var k := |StyleAttributes(style)|;
      k < |attrs| && attrs[..k] == StyleAttributes(style) && InStyleOrder(attrs[..k]) && attrs[k].name == "x"
      && forall i :: k <= i < |attrs| ==> StyleRank(attrs[i].name) < 0
  {
    var attrs := TextAttributes(position, offset, fontSize, fontFamily, fontWeight, style);
    var head := StyleAttributes(style);
    var rest := TextTail(position, offset, fontSize, fontFamily, fontWeight);
    StyleAttributesInOrder(style);
    TextTailNotStyle(position, offset, fontSize, fontFamily, fontWeight);
    Associate4(head, Placement(position, offset, fontSize), OptionalAttribute("font-family", fontFamily),
               OptionalAttribute("font-weight", fontWeight));
    assert attrs[..|head|] == head;
    assert attrs[|head|] == rest[0];
    forall i | |head| <= i < |attrs|
      ensures StyleRank(attrs[i].name) < 0
    {
      assert attrs[i] == rest[i - |head|];
    }
  }

  // ---------- one line per tag ----------

  /** Every name and value is free of line breaks. */
  predicate AttributesSingleLine(attrs: seq<Attribute>) {
    forall i :: 0 <= i < |attrs| ==> SingleLine(attrs[i].name) && SingleLine(attrs[i].value)
  }

  lemma AttributeTextSingleLine(a: Attribute)
    requires SingleLine(a.name) && SingleLine(a.value)
    ensures SingleLine(AttributeText(a))
  {
    SingleLineAppend(" ", a.name);
    SingleLineAppend(" " + a.name, "=\"");
    SingleLineAppend(" " + a.name + "=\"", a.value);
    SingleLineAppend(" " + a.name + "=\"" + a.value, "\"");
  }

  lemma {:induction false} RenderAllSingleLine(attrs: seq<Attribute>)
    requires AttributesSingleLine(attrs)
    ensures SingleLine(RenderAll(attrs))
    decreases |attrs|
  {
    if attrs != [] {
      var init := attrs[..|attrs| - 1];
      RenderAllSingleLine(init);
      AttributeTextSingleLine(attrs[|attrs| - 1]);
      SingleLineAppend(RenderAll(init), AttributeText(attrs[|attrs| - 1]));
    }
  }

  lemma AttributesSingleLineAppend(a: seq<Attribute>, b: seq<Attribute>)
    requires AttributesSingleLine(a) && AttributesSingleLine(b)
    ensures AttributesSingleLine(a + b)
  {
    forall i | |a| <= i < |a + b|
      ensures SingleLine((a + b)[i].name) && SingleLine((a + b)[i].value)
    {
      assert (a + b)[i] == b[i - |a|];
    }
  }

  lemma StyleWordsSingleLine(p: PathProps)
    ensures SingleLine("fill") && SingleLine("stroke") && SingleLine("stroke-width")
    ensures SingleLine("stroke-linecap") && SingleLine("stroke-linejoin") && SingleLine("")
    ensures p.lineCap.Some? ==> SingleLine(LineCapText(p.lineCap.value))
    ensures p.lineJoin.Some? ==> SingleLine(LineJoinText(p.lineJoin.value))
  {
  }

  lemma StyleAttributesSingleLine(p: PathProps)
    ensures AttributesSingleLine(StyleAttributes(p))
  {
    StyleWordsSingleLine(p);
    if p.width.Some? {
      NumeralSingleLine(FormatNumber(p.width.value));
    }
    var a, b, c, d, e := FillAttribute(p), StrokeAttribute(p), WidthAttribute(p), LineCapAttribute(p), LineJoinAttribute(p);
    assert AttributesSingleLine(a) && AttributesSingleLine(b) && AttributesSingleLine(c);
    assert AttributesSingleLine(d) && AttributesSingleLine(e);
    AttributesSingleLineAppend(a, b);
    AttributesSingleLineAppend(a + b, c);
    AttributesSingleLineAppend(a + b + c, d);
    AttributesSingleLineAppend(a + b + c + d, e);
  }

  lemma PointTextSingleLine(p: Point)
    ensures SingleLine(PointText(p))
  {
    PointTextNoBreak(p);
  }

  lemma {:induction false} PointsValueSingleLine(points: seq<Point>)
    ensures SingleLine(PointsValue(points))
    decreases |points|
  {
    if |points| == 1 {
      PointTextSingleLine(points[0]);
    } else if |points| > 1 {
      var init, t := PointsValue(points[..|points| - 1]), PointText(points[|points| - 1]);
      assert PointsValue(points) == init + " " + t;
      PointTextSingleLine(points[|points| - 1]);
      PointsValueSingleLine(points[..|points| - 1]);
      SingleLineAppend(init, " ");
      SingleLineAppend(init + " ", t);
    }
  }

  /** The fixed words of every tag. */
  lemma TagWordsSingleLine()
    ensures SingleLine("<circle") && SingleLine("<polyline") && SingleLine("<text")
    ensures SingleLine(" />") && SingleLine(" >") && SingleLine("</text>")
    ensures SingleLine("cx") && SingleLine("cy") && SingleLine("r") && SingleLine("points")
    ensures SingleLine("x") && SingleLine("y") && SingleLine("dx") && SingleLine("dy")
    ensures SingleLine("font-size") && SingleLine("font-family") && SingleLine("font-weight")
  {
  }

  /** An opening, single-line attributes and a closing make a single line. */
  lemma ElementSingleLine(open: string, attrs: seq<Attribute>, close: string)
    requires SingleLine(open) && SingleLine(close) && AttributesSingleLine(attrs)
    ensures SingleLine(open + RenderAll(attrs) + close)
  {
    RenderAllSingleLine(attrs);
    SingleLineAppend(open, RenderAll(attrs));
    SingleLineAppend(open + RenderAll(attrs), close);
  }

  lemma CircleTagSingleLine(center: Point, radius: int, style: PathProps)
    ensures SingleLine(Tag(CircleShape(center, radius, style)))
  {
    NumeralSingleLine(FormatNumber(center.x));
    NumeralSingleLine(FormatNumber(center.y));
    NumeralSingleLine(FormatNumber(radius));
    var head := [Attribute("cx", FormatNumber(center.x)), Attribute("cy", FormatNumber(center.y)),
                 Attribute("r", FormatNumber(radius))];
    TagWordsSingleLine();
    assert AttributesSingleLine(head);
    StyleAttributesSingleLine(style);
    AttributesSingleLineAppend(head, StyleAttributes(style));
    ElementSingleLine("<circle", CircleAttributes(center, radius, style), " />");
  }

  lemma PolylineTagSingleLine(points: seq<Point>, style: PathProps)
    ensures SingleLine(Tag(PolylineShape(points, style)))
  {
    PointsValueSingleLine(points);
    var head := [Attribute("points", PointsValue(points))];
    TagWordsSingleLine();
    assert AttributesSingleLine(head);
    StyleAttributesSingleLine(style);
    AttributesSingleLineAppend(head, StyleAttributes(style));
    ElementSingleLine("<polyline", PolylineAttributes(points, style), " />");
  }

  lemma PlacementSingleLine(position: Point, offset: Point, fontSize: uint32)
    ensures AttributesSingleLine(Placement(position, offset, fontSize))
  {
    NumeralSingleLine(FormatNumber(position.x));
    NumeralSingleLine(FormatNumber(position.y));
    NumeralSingleLine(FormatNumber(offset.x));
    NumeralSingleLine(FormatNumber(offset.y));
    NumeralSingleLine(FormatNumber(fontSize));
    TagWordsSingleLine();
  }

  lemma TextTagSingleLine(position: Point, offset: Point, fontSize: uint32, fontFamily: string, fontWeight: string,
                          data: string, style: PathProps)
    requires SingleLine(fontFamily) && SingleLine(fontWeight) && SingleLine(data)
    ensures SingleLine(Tag(TextShape(position, offset, fontSize, fontFamily, fontWeight, data, style)))
  {
    var a, b := StyleAttributes(style), Placement(position, offset, fontSize);
    var c, d := OptionalAttribute("font-family", fontFamily), OptionalAttribute("font-weight", fontWeight);
    StyleAttributesSingleLine(style);
    PlacementSingleLine(position, offset, fontSize);
    TagWordsSingleLine();
    assert AttributesSingleLine(c) && AttributesSingleLine(d);
    AttributesSingleLineAppend(a, b);
    AttributesSingleLineAppend(a + b, c);
    AttributesSingleLineAppend(a + b + c, d);
    var attrs := TextAttributes(position, offset, fontSize, fontFamily, fontWeight, style);
    ElementSingleLine("<text", attrs, " >");
    SingleLineAppend("<text" + RenderAll(attrs) + " >", data);
    SingleLineAppend("<text" + RenderAll(attrs) + " >" + data, "</text>");
  }

  /** A tag takes one line, unless a text element's font names or character data hold a line break. */
  lemma TagSingleLine(s: Shape)
    requires s.TextShape? ==> SingleLine(s.fontFamily) && SingleLine(s.fontWeight) && SingleLine(s.data)
    ensures SingleLine(Tag(s))
  {
    match s
    case CircleShape(center, radius, style) =>
      CircleTagSingleLine(center, radius, style);
    case PolylineShape(points, style) =>
      PolylineTagSingleLine(points, style);
    case TextShape(position, offset, fontSize, fontFamily, fontWeight, data, style) =>
      TextTagSingleLine(position, offset, fontSize, fontFamily, fontWeight, data, style);
  }

  // ---------- character data ----------

  /** Escaping adds no line break. */
  lemma {:induction false} EscapeSingleLine(s: string)
    requires SingleLine(s)
    ensures SingleLine(Escape(s))
    decreases |s|
  {
    if s != [] {
      EscapeLast(s);
      SingleLineAppend(s[..|s| - 1], [s[|s| - 1]]);
      assert s == s[..|s| - 1] + [s[|s| - 1]];
      EscapeSingleLine(s[..|s| - 1]);
      SingleLineAppend(Escape(s[..|s| - 1]), Entity(s[|s| - 1]));
    }
  }

  /**
   * The character data `SetData` stores cannot end the element early or open
   * another one, and it reads back as the original text.
   */
  lemma TextDataIsInert(raw: string)
    ensures forall i :: 0 <= i < |Escape(raw)| ==> Escape(raw)[i] !in {'<', '>', '"', '\''}
    ensures Unescape(Escape(raw)) == raw
    ensures SingleLine(raw) ==> SingleLine(Escape(raw))
  {
    EscapeLeavesNoMarkup(raw);
    UnescapeEscape(raw);
    if SingleLine(raw) {
      EscapeSingleLine(raw);
    }
  }
}
