# SVG object model and serialiser, in Dafny

This project models the `svg` library of `svg.h` and `svg.cpp`. The library is
a small in-memory SVG writer:

- the `PathProps` block of five optional style attributes (fill, stroke,
  stroke width, line cap, line join), shared by every shape;
- `RenderContext`, which carries the output stream, the indent step and the
  current indent;
- the three shapes `Circle`, `Polyline` and `Text`, each a builder with
  chaining setters and a fixed tag layout;
- the escaping of the five XML special characters in a text's character data
  (`Text::ScreenCharacter`, `Text::ScreenData`);
- `Document`, which keeps its objects in insertion order and writes the whole
  file: XML declaration, root `<svg>` element, each object's tag followed by a
  line break (one line per object when no text's font names or data hold a
  line break), closing tag.

The output stream is a class `Output.Stream` whose `text` field grows with every
write. Each render operation is a method that is proved to append exactly a
specification function of its input (`Style.StyleAttributes`, `Shapes.Tag`,
`Documents.DocumentText`). The properties the library promises are then
lemmas about those functions: attribute order and presence, the points layout,
the default tags, the escaping round trip, and the line structure of a document.

Modules, one per file:

| file | module | models |
|---|---|---|
| options.dfy | Options | an `Option` datatype for the C++ `std::optional` fields |
| sequences.dfy | Sequences | a left-to-right `Map` and concatenation helpers |
| output.dfy | Output | the stream, the number formatter, and `Split` for reading output back |
| style.dfy | Style | colours, the stroke enums, `PathProps` and `RenderAttributes` |
| context.dfy | Context | `RenderContext` |
| escaping.dfy | Escaping | `ScreenCharacter` and `ScreenData` |
| shapes.dfy | Shapes | the shape value, the tag layouts, rendering, and the builder classes |
| shape_layout.dfy | ShapeLayout | properties of the tag layouts |
| document.dfy | Documents | `Document` |

The model follows the code as written; in particular:

- Text data is escaped once, when `SetData` stores it (svg.cpp:126-130). It is
  not escaped at render time.
- Colours are never printed. A present fill or stroke renders as ` fill=""` or
  ` stroke=""`, because the colour visitor calls are commented out
  (svg.h:170, svg.h:176).
- `Text` writes its style attributes before `x` (svg.cpp:137-139). The circle
  and polyline write them after their geometry.
- `Document::Render` hands each object a bare `ostream`. That converts through
  `RenderContext(std::ostream&)` (svg.h:92), so every object is written at
  indent 0 and is not indented inside `<svg>`.

A shape passed to `ObjectContainer::Add` is taken by value and moved into a new
heap object (svg.h:280-284). Later changes to the caller's builder do not reach
the document. The model stores the value `Shapes.Shape` that the builder's
`ToShape` gives at that moment.

## Model

| member | source | states |
|---|---|---|
| Output.Stream.Write | svg.cpp:64-65 | `out << s` appends exactly `s` to what was written before |
| Output.FormatNumber | svg.cpp:64-65 | a number is written as a non-empty numeral: a minus sign exactly when it is negative, then decimal digits |
| Output.FormatNumberRoundTrip | svg.cpp:85 | reading a number written by the integer formatter back gives the number, so the formatter is injective; the C++ output of a `double` is so only for integral values below 10^6 in magnitude |
| Style.LineCapText | svg.cpp:4-17 | each line cap has a text (`butt`, `round`, `square`) that reads back to that cap, so the formatter is total |
| Style.LineJoinText | svg.cpp:18-37 | each line join has a text (`arcs`, `bevel`, `miter`, `miter-clip`, `round`) that reads back to that join |
| Style.LineCapTextInjective | svg.cpp:4-17 | two line caps with the same text are the same cap |
| Style.LineJoinTextInjective | svg.cpp:18-37 | two line joins with the same text are the same join |
| Style.RenderAllAppend | svg.h:165-191 | rendering two attribute lists one after the other writes the rendering of their concatenation |
| Style.StyleAttributesInOrder | svg.h:165-191 | the style attributes come in the fixed order fill, stroke, stroke-width, stroke-linecap, stroke-linejoin |
| Style.HasStyleAttribute | svg.h:165-191 | an attribute name is rendered exactly when it is one of the five style names and that field is set |
| Style.StyleAttributesPresence | svg.h:165-191 | each of the five attributes is rendered if and only if its field is set |
| Style.StyleAttributeValues | svg.h:167-190 | a set fill or stroke renders with the empty value; width, line cap and line join render with their formatted value |
| Style.ColorsNotRendered | svg.h:167-178 | changing the colour of a set fill or stroke changes nothing in the output |
| Style.NoStyleRendersNothing | svg.h:196-200 | a fresh style block, with all five fields absent, renders no attributes and the empty string |
| Style.LastWriteWins | svg.h:135-159 | setting one field twice leaves the same block as setting it once to the second value |
| Style.WriteAttribute | svg.h:179-190 | writing the opening ` name="`, the value and the closing quote appends that one attribute |
| Style.RenderAttributes | svg.h:165-191 | `RenderAttributes` appends exactly the rendering of the set style attributes, in order |
| Context.Spaces | svg.h:102-108 | the indent text is `n` space characters, and none when `n <= 0` |
| Context.RenderContext.RenderIndent | svg.h:102-108 | `RenderIndent` appends exactly the indent's spaces, and none for an indent of zero or less |
| Context.TopLevel | svg.h:92 | the context made from a bare stream has step 0 and indent 0, so it writes no indentation |
| Context.RenderContext.Indented | svg.h:97-100 | `Indented()` gives a context one step deeper with the same stream and step; the property is stated by `Context.IndentedTimesIndent` |
| Context.IndentedTimesIndent | svg.h:97-100 | taking `Indented()` `n` times adds `n` steps to the indent and keeps the step and the stream |
| Escaping.FindFirstOf | svg.cpp:156 | `find_first_of` gives the first position at or after the start that holds the character, or none if there is none |
| Escaping.ScreenCharacter | svg.cpp:155-165 | the search-and-rewrite loop replaces every occurrence of the character by the entity, and nothing else |
| Escaping.ScreenPassesOne | svg.cpp:167-173 | a single character passes through the five rewrites as its entity, with no entity escaped a second time |
| Escaping.ScreenPassesAreEscape | svg.cpp:167-173 | the five rewrites in sequence equal the per-character map `&`→`&amp;`, `"`→`&quot;`, `<`→`&lt;`, `>`→`&gt;`, `'`→`&apos;` |
| Escaping.ScreenData | svg.cpp:167-173 | `ScreenData` rewrites its input into the per-character escaping of it |
| Escaping.EscapeSafeText | svg.cpp:167-173 | a string without any of the five special characters is left unchanged |
| Escaping.EscapeLength | svg.cpp:167-173 | escaping adds 4 characters per `&`, 5 per `"` and `'`, 3 per `<` and `>` |
| Escaping.EscapeLeavesNoMarkup | svg.cpp:167-173 | escaped text contains no `<`, `>`, `"` or `'`, whatever the input |
| Escaping.UnescapeEscape | svg.cpp:167-173 | decoding the entities of escaped text gives back the original, so no information is lost |
| Shapes.RenderCircle | svg.cpp:62-68 | the circle writes `<circle`, then `cx`, `cy` and `r`, then its style attributes, then ` />` |
| Shapes.RenderPolyline | svg.cpp:77-91 | the `is_first` loop writes the points as `x,y` pairs joined by single spaces, then the style attributes, then ` />` |
| Shapes.RenderPlacement | svg.cpp:139-143 | `x`, `y`, `dx`, `dy` and `font-size` are always written, in that order |
| Shapes.RenderOptional | svg.cpp:144-149 | `font-family` and `font-weight` are written only when their value is non-empty |
| Shapes.RenderText | svg.cpp:132-153 | the text writes `<text`, its style attributes, the placement, the optional font attributes, ` >`, the stored data verbatim, `</text>` |
| Shapes.RenderObject | svg.h:128 | each kind of shape writes its own tag |
| Shapes.Render | svg.cpp:41-48 | `Object::Render` writes the indent, then the tag, then one line break |
| Shapes.Circle.constructor | svg.h:216-217 | a new circle has centre (0,0), radius 1 and no style attribute |
| Shapes.Circle.SetCenter | svg.cpp:52-55 | sets the centre only, and returns the same circle |
| Shapes.Circle.SetRadius | svg.cpp:57-60 | sets the radius only, and returns the same circle |
| Shapes.Circle.SetFillColor | svg.h:135-139 | sets the fill only; the other style fields and the geometry are unchanged, and the same circle is returned |
| Shapes.Circle.SetStrokeColor | svg.h:140-144 | sets the stroke only, and returns the same circle |
| Shapes.Circle.SetStrokeWidth | svg.h:145-149 | sets the stroke width only, and returns the same circle |
| Shapes.Circle.SetStrokeLineCap | svg.h:150-154 | sets the line cap only, and returns the same circle |
| Shapes.Circle.SetStrokeLineJoin | svg.h:155-159 | sets the line join only, and returns the same circle |
| Shapes.ChainedFillLastWins | svg.h:135-139 | chaining two `SetFillColor` calls on a circle keeps only the second colour and leaves the geometry unchanged |
| Shapes.Polyline.constructor | svg.h:232 | a new polyline has no points and no style attribute |
| Shapes.Polyline.AddPoint | svg.cpp:72-75 | appends exactly one point at the end; the earlier points and the style are unchanged |
| Shapes.Polyline.SetFillColor | svg.h:135-139 | sets the fill only; the points are unchanged, and the same polyline is returned |
| Shapes.Polyline.SetStrokeColor | svg.h:140-144 | sets the stroke only, and returns the same polyline |
| Shapes.Polyline.SetStrokeWidth | svg.h:145-149 | sets the stroke width only, and returns the same polyline |
| Shapes.Polyline.SetStrokeLineCap | svg.h:150-154 | sets the line cap only, and returns the same polyline |
| Shapes.Polyline.SetStrokeLineJoin | svg.h:155-159 | sets the line join only, and returns the same polyline |
| Shapes.Text.constructor | svg.h:267-272 | a new text has position and offset (0,0), font size 1, empty font family, weight and data, and no style attribute |
| Shapes.Text.SetPosition | svg.cpp:96-99 | sets the position only, and returns the same text |
| Shapes.Text.SetOffset | svg.cpp:102-105 | sets the offset only, and returns the same text |
| Shapes.Text.SetFontSize | svg.cpp:108-111 | sets the font size only, and returns the same text |
| Shapes.Text.SetFontFamily | svg.cpp:114-117 | sets the font family only, and returns the same text |
| Shapes.Text.SetFontWeight | svg.cpp:120-123 | sets the font weight only, and returns the same text |
| Shapes.Text.SetData | svg.cpp:126-130 | stores the escaped form of the new data, whatever the data was before; nothing else changes |
| Shapes.Text.SetFillColor | svg.h:135-139 | sets the fill only; placement, fonts and data are unchanged, and the same text is returned |
| Shapes.Text.SetStrokeColor | svg.h:140-144 | sets the stroke only, and returns the same text |
| Shapes.Text.SetStrokeWidth | svg.h:145-149 | sets the stroke width only, and returns the same text |
| Shapes.Text.SetStrokeLineCap | svg.h:150-154 | sets the line cap only, and returns the same text |
| Shapes.Text.SetStrokeLineJoin | svg.h:155-159 | sets the line join only, and returns the same text |
| ShapeLayout.PointTextRoundTrip | svg.cpp:85 | a written vertex splits at its comma into the two coordinates, which read back to the point |
| ShapeLayout.PointsValueSplit | svg.cpp:79-88 | for one or more points, splitting the points value at spaces gives one `x,y` pair per point, in insertion order, with no trailing separator (no points: `ShapeLayout.EmptyPolylineTag`) |
| ShapeLayout.EmptyPolylineTag | svg.cpp:77-91 | a polyline without points or style renders as `<polyline points="" />` |
| ShapeLayout.DefaultCircleTag | svg.h:216-217 | a default circle renders as `<circle cx="0" cy="0" r="1" />` |
| ShapeLayout.DefaultTextTag | svg.h:267-272 | a default text renders as `<text x="0" y="0" dx="0" dy="0" font-size="1" ></text>` |
| ShapeLayout.TextAttributeOrder | svg.cpp:137-143 | a text's attributes are its style attributes first, then only non-style names |
| ShapeLayout.TextFontAttributes | svg.cpp:144-149 | `font-family` and `font-weight` are present exactly when non-empty; `x` and `y` always are |
| ShapeLayout.TagSingleLine | svg.cpp:62-153 | every tag is a single line when the text's fonts and data hold no line break |
| ShapeLayout.TextDataIsInert | svg.cpp:126-130 | stored text data holds no `<`, `>`, `"` or `'`, decodes back to the raw data, and stays on one line if the raw data did |
| Documents.Document.constructor | svg.h:301 | a new document holds no objects |
| Documents.Document.AddPtr | svg.cpp:177-179 | the object becomes the last one; the earlier ones keep their order |
| Documents.Document.AddCircle | svg.h:280-284 | `Add` appends the circle as it is at that moment |
| Documents.Document.AddPolyline | svg.h:280-284 | `Add` appends the polyline as it is at that moment |
| Documents.Document.AddText | svg.h:280-284 | `Add` appends the text as it is at that moment |
| Documents.Document.Render | svg.cpp:182-190 | appends the declaration line, the `<svg>` line, each object's tag in insertion order at indent 0 followed by a line break, and `</svg>`; the objects are not changed, so rendering again writes the same text |
| Documents.DocumentSplit | svg.cpp:182-190 | when no text's font names or data hold a line break, the output read back line by line is the declaration, the root element, each object's tag in order, the closing tag, then nothing; `SetData` does not escape a line break, so text data holding one spans several lines |
| Documents.EmptyDocument | svg.cpp:182-190 | a document without objects renders as exactly three lines |

## Left out

- Floating point: coordinates, radius and stroke width are integers. Every number goes through `Output.FormatNumber`, which stands in for the `ostream` output of a `double`. The C++ code prints a `double` with six significant digits, so `1000000.0` prints as `1e+06` and `1234567.0` and `1234568.0` both print as `1.23457e+06`; the round trip and injectivity of `Output.FormatNumberRoundTrip` belong to the integer stand-in and hold of the C++ output only for integral values below 10^6 in magnitude.
- Colour text: `operator<<` for `Rgb` and `Rgba` is only declared, `ColorVisitor` has no case for a named colour, and it is never called. `Color` is carried as a value and never printed.
- `main.cpp` is not part of this model: it is a demo client (stars built with `sin`/`cos`, a triangle, output to `std::cout`).
- The `Drawable` interface, `unique_ptr` ownership, virtual destructors and the virtual dispatch of `RenderObject`: a closed `Shape` datatype takes their place.
- Characters: a C++ `std::string` is a sequence of bytes, a Dafny `string` a sequence of Unicode characters. Escaping and the length formula of `Escaping.EscapeLength` agree on UTF-8 text, because the five reserved characters are ASCII and never occur inside a multi-byte sequence.
- The `ostream` mechanics: `std::endl` flushing, `put` and `string_view` conversions. The sink is an appended string.
- Context.RenderContext: the `int` indent and step are unbounded integers; 32-bit overflow in `Indented()` is not modelled.
- Shapes.Text.SetFontSize: `uint32_t` is a subtype of the integers; the model has no way to pass an out-of-range size, so no C++ conversion is modelled.
- Escaping.ScreenCharacter: requires a non-empty entity whose characters after the first differ from the replaced character. If the character occurs in the entity after its first character, every replacement puts a new occurrence after the point where the search resumes, so the C++ loop never ends; with an empty entity the search skips the character that moves into the replaced position. Every call in `ScreenData` meets the condition.
- Documents.Document.Render: the C++ method is `const`. The model states that by its frame: it may change only the stream, so the document's objects stay the same.
- Setting a field twice: the setters' contracts compose, so the second value wins; `Style.LastWriteWins` states this on the style block itself.
