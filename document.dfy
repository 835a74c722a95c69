/**
 * `Document` (svg.h, svg.cpp): an ordered collection of shapes written out as
 * an SVG file, one line per element.
 */
module Documents {
  import opened Sequences
  import opened Output
  import opened Context
  import opened Shapes
  import opened ShapeLayout

  /** The XML declaration, `<?xml version="1.0" encoding="UTF-8" ?>`. */
  const Prologue := "<?xml version=\"1.0\"" + " encoding=\"UTF-8\" ?>"
  const SvgNamespace := "http://www.w3.org/2000/svg"
  /** The root element, `<svg xmlns="http://www.w3.org/2000/svg" version="1.1">`. */
  const SvgOpen := "<svg xmlns=\"" + SvgNamespace + "\" version=\"1.1\">"
  const SvgClose := "</svg>"

  /** Each line followed by a line break (`std::endl`). */
  function Lines(ls: seq<string>): string {
    if ls == [] then "" else Lines(ls[..|ls| - 1]) + ls[|ls| - 1] + "\n"
  }

  /** The tag of each shape, in order. */
  function Tags(objects: seq<Shape>): seq<string> {
    Map(objects, Tag)
  }

  /** The lines of a rendered document: prologue, root element, one line per shape, closing tag. */
  function DocumentLines(objects: seq<Shape>): seq<string> {
    [Prologue, SvgOpen] + Tags(objects) + [SvgClose]
  }

  /** What `Document::Render` writes. */
  function DocumentText(objects: seq<Shape>): string {
    Lines(DocumentLines(objects))
  }

  class Document {
    var objects: seq<Shape>

    constructor ()
      ensures objects == []
    {
      objects := [];
    }

    /** `AddPtr`: the document takes the shape as its last element. */
    method AddPtr(s: Shape)
      modifies this
      ensures objects == old(objects) + [s]
    {
      objects := objects + [s];
    }

    /**
     * `ObjectContainer::Add` for each kind of shape: the document keeps a copy
     * of the builder as it is now; changing the builder later does not change it.
     */
    method AddCircle(c: Circle)
      modifies this
      ensures objects == old(objects) + [c.ToShape()]
    {
      AddPtr(c.ToShape());
    }

    method AddPolyline(p: Polyline)
      modifies this
      ensures objects == old(objects) + [p.ToShape()]
    {
      AddPtr(p.ToShape());
    }

    method AddText(t: Text)
      modifies this
      ensures objects == old(objects) + [t.ToShape()]
    {
      AddPtr(t.ToShape());
    }

    /**
     * `Document::Render`: the prologue, the root element, every shape in the
     * order it was added at indent 0, then the closing tag.
     */
    method Render(out: Stream)
      modifies out
      ensures out.text == old(out.text) + DocumentText(objects)
    {
      out.Write(Prologue);
      out.Write("\n");
      out.Write(SvgOpen);
      out.Write("\n");
      WroteHeader(old(out.text), out.text);
      for i := 0 to |objects|
        invariant out.text == old(out.text) + Lines([Prologue, SvgOpen] + Map(objects[..i], Tag))
      {
        ghost var before := out.text;
        Shapes.Render(objects[i], TopLevel(out));
        WroteObject(old(out.text), before, out.text, [Prologue, SvgOpen], objects, i);
      }
      assert objects[..|objects|] == objects;
      out.Write(SvgClose);
      out.Write("\n");
      WroteLine(old(out.text), [Prologue, SvgOpen] + Tags(objects), SvgClose, out.text);
    }
  }

  // ---------- lemmas ----------

  lemma LinesLast(ls: seq<string>, x: string)
    ensures Lines(ls + [x]) == Lines(ls) + x + "\n"
  {
    assert (ls + [x])[..|ls|] == ls;
  }

  lemma LinesTwo(a: string, b: string)
    ensures Lines([a, b]) == a + "\n" + b + "\n"
  {
    assert [a, b][..1] == [a];
    assert [a][..0] == [];
    assert Lines([a]) == a + "\n";
  }

  /** Writing one more line after the lines `ls`. */
  lemma WroteLine(t0: string, ls: seq<string>, x: string, text: string)
    ensures t0 + Lines(ls) + x + "\n" == t0 + Lines(ls + [x])
  {
    LinesLast(ls, x);
    ConcatAssociative(t0 + Lines(ls), x, "\n");
    ConcatAssociative(t0, Lines(ls), x + "\n");
    ConcatAssociative(t0, Lines(ls) + x, "\n");
  }

  lemma WroteHeader(t0: string, text: string)
    requires text == t0 + Prologue + "\n" + SvgOpen + "\n"
    ensures text == t0 + Lines([Prologue, SvgOpen])
  {
    WroteLine(t0, [Prologue], SvgOpen, text);
    WroteLine(t0, [], Prologue, text);
    assert [] + [Prologue] == [Prologue] && [Prologue] + [SvgOpen] == [Prologue, SvgOpen];
    assert t0 + Lines([]) == t0;
  }

  /** One more shape rendered at indent 0 adds its tag as the next line. */
  lemma WroteObject(t0: string, before: string, after: string, head: seq<string>, objects: seq<Shape>, i: nat)
    requires i < |objects|
    requires before == t0 + Lines(head + Map(objects[..i], Tag))
    requires after == before + Spaces(0) + Tag(objects[i]) + "\n"
    ensures after == t0 + Lines(head + Map(objects[..i + 1], Tag))
  {
    assert objects[..i + 1][..i] == objects[..i];
    assert head + Map(objects[..i + 1], Tag) == head + Map(objects[..i], Tag) + [Tag(objects[i])];
    assert before + Spaces(0) == before;
    WroteLine(t0, head + Map(objects[..i], Tag), Tag(objects[i]), after);
  }

  /** Lines written one after another split back into the same lines. */
  lemma {:induction false} LinesSplit(ls: seq<string>, rest: string)
    requires forall i :: 0 <= i < |ls| ==> SingleLine(ls[i])
    ensures Split(Lines(ls) + rest, '\n') == ls + Split(rest, '\n')
    decreases |ls|
  {
    if ls == [] {
      assert Lines(ls) + rest == rest;
    } else {
      var init, x := ls[..|ls| - 1], ls[|ls| - 1];
      LinesSplit(init, x);
      SplitWithoutSeparator(x, '\n');
      assert Lines(ls) + rest == Lines(init) + x + ['\n'] + rest;
      SplitAppend(Lines(init) + x, rest, '\n');
      assert ls == init + [x];
    }
  }

  /** A text shape whose font names and character data hold no line break. */
  predicate OneLineText(s: Shape) {
    s.TextShape? ==> SingleLine(s.fontFamily) && SingleLine(s.fontWeight) && SingleLine(s.data)
  }

  lemma PrologueSingleLine()
    ensures SingleLine(Prologue)
  {
    var p1, p2 := "<?xml version=\"1.0\"", " encoding=\"UTF-8\" ?>";
    assert SingleLine(p1);
    assert SingleLine(p2);
    SingleLineAppend(p1, p2);
  }

  lemma SvgOpenSingleLine()
    ensures SingleLine(SvgOpen)
  {
    var s1, s2 := "<svg xmlns=\"", "\" version=\"1.1\">";
    assert SingleLine(s1);
    assert SingleLine(SvgNamespace);
    assert SingleLine(s2);
    SingleLineAppend(s1, SvgNamespace);
    SingleLineAppend(s1 + SvgNamespace, s2);
  }

  lemma FixedLinesSingleLine()
    ensures SingleLine(Prologue) && SingleLine(SvgOpen) && SingleLine(SvgClose)
  {
    PrologueSingleLine();
    SvgOpenSingleLine();
  }

  lemma DocumentLinesSingleLine(objects: seq<Shape>)
    requires forall i :: 0 <= i < |objects| ==> OneLineText(objects[i])
    ensures forall i :: 0 <= i < |DocumentLines(objects)| ==> SingleLine(DocumentLines(objects)[i])
  {
    var tags := Map(objects, Tag);
    forall i | 0 <= i < |tags|
      ensures SingleLine(tags[i])
    {
      MapElement(objects, Tag, i);
      TagSingleLine(objects[i]);
    }
    FixedLinesSingleLine();
    var ls := [Prologue, SvgOpen] + tags + [SvgClose];
    forall i | 0 <= i < |ls|
      ensures SingleLine(ls[i])
    {
      if 2 <= i < |ls| - 1 {
        assert ls[i] == tags[i - 2];
      }
    }
  }

  /**
   * Read back line by line, a rendered document is the prologue, the root
   * element, one line per shape in insertion order, the closing tag, and
   * nothing after the final line break.
   */
  lemma DocumentSplit(objects: seq<Shape>)
    requires forall i :: 0 <= i < |objects| ==> OneLineText(objects[i])
    ensures Split(DocumentText(objects), '\n') == [Prologue, SvgOpen] + Tags(objects) + [SvgClose, ""]
  {
    var ls := DocumentLines(objects);
    DocumentLinesSingleLine(objects);
    LinesSplit(ls, "");
    assert Lines(ls) + "" == Lines(ls);
    assert Split("", '\n') == [""];
  }

  /** An empty document is exactly three lines: prologue, root element, closing tag. */
  lemma EmptyDocument()
    ensures DocumentText([]) == Prologue + "\n" + SvgOpen + "\n" + SvgClose + "\n"
    ensures Split(DocumentText([]), '\n') == [Prologue, SvgOpen, SvgClose, ""]
  {
    DocumentSplit([]);
    assert DocumentLines([]) == [Prologue, SvgOpen] + [SvgClose];
    LinesLast([Prologue, SvgOpen], SvgClose);
    LinesTwo(Prologue, SvgOpen);
  }
}
