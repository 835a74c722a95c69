/**
 * `RenderContext` (svg.h): the stream being written, the indent step and the
 * current indent.
 */
module Context {
  import opened Output

  /** `n` spaces; none when `n` is zero or negative. */
  function Spaces(n: int): (r: string)
    ensures |r| == (if n <= 0 then 0 else n)
    ensures forall i :: 0 <= i < |r| ==> r[i] == ' '
  {
    if n <= 0 then "" else Spaces(n - 1) + " "
  }

  /**
   * A render context. C++ `int` fields are modelled as unbounded integers:
   * `Indented` is not taken near the 32-bit limit.
   */
  datatype RenderContext = RenderContext(out: Stream, indentStep: int, indent: int) {

    /** The context for a nested element: one step deeper, same stream and step. */
    function Indented(): RenderContext {
      RenderContext(out, indentStep, indent + indentStep)
    }

    /** Writes the current indent as spaces. */
    method RenderIndent()
      modifies out
      ensures out.text == old(out.text) + Spaces(indent)
    {
      var i := 0;
      while i < indent
        invariant 0 <= i <= (if indent <= 0 then 0 else indent)
        invariant out.text == old(out.text) + Spaces(i)
      {
        out.Write(" ");
        i := i + 1;
      }
    }
  }

  /** `RenderContext(std::ostream&)`: the context of top-level output. */
  function TopLevel(out: Stream): (ctx: RenderContext)
    ensures ctx.out == out && ctx.indent == 0 && ctx.indentStep == 0
    ensures Spaces(ctx.indent) == ""
  {
    RenderContext(out, 0, 0)
  }

  /** The context after taking `Indented()` `n` times. */
  function IndentedTimes(ctx: RenderContext, n: nat): RenderContext {
    if n == 0 then ctx else IndentedTimes(ctx, n - 1).Indented()
  }

  /** Indentation compounds: `n` levels down the indent has grown by `n` steps, and nothing else changed. */
  lemma {:induction false} IndentedTimesIndent(ctx: RenderContext, n: nat)
    ensures IndentedTimes(ctx, n).indent == ctx.indent + n * ctx.indentStep
    ensures IndentedTimes(ctx, n).indentStep == ctx.indentStep
    ensures IndentedTimes(ctx, n).out == ctx.out
  {
    if n > 0 {
      IndentedTimesIndent(ctx, n - 1);
    }
  }
}
