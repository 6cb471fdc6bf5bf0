/**
 * `IndentingGenerator` (elementflow.py:192-246): the namespaced writer with pretty-printing.
 * Before every container, element and comment it writes a newline and one indent unit per
 * open container; values longer than the width are wrapped onto lines of their own.
 *
 * `textwrap.TextWrapper(...).fill` is outside this model: the writer is given it as `wrap`,
 * called with the text, the width and the indent used for every line.
 */
module Indenting {
  import opened Wrappers
  import opened Strings
  import opened Escaping
  import opened Document
  import opened Namespaces
  import opened Base
  import opened Namespaced

  class IndentingWriter {
    const ns: NamespacedWriter
    /** `self._indent`: the indent unit, `' ' * indent`. */
    const unit: string
    /** `self._width`, `self._min_width`, `self._text_wrap`. */
    const width: int
    const minWidth: int
    const textWrap: bool
    /** `fill` of a `TextWrapper` with the given width and the same initial and subsequent indent. */
    const wrap: (string, int, string) -> string

    ghost predicate Valid()
      reads this, ns, ns.base
    {
      ns.Valid() && Blank(unit)
    }

    /** The indent of a line at the given nesting depth: `self._indent * depth`. */
    function Indent(depth: int): (r: string)
      ensures |r| == if depth <= 0 then 0 else |unit| * depth
      ensures Blank(unit) ==> Blank(r)
    {
      BlankRepeatIf(unit, depth);
      Repeat(unit, depth)
    }

    /** What is written before a tag at the given depth: a newline and the indent. */
    function LineBreak(depth: int): (r: string)
      ensures |r| >= 1 && r[0] == '\n'
      ensures Blank(unit) ==> Blank(r)
    {
      "\n" + Indent(depth)
    }

    /** `max(self._min_width, self._width - len(indent))` (elementflow.py:215). */
    function FillWidth(indentLength: int): (w: int)
      ensures w >= minWidth && w >= width - indentLength
      ensures w == minWidth || w == width - indentLength
    {
      if width - indentLength > minWidth then width - indentLength else minWidth
    }

    /** `_fill` (elementflow.py:212-217): a newline, then the value wrapped at the given indent. */
    function Fill(value: string, indent: string): (r: string)
      ensures |r| >= 1 && r[0] == '\n'
      ensures r[1..] == wrap(value, FillWidth(|indent|), indent)
    {
      var r := "\n" + wrap(value, FillWidth(|indent|), indent);
      assert r[1..] == wrap(value, FillWidth(|indent|), indent);
      r
    }

    /**
     * The value `_format_value` (elementflow.py:204-210) returns at the given depth: a value
     * longer than the width is filled one level deeper and followed by a line break back to
     * the depth itself; anything else is returned as it is.
     */
    function Formatted(value: string, depth: nat): (r: string)
      ensures !(|value| > width && textWrap) ==> r == value
      ensures |value| > width && textWrap ==>
        var b := LineBreak(depth); |r| > |b| && r[0] == '\n' && r[|r| - |b|..] == b
    {
      if |value| > width && textWrap then
        var f, b := Fill(value, Indent(depth) + unit), LineBreak(depth);
        assert (f + b)[|f|..] == b;
        f + b
      else value
    }

    /**
     * A long value, with wrapping on, is filled on lines of its own one indent unit deeper
     * than the tag, at the width for that deeper indent, and is followed by a line break back
     * to the tag's own depth, where the end tag then goes.
     */
    lemma WrappedOneLevelDeeper(value: string, depth: nat)
      requires |value| > width && textWrap
      ensures Formatted(value, depth) ==
        "\n" + wrap(value, FillWidth(|unit| * (depth + 1)), Indent(depth + 1)) + "\n" + Indent(depth)
      ensures FillWidth(|unit| * (depth + 1)) <= FillWidth(|unit| * depth)
    {
      var inner := Indent(depth) + unit;
      assert inner == Indent(depth + 1) by {
        RepeatAppend(unit, depth);
      }
      assert |inner| == |unit| * (depth + 1);
      assert |Indent(depth)| == |unit| * depth;
    }

    /**
     * `IndentingGenerator.__init__` (elementflow.py:197-202) up to the opening of the root,
     * which the factory does next with `Open`.
     */
    constructor Start(indent: int, width: int, minWidth: int, textWrap: bool, wrap: (string, int, string) -> string)
      ensures Valid() && fresh(ns) && fresh(ns.base)
      ensures unit == Repeat(" ", indent) && this.width == width && this.minWidth == minWidth
      ensures this.textWrap == textWrap && this.wrap == wrap
      ensures ns.base.out == Header && ns.base.stack == [] && ns.base.doc == Empty
      ensures ns.visible == {"xml"} && ns.scopes == 1
    {
      BlankRepeat(" ", indent);
      ns := new NamespacedWriter.Start();
      unit := Repeat(" ", indent);
      this.width := width;
      this.minWidth := minWidth;
      this.textWrap := textWrap;
      this.wrap := wrap;
    }

    /** Writes whitespace to the sink. */
    method Write(s: string)
      requires Valid() && Blank(s)
      modifies ns.base
      ensures Valid()
      ensures ns.base.out == old(ns.base.out) + s && ns.base.stack == old(ns.base.stack)
      ensures ns.visible == old(ns.visible) && ns.scopes == old(ns.scopes)
    {
      ns.base.Write(s);
    }

    /**
     * `_format_value` (elementflow.py:204-210): writes the line break for the current depth
     * and returns the value to write after it.
     */
    method FormatValue(value: string) returns (formatted: string)
      requires Valid()
      modifies ns.base
      ensures Valid()
      ensures formatted == Formatted(value, |old(ns.base.stack)|)
      ensures ns.base.out == old(ns.base.out) + LineBreak(|old(ns.base.stack)|)
      ensures ns.base.stack == old(ns.base.stack)
      ensures ns.visible == old(ns.visible) && ns.scopes == old(ns.scopes)
    {
      Write(LineBreak(|ns.base.stack|));
      formatted := Formatted(value, |ns.base.stack|);
    }

    /**
     * `container` (elementflow.py:226-229): the line break for the current depth, then the
     * namespaced `container`. The line break is written even when the prefix check fails.
     */
    method Open(name: string, attrs: Attrs, namespaces: Attrs) returns (unknown: Option<string>)
      requires Valid() && ns.scopes > 0
      modifies ns, ns.base
      ensures Valid()
      ensures ns.visible == old(ns.visible) + Keys(namespaces)
      ensures match ProcessNamespaces(old(ns.visible), name, attrs, namespaces).checked
        case Accepted(merged) =>
          unknown == None && ns.scopes == old(ns.scopes) + 1 &&
          ns.base.out == old(ns.base.out) + LineBreak(|old(ns.base.stack)|) + OpenTag(name, merged) &&
          ns.base.stack == old(ns.base.stack) + [name]
        case UnknownPrefix(p) =>
          unknown == Some(p) && ns.scopes == old(ns.scopes) &&
          ns.base.out == old(ns.base.out) + LineBreak(|old(ns.base.stack)|) &&
          ns.base.stack == old(ns.base.stack)
    {
      Write(LineBreak(|ns.base.stack|));
      unknown := ns.Open(name, attrs, namespaces);
    }

    /**
     * `__exit__` (elementflow.py:219-224): a line break to the depth of the container being
     * closed, the namespaced `__exit__`, and a final newline once the stack is empty. On the
     * exceptional path the stack is not popped, so the final newline comes only if it was
     * already empty.
     */
    method Close(exceptional: bool)
      requires Valid() && ns.scopes > 0
      requires !exceptional ==> ns.base.stack != []
      modifies ns, ns.base
      ensures Valid()
      ensures ns.visible == old(ns.visible) && ns.scopes == old(ns.scopes) - 1
      ensures exceptional ==>
        ns.base.stack == old(ns.base.stack) &&
        ns.base.out == old(ns.base.out) + LineBreak(|old(ns.base.stack)| - 1) +
          (if old(ns.base.stack) == [] then "\n" else "")
      ensures !exceptional ==>
        ns.base.stack == old(ns.base.stack)[..|old(ns.base.stack)| - 1] &&
        ns.base.out == old(ns.base.out) + LineBreak(|old(ns.base.stack)| - 1) +
          CloseTag(old(ns.base.stack)[|old(ns.base.stack)| - 1]) +
          (if |old(ns.base.stack)| == 1 then "\n" else "")
    {
      Write(LineBreak(|ns.base.stack| - 1));
      ns.Close(exceptional);
      if ns.base.stack == [] {
        Write("\n");
      }
    }

    /**
     * `element` (elementflow.py:231-239): the formatted text, then the namespaced `element`.
     * The line break is written even when the prefix check fails.
     */
    method Element(name: string, attrs: Attrs, namespaces: Attrs, text: string) returns (unknown: Option<string>)
      requires Valid() && ns.scopes > 0
      modifies ns, ns.base
      ensures Valid()
      ensures ns.visible == old(ns.visible) + Keys(namespaces) && ns.scopes == old(ns.scopes)
      ensures ns.base.stack == old(ns.base.stack)
      ensures match ProcessNamespaces(old(ns.visible), name, attrs, namespaces).checked
        case Accepted(merged) =>
          unknown == None &&
          ns.base.out == old(ns.base.out) + LineBreak(|old(ns.base.stack)|) +
            ElementText(name, merged, Formatted(text, |old(ns.base.stack)|))
        case UnknownPrefix(p) =>
          unknown == Some(p) && ns.base.out == old(ns.base.out) + LineBreak(|old(ns.base.stack)|)
    {
      var formatted := FormatValue(text);
      unknown := ns.Element(name, attrs, namespaces, formatted);
    }

    /**
     * `text` (elementflow.py:241-242): the value filled at the current depth, escaped. No line
     * break is written before it: the fill starts with its own newline.
     */
    method Text(value: string)
      requires Valid()
      modifies ns.base
      ensures Valid()
      ensures ns.base.out == old(ns.base.out) + Escape(Fill(value, Indent(|old(ns.base.stack)|)))
      ensures ns.base.stack == old(ns.base.stack)
      ensures ns.visible == old(ns.visible) && ns.scopes == old(ns.scopes)
    {
      ns.base.Text(Fill(value, Indent(|ns.base.stack|)));
    }

    /** `comment` (elementflow.py:244-246): the formatted value, then the base `comment`. */
    method Comment(value: string)
      requires Valid()
      modifies ns.base
      ensures Valid()
      ensures ns.base.out == old(ns.base.out) + LineBreak(|old(ns.base.stack)|) +
        CommentText(Formatted(value, |old(ns.base.stack)|))
      ensures ns.base.stack == old(ns.base.stack)
      ensures ns.visible == old(ns.visible) && ns.scopes == old(ns.scopes)
    {
      var formatted := FormatValue(value);
      ns.base.Comment(formatted);
    }
  }

  lemma BlankRepeatIf(s: string, n: int)
    ensures Blank(s) ==> Blank(Repeat(s, n))
  {
    if Blank(s) {
      BlankRepeat(s, n);
    }
  }
}
