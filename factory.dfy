/**
 * `xml()` (elementflow.py:269-294): picks the generator class from its arguments and creates
 * it, which writes the header and opens the root.
 */
module Factory {
  import opened Wrappers
  import opened Strings
  import opened Escaping
  import opened Document
  import opened Namespaces
  import opened Base
  import opened Namespaced
  import opened Indenting

  /** The defaults `IndentingGenerator` pops from its keyword arguments (elementflow.py:198-201). */
  const DefaultIndent: int := 2
  const DefaultWidth: int := 70
  const DefaultMinWidth: int := 20

  datatype Layer = Plain | WithNamespaces | Pretty

  /**
   * The dispatch of elementflow.py:289-294: pretty-printing whenever an indent is given,
   * otherwise namespaces when a non-empty mapping of them is given, otherwise the base class.
   */
  function SelectLayer(indent: Option<int>, namespaces: Attrs): (l: Layer)
    ensures l == Pretty <==> indent.Some?
    ensures l == WithNamespaces <==> indent.None? && namespaces != []
    ensures l == Plain <==> indent.None? && namespaces == []
  {
    if indent.Some? then Pretty
    else if namespaces != [] then WithNamespaces
    else Plain
  }

  datatype Generator =
    | PlainGenerator(plain: Writer)
    | NamespacedGenerator(namespaced: NamespacedWriter)
    | IndentingGenerator(indenting: IndentingWriter)

  /** The message of the ValueError raised for an unknown prefix (elementflow.py:158). */
  function UnknownPrefixError(prefix: string): (r: string)
    ensures |r| == |prefix| + 26 && r[..26] == "Unknown namespace prefix: " && r[26..] == prefix
  {
    var r := "Unknown namespace prefix: " + prefix;
    assert r[26..] == prefix;
    r
  }

  /**
   * `xml(file, root, attrs, namespaces, indent, text_wrap, width=..., min_width=...)`.
   * `out` is what the sink holds afterwards. When the root's prefixes do not check out the
   * constructor raises a ValueError after the header (and, pretty-printing, the first line
   * break) has been written, and no generator is returned.
   */
  method Xml(root: string, attrs: Attrs, namespaces: Attrs, indent: Option<int>, textWrap: bool,
             width: int, minWidth: int, wrap: (string, int, string) -> string)
    returns (g: Result<Generator>, out: string)
    ensures g.Ok? ==> match SelectLayer(indent, namespaces)
      case Plain => g.value.PlainGenerator?
      case WithNamespaces => g.value.NamespacedGenerator?
      case Pretty => g.value.IndentingGenerator?
    ensures SelectLayer(indent, namespaces) == Plain ==>
      g.Ok? && out == Header + OpenTag(root, attrs) &&
      fresh(g.value.plain) && g.value.plain.Valid() && g.value.plain.out == out &&
      g.value.plain.stack == [root]
    ensures SelectLayer(indent, namespaces) == WithNamespaces ==>
      match ProcessNamespaces({"xml"}, root, attrs, namespaces).checked
      case UnknownPrefix(p) => g == Err(UnknownPrefixError(p)) && out == Header
      case Accepted(merged) => g.Ok? && out == Header + OpenTag(root, merged)
    ensures SelectLayer(indent, namespaces) == Pretty ==>
      match ProcessNamespaces({"xml"}, root, attrs, namespaces).checked
      case UnknownPrefix(p) => g == Err(UnknownPrefixError(p)) && out == Header + "\n"
      case Accepted(merged) => g.Ok? && out == Header + "\n" + OpenTag(root, merged)
    ensures g.Ok? && g.value.NamespacedGenerator? ==>
      var w := g.value.namespaced;
      fresh(w) && fresh(w.base) && w.Valid() && w.base.out == out && w.base.stack == [root] &&
      w.visible == {"xml"} + Keys(namespaces) && w.scopes == 2
    ensures g.Ok? && g.value.IndentingGenerator? ==>
      var w := g.value.indenting;
      fresh(w) && fresh(w.ns) && fresh(w.ns.base) && w.Valid() &&
      w.ns.base.out == out && w.ns.base.stack == [root] &&
      w.ns.visible == {"xml"} + Keys(namespaces) && w.ns.scopes == 2 &&
      w.unit == Repeat(" ", indent.value) && w.width == width && w.minWidth == minWidth &&
      w.textWrap == textWrap && w.wrap == wrap
  {
    var layer := SelectLayer(indent, namespaces);
    if layer == Pretty {
      var w := new IndentingWriter.Start(indent.value, width, minWidth, textWrap, wrap);
      var unknown := w.Open(root, attrs, namespaces);
      out := w.ns.base.out;
      assert w.LineBreak(0) == "\n";
      g := if unknown.Some? then Err(UnknownPrefixError(unknown.value)) else Ok(IndentingGenerator(w));
    } else if layer == WithNamespaces {
      var w := new NamespacedWriter.Start();
      var unknown := w.Open(root, attrs, namespaces);
      out := w.base.out;
      g := if unknown.Some? then Err(UnknownPrefixError(unknown.value)) else Ok(NamespacedGenerator(w));
    } else {
      var w := new Writer(root, attrs);
      out := w.out;
      g := Ok(PlainGenerator(w));
    }
  }
}
