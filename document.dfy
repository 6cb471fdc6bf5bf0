/**
 * The document a sequence of writer calls describes, and the text that stands for it.
 * The writer never builds this tree; it is the yardstick its output is measured against:
 * at every moment the sink holds the header followed by `Render` of the partial document.
 */
module Document {
  import opened Escaping

  /** The XML declaration written when a generator is created (elementflow.py:72). */
  const Header: string := "<?xml version=\"1.0\" encoding=\"utf-8\"?>"

  datatype Node =
    | Container(name: string, attrs: Attrs, children: seq<Node>)  // `container` ... normal `__exit__`
    | Leaf(name: string, attrs: Attrs, text: string)              // one `element` call
    | Text(value: string)                                         // one `text` call
    | Comment(value: string)                                      // one `comment` call

  /** A start tag, `<name attrs>` (elementflow.py:89). */
  function OpenTag(name: string, attrs: Attrs): string {
    "<" + name + AttrsToString(attrs) + ">"
  }

  /** An end tag, `</name>` (elementflow.py:82). */
  function CloseTag(name: string): string {
    "</" + name + ">"
  }

  /** `<name attrs>text</name>` with the text escaped, or `<name attrs/>` for empty text (elementflow.py:97-100). */
  function ElementText(name: string, attrs: Attrs, text: string): string {
    if text != "" then OpenTag(name, attrs) + Escape(text) + CloseTag(name)
    else "<" + name + AttrsToString(attrs) + "/>"
  }

  /** `<!--`, the value with every `--` removed, `-->` (elementflow.py:112-113). */
  function CommentText(value: string): string {
    "<!--" + SanitizeComment(value) + "-->"
  }

  /** A start tag is `<`, then the name, which can be read back from there, then the attributes and `>`. */
  lemma OpenTagShape(name: string, attrs: Attrs)
    ensures var r := OpenTag(name, attrs);
      |r| == |name| + |AttrsToString(attrs)| + 2 && r[0] == '<' && r[1..|name| + 1] == name &&
      r[|name| + 1..|r| - 1] == AttrsToString(attrs) && r[|r| - 1] == '>'
  {
    var r := OpenTag(name, attrs);
    assert r[1..|name| + 1] == name && r[|name| + 1..|r| - 1] == AttrsToString(attrs);
  }

  /** An end tag is `</`, the name and `>`. */
  lemma CloseTagShape(name: string)
    ensures var r := CloseTag(name);
      |r| == |name| + 3 && r[..2] == "</" && r[2..|r| - 1] == name && r[|r| - 1] == '>'
  {
    var r := CloseTag(name);
    assert r[..2] == "</" && r[2..|r| - 1] == name;
  }

  /**
   * An element with text starts with its start tag and ends with its end tag; between them
   * there is no `<`, so the text cannot open or close markup, and decoding its entities gives
   * the text back. An element without text is one tag of the same name ending in `/>`.
   */
  lemma ElementTextShape(name: string, attrs: Attrs, text: string)
    ensures var r, o, c := ElementText(name, attrs, text), OpenTag(name, attrs), CloseTag(name);
      text != "" ==>
        |r| == |o| + |Escape(text)| + |c| && r[..|o|] == o && r[|r| - |c|..] == c &&
        var inside := r[|o|..|r| - |c|]; '<' !in inside && Unescape(inside) == text
    ensures var r := ElementText(name, attrs, text);
      text == "" ==>
        |r| == |name| + |AttrsToString(attrs)| + 3 && r[0] == '<' && r[1..|name| + 1] == name &&
        r[|name| + 1..|r| - 2] == AttrsToString(attrs) && r[|r| - 2..] == "/>"
  {
    var r, o, c := ElementText(name, attrs, text), OpenTag(name, attrs), CloseTag(name);
    if text != "" {
      assert r[..|o|] == o && r[|r| - |c|..] == c && r[|o|..|r| - |c|] == Escape(text);
    } else {
      assert r[1..|name| + 1] == name && r[|name| + 1..|r| - 2] == AttrsToString(attrs) && r[|r| - 2..] == "/>";
    }
  }

  /** A comment is `<!--`, a body without `--`, `-->`; a value without `--` is its own body. */
  lemma CommentTextShape(value: string)
    ensures var r := CommentText(value);
      |r| >= 7 && r[..4] == "<!--" && r[|r| - 3..] == "-->" &&
      var body := r[4..|r| - 3]; NoDoubleHyphen(body) && (NoDoubleHyphen(value) ==> body == value)
  {
    var r := CommentText(value);
    assert r[..4] == "<!--" && r[|r| - 3..] == "-->" && r[4..|r| - 3] == SanitizeComment(value);
  }

  /** As written, the value `a-` is written as `<!--a--->`, which is not a well-formed comment. */
  lemma TrailingHyphenCommentText()
    ensures CommentText("a-") == "<!--a--->"
    ensures !WellFormedComment(CommentText("a-"))
  {
    TrailingHyphenComment();
  }

  /**
   * The comment as intended: well formed for every value (XML 1.0 section 2.5), and the same
   * text as `CommentText` whenever the sanitised body does not end in `-`.
   */
  function CorrectedCommentText(value: string): (r: string)
    ensures WellFormedComment(r)
    ensures var b := SanitizeComment(value); b == [] || b[|b| - 1] != '-' ==> r == CommentText(value)
  {
    "<!--" + CommentBody(value) + "-->"
  }

  function Serialize(n: Node): string
    decreases n
  {
    match n
    case Container(name, attrs, children) => OpenTag(name, attrs) + SerializeAll(children) + CloseTag(name)
    case Leaf(name, attrs, text) => ElementText(name, attrs, text)
    case Text(value) => Escape(value)
    case Comment(value) => CommentText(value)
  }

  function SerializeAll(nodes: seq<Node>): string
    decreases nodes
  {
    if nodes == [] then ""
    else SerializeAll(nodes[..|nodes| - 1]) + Serialize(nodes[|nodes| - 1])
  }

  /** A container that is open: its start tag is written, its end tag is not. */
  datatype Frame = Frame(name: string, attrs: Attrs, children: seq<Node>)

  /** Completed top-level nodes, then the open containers from the root inwards. */
  datatype Partial = Partial(top: seq<Node>, open: seq<Frame>)

  const Empty: Partial := Partial([], [])

  function Names(frames: seq<Frame>): (names: seq<string>)
    ensures |names| == |frames|
    ensures forall i :: 0 <= i < |frames| ==> names[i] == frames[i].name
  {
    if frames == [] then [] else Names(frames[..|frames| - 1]) + [frames[|frames| - 1].name]
  }

  function RenderOpen(frames: seq<Frame>): string {
    if frames == [] then ""
    else
      var f := frames[|frames| - 1];
      RenderOpen(frames[..|frames| - 1]) + OpenTag(f.name, f.attrs) + SerializeAll(f.children)
  }

  /** The text that stands for a partial document. */
  function Render(d: Partial): string {
    SerializeAll(d.top) + RenderOpen(d.open)
  }

  /** `n` becomes the last child of the innermost open container, or a top-level node. */
  function Add(d: Partial, n: Node): Partial {
    if d.open == [] then Partial(d.top + [n], [])
    else
      var k := |d.open| - 1;
      var f := d.open[k];
      Partial(d.top, d.open[..k] + [Frame(f.name, f.attrs, f.children + [n])])
  }

  /** A new innermost open container. */
  function Push(d: Partial, name: string, attrs: Attrs): Partial {
    Partial(d.top, d.open + [Frame(name, attrs, [])])
  }

  /** The innermost open container is completed and added to its parent. */
  function Pop(d: Partial): Partial
    requires d.open != []
  {
    var k := |d.open| - 1;
    var f := d.open[k];
    Add(Partial(d.top, d.open[..k]), Container(f.name, f.attrs, f.children))
  }

  /** Adding a node appends its serialisation and leaves the open containers as they are. */
  lemma RenderAdd(d: Partial, n: Node)
    ensures Render(Add(d, n)) == Render(d) + Serialize(n)
    ensures Names(Add(d, n).open) == Names(d.open)
  {
    if d.open == [] {
      SerializeAllAppend(d.top, n);
    } else {
      RenderAddOpen(d, n);
    }
  }

  lemma SerializeAllAppend(nodes: seq<Node>, n: Node)
    ensures SerializeAll(nodes + [n]) == SerializeAll(nodes) + Serialize(n)
  {
    assert (nodes + [n])[..|nodes|] == nodes;
  }

  lemma RenderAddOpen(d: Partial, n: Node)
    requires d.open != []
    ensures Render(Add(d, n)) == Render(d) + Serialize(n)
    ensures Names(Add(d, n).open) == Names(d.open)
  {
    var a := Add(d, n);
    var k := |d.open| - 1;
    var f := d.open[k];
    var children := f.children + [n];
    assert a.open[..k] == d.open[..k];
    assert a.open[k] == Frame(f.name, f.attrs, children);
    assert children[..|f.children|] == f.children;
    var t, r0, o, s, e := SerializeAll(d.top), RenderOpen(d.open[..k]), OpenTag(f.name, f.attrs), SerializeAll(f.children), Serialize(n);
    SerializeAllAppend(f.children, n);
    assert RenderOpen(a.open) == r0 + o + (s + e);
    assert RenderOpen(d.open) == r0 + o + s;
    Regroup(t, r0, o, s, e);
    assert Names(a.open) == Names(d.open[..k]) + [f.name];
  }

  /** Opening a container appends its start tag and its name. */
  lemma RenderPush(d: Partial, name: string, attrs: Attrs)
    ensures Render(Push(d, name, attrs)) == Render(d) + OpenTag(name, attrs)
    ensures Names(Push(d, name, attrs).open) == Names(d.open) + [name]
  {
    var p := Push(d, name, attrs);
    assert p.open[..|d.open|] == d.open;
  }

  /**
   * Closing the innermost container appends the end tag of the LAST name opened and
   * drops that name: end tags come out in the reverse order of their start tags.
   */
  lemma RenderPop(d: Partial)
    requires d.open != []
    ensures Render(Pop(d)) == Render(d) + CloseTag(d.open[|d.open| - 1].name)
    ensures Names(Pop(d).open) == Names(d.open)[..|d.open| - 1]
  {
    var k := |d.open| - 1;
    var f := d.open[k];
    var parent := Partial(d.top, d.open[..k]);
    var c := Container(f.name, f.attrs, f.children);
    var t, r0, o, s, e := SerializeAll(d.top), RenderOpen(d.open[..k]), OpenTag(f.name, f.attrs), SerializeAll(f.children), CloseTag(f.name);
    RenderAdd(parent, c);
    assert Render(Pop(d)) == Render(parent) + Serialize(c);
    assert Serialize(c) == o + s + e;
    assert Render(parent) == t + r0;
    assert RenderOpen(d.open) == r0 + o + s;
    Regroup(t, r0, o, s, e);
    assert Names(d.open) == Names(d.open[..k]) + [f.name];
  }

  lemma Regroup(t: string, r0: string, o: string, s: string, e: string)
    ensures (t + r0) + (o + s + e) == t + (r0 + o + s) + e
    ensures t + (r0 + o + (s + e)) == t + (r0 + o + s) + e
  {
  }

  /** With no container left open, the text is exactly the completed nodes, one after another. */
  lemma RenderClosed(d: Partial)
    requires Names(d.open) == []
    ensures Render(d) == SerializeAll(d.top)
  {
    assert d.open == [];
  }
}
