/**
 * The scenarios of tests.py, each written as the calls the test makes through `xml()`, with
 * the complete sink contents stated. `with` blocks become `Open` / `Close` pairs. The methods
 * take the test's names and values as parameters, so each states the layout for every choice
 * of them; a lemma beside each one spells out the text for the values the test uses.
 */
module Scenarios {
  import opened Wrappers
  import opened Strings
  import opened Escaping
  import opened Document
  import opened Namespaces
  import opened Base
  import opened Namespaced
  import opened Indenting
  import opened Factory

  /** A stand-in for `textwrap` where a scenario never wraps. */
  function Unwrapped(text: string, width: int, indent: string): string {
    text
  }

  /** An element with text that needs no escaping is written as it is. */
  lemma PlainElement(name: string, text: string)
    requires text != "" && '&' !in text && '<' !in text
    ensures ElementText(name, [], text) == "<" + name + ">" + text + "</" + name + ">"
  {
    EscapeCharsPlain(text, false);
    assert AttrsToString([]) == "";
  }

  /** A comment without `--` is written as it is. */
  lemma PlainComment(value: string)
    requires NoDoubleHyphen(value)
    ensures CommentText(value) == "<!--" + value + "-->"
  {
  }

  /** test_xml (tests.py:17-36): a container with an attribute, text and elements. */
  method XmlScenario(root: string, container: string, attrs: Attrs, text: string, item: string, itemText: string)
    returns (out: string)
    ensures out == Header + OpenTag(root, []) + OpenTag(container, attrs) + Escape(text) +
      ElementText(item, [], "") + CloseTag(container) + ElementText(item, [], itemText) + CloseTag(root)
  {
    var g, _ := Xml(root, [], [], None, true, DefaultWidth, DefaultMinWidth, Unwrapped);
    var w := g.value.plain;
    w.Open(container, attrs);
    w.Text(text);
    w.Element(item, [], "");
    w.Close(false);
    w.Element(item, [], itemText);
    w.Close(false);
    out := w.out;
  }

  /** Both double quotes around a value that needs no other escaping become `&quot;`. */
  lemma EscapeQuoted(w: string)
    requires '&' !in w && '<' !in w && '"' !in w
    ensures EscapeChars("\"" + w + "\"", true) == "&quot;" + w + "&quot;"
  {
    var q := "\"";
    EscapeCharsAppend(q, w, true);
    EscapeCharsAppend(q + w, q, true);
    EscapeCharsPlain(w, true);
    assert EscapeChars(q, true) == "&quot;" by {
      assert q[1..] == [];
    }
  }

  /**
   * test_xml's attribute value `"значение"`: a value between double quotes is written with
   * both quotes as `&quot;` and the rest as it is.
   */
  lemma QuotedAttributeValue(w: string)
    requires '&' !in w && '<' !in w && '"' !in w
    ensures QuoteValue("\"" + w + "\"") == "\"" + "&quot;" + w + "&quot;" + "\""
  {
    EscapeQuoted(w);
    QuoteValueShape("\"" + w + "\"");
  }

  /** test_xml's text `<Текст> контейнера`: a leading `<` becomes `&lt;`, `>` is left as it is. */
  lemma LeadingLessThan(rest: string)
    requires '&' !in rest && '<' !in rest
    ensures Escape("<" + rest) == "&lt;" + rest
  {
    EscapeCharsPlain(rest, false);
    assert ("<" + rest)[1..] == rest;
  }

  /** test_xml's empty element: empty text gives a self-closing tag. */
  lemma EmptyItemOutput()
    ensures ElementText("item", [], "") == "<item/>"
  {
    assert AttrsToString([]) == "";
  }

  /** test_xml's last element, whose text needs no escaping. */
  lemma TextItemOutput()
    ensures ElementText("item", [], "Текст") == "<item>" + "Текст" + "</item>"
  {
    PlainElement("item", "Текст");
    assert "<" + "item" + ">" == "<item>";
    assert "</" + "item" + ">" == "</item>";
  }

  /** test_comment (tests.py:54-59) and test_comment_with_double_hyphen (tests.py:62-67). */
  method CommentScenario(root: string, value: string) returns (out: string)
    ensures out == Header + OpenTag(root, []) + CommentText(value) + CloseTag(root)
  {
    var g, _ := Xml(root, [], [], None, true, DefaultWidth, DefaultMinWidth, Unwrapped);
    var w := g.value.plain;
    w.Comment(value);
    w.Close(false);
    out := w.out;
  }

  /** test_comment's comment: written as it is. */
  lemma CommentTestOutput()
    ensures CommentText("comment") == "<!--comment-->"
  {
    PlainComment("comment");
  }

  /** test_comment_with_double_hyphen's comment: every `--` is dropped from the body. */
  lemma DoubleHyphenTestOutput()
    ensures CommentText("--comm-->ent--") == "<!--comm>ent-->"
  {
    DoubleHyphenComment();
  }

  /**
   * test_non_well_formed_on_exception (tests.py:39-51): the `with` body raises, so the root
   * stays open and its end tag is never written.
   */
  method ExceptionScenario(root: string, text: string) returns (out: string, open: seq<string>)
    ensures out == Header + OpenTag(root, []) + Escape(text)
    ensures open == [root]
  {
    var g, _ := Xml(root, [], [], None, true, DefaultWidth, DefaultMinWidth, Unwrapped);
    var w := g.value.plain;
    w.Text(text);
    w.Close(true);
    out := w.out;
    open := w.stack;
  }

  lemma ExceptionTestOutput()
    ensures Header + OpenTag("root", []) + Escape("Text") == "<?xml version=\"1.0\" encoding=\"utf-8\"?><root>Text"
  {
    assert OpenTag("root", []) == "<root>";
    assert Escape("Text") == "Text";
  }

  /** The first function test_map passes: an `item` element keyed by the number, with the name as text. */
  function Keyed(d: (string, string)): ElementArgs {
    ElementArgs("item", [("key", d.0)], d.1)
  }

  /** The second: a one-tuple, so an empty element named after the name. */
  function Named(d: (string, string)): ElementArgs {
    ElementArgs(d.1, [], "")
  }

  /** test_map (tests.py:101-122): two `map` calls over the same data, one element per item each. */
  method MapScenario(root: string, data: seq<(string, string)>) returns (out: string)
    ensures out == Header + OpenTag(root, []) + ElementsText(Calls(Keyed, data)) +
      ElementsText(Calls(Named, data)) + CloseTag(root)
  {
    var g, _ := Xml(root, [], [], None, true, DefaultWidth, DefaultMinWidth, Unwrapped);
    var w := g.value.plain;
    w.Map(Keyed, data);
    w.Map(Named, data);
    w.Close(false);
    out := w.out;
  }

  /**
   * test_namespaces (tests.py:70-83): the root declares the default namespace and `p1`, a
   * container declares `p2`; inside it both the default and `p1` are still usable. The test
   * has `p1 = n1`, `p2 = n2` and `item` for every local name.
   */
  method NamespacesScenario(root: string, u0: string, p1: string, u1: string, item: string,
                            p2: string, local2: string, u2: string, local1: string)
    returns (out: string)
    requires ':' !in root && ':' !in item && ':' !in p1 && ':' !in p2 && p1 != ""
    ensures out == Header + OpenTag(root, [("xmlns", u0), ("xmlns:" + p1, u1)]) +
      ElementText(item, [], "") + OpenTag(p2 + ":" + local2, [(XmlnsName(p2), u2)]) +
      ElementText(item, [], "") + ElementText(p1 + ":" + local1, [], "") +
      CloseTag(p2 + ":" + local2) + CloseTag(root)
  {
    var w := RootWithItem(root, u0, p1, u1, item);
    assert Resolves(p1 + ":" + local1, w.visible) by {
      PrefixOfQualified(p1, local1);
    }
    ghost var outer := w.base.out;
    NestedContainer(w, p2, local2, u2, item, p1 + ":" + local1);
    assert w.base.stack == [root];
    assert w.base.out == outer + OpenTag(p2 + ":" + local2, [(XmlnsName(p2), u2)]) +
      ElementText(item, [], "") + ElementText(p1 + ":" + local1, [], "") + CloseTag(p2 + ":" + local2);
    w.Close(false);
    out := w.base.out;
  }

  /** The outer part of test_namespaces: the declaring root and the unqualified element in it. */
  method RootWithItem(root: string, u0: string, p1: string, u1: string, item: string)
    returns (w: NamespacedWriter)
    requires ':' !in root && ':' !in item && p1 != ""
    ensures fresh(w) && fresh(w.base) && w.Valid()
    ensures w.scopes == 2 && p1 in w.visible && w.base.stack == [root]
    ensures w.base.out == Header + OpenTag(root, [("xmlns", u0), ("xmlns:" + p1, u1)]) + ElementText(item, [], "")
  {
    w := DeclaringRoot(root, u0, p1, u1);
    EmptyElement(w, item);
  }

  /**
   * The inner `with` of test_namespaces: a container `p:local` declaring `p`, holding an
   * unqualified element and one whose prefix was declared further out, then closed.
   */
  method NestedContainer(w: NamespacedWriter, p: string, local: string, uri: string, item: string, qualified: string)
    requires w.Valid() && w.scopes > 0 && ':' !in p && ':' !in item && Resolves(qualified, w.visible)
    modifies w, w.base
    ensures w.Valid() && w.visible == old(w.visible) + {p} && w.scopes == old(w.scopes)
    ensures w.base.out == old(w.base.out) + OpenTag(p + ":" + local, [(XmlnsName(p), uri)]) +
      ElementText(item, [], "") + ElementText(qualified, [], "") + CloseTag(p + ":" + local)
    ensures w.base.stack == old(w.base.stack)
  {
    DeclaringContainer(w, p, local, uri);
    EmptyElement(w, item);
    EmptyElement(w, qualified);
    w.Close(false);
  }

  /**
   * What `xml(file, root, namespaces={'': u0, p1: u1})` builds (`SelectLayer` picks the
   * namespaced layer for these arguments): the root carries both declarations.
   */
  method DeclaringRoot(root: string, u0: string, p1: string, u1: string) returns (w: NamespacedWriter)
    requires ':' !in root && p1 != ""
    ensures fresh(w) && fresh(w.base) && w.Valid()
    ensures w.scopes == 2 && p1 in w.visible && w.base.stack == [root]
    ensures w.base.out == Header + OpenTag(root, [("xmlns", u0), ("xmlns:" + p1, u1)])
  {
    var ns0 := [("", u0), (p1, u1)];
    var a0 := [("xmlns", u0), ("xmlns:" + p1, u1)];
    assert ProcessNamespaces({"xml"}, root, [], ns0).checked == Accepted(a0) by {
      DeclarationsOnly({"xml"}, root, ns0);
      assert XmlnsAttrs(ns0) == a0;
    }
    w := new NamespacedWriter.Start();
    var unknown := w.Open(root, [], ns0);
    assert p1 in w.visible by {
      KeysPair("", u0, p1, u1);
    }
  }

  /** An empty element whose name resolves: written as it is, with no attributes. */
  method EmptyElement(w: NamespacedWriter, name: string)
    requires w.Valid() && w.scopes > 0 && Resolves(name, w.visible)
    modifies w, w.base
    ensures w.Valid() && w.visible == old(w.visible) && w.scopes == old(w.scopes)
    ensures w.base.out == old(w.base.out) + ElementText(name, [], "")
    ensures w.base.stack == old(w.base.stack)
  {
    assert ProcessNamespaces(w.visible, name, [], []) == Processed(w.visible, Accepted([])) by {
      assert Keys([]) == {};
      assert w.visible + {} == w.visible;
      DeclarationsOnly(w.visible, name, []);
      assert XmlnsAttrs([]) == [];
    }
    var unknown := w.Element(name, [], [], "");
  }

  /** A container `p:local` that declares `p` itself: its one attribute is the declaration. */
  method DeclaringContainer(w: NamespacedWriter, p: string, local: string, uri: string)
    requires w.Valid() && w.scopes > 0 && ':' !in p
    modifies w, w.base
    ensures w.Valid() && w.visible == old(w.visible) + {p} && w.scopes == old(w.scopes) + 1
    ensures w.base.out == old(w.base.out) + OpenTag(p + ":" + local, [(XmlnsName(p), uri)])
    ensures w.base.stack == old(w.base.stack) + [p + ":" + local]
  {
    assert ProcessNamespaces(w.visible, p + ":" + local, [], [(p, uri)]) ==
      Processed(w.visible + {p}, Accepted([(XmlnsName(p), uri)])) by {
      PrefixOfQualified(p, local);
      KeysSingleton(p, uri);
      DeclarationsOnly(w.visible, p + ":" + local, [(p, uri)]);
    }
    var unknown := w.Open(p + ":" + local, [], [(p, uri)]);
  }

  /**
   * test_bad_namespace (tests.py:86-98): a prefix that nothing declares makes `xml()` raise a
   * ValueError naming it, after the header has been written. The test's two calls are the
   * cases `UndeclaredRootPrefix` and `UndeclaredAttributePrefix` work out (both name `n1`).
   */
  method BadNamespaceScenario(root: string, attrs: Attrs, namespaces: Attrs, p: string)
    returns (result: Result<Generator>, out: string)
    requires namespaces != []
    requires ProcessNamespaces({"xml"}, root, attrs, namespaces).checked == UnknownPrefix(p)
    ensures result == Err("Unknown namespace prefix: " + p) && out == Header
  {
    result, out := Xml(root, attrs, namespaces, None, true, DefaultWidth, DefaultMinWidth, Unwrapped);
  }

  /**
   * test_indent (tests.py:125-147): `xml(file, root, indent=2)` (`SelectLayer` picks the
   * pretty-printing layer), a container holding an element and a comment, both longer than
   * the width of 70. Each value is filled six spaces deep at width 64 and followed by a line
   * break back to the tag's own indent; `wrap` stands for `textwrap`'s `fill`.
   */
  method IndentScenario(root: string, container: string, item: string, text: string, comment: string,
                        wrap: (string, int, string) -> string)
    returns (out: string)
    requires ':' !in root && ':' !in container && ':' !in item
    requires |text| > DefaultWidth && |comment| > DefaultWidth
    ensures out == Header + "\n" + OpenTag(root, []) + "\n  " + OpenTag(container, []) + "\n    " +
      ElementText(item, [], "\n" + wrap(text, 64, "      ") + "\n    ") + "\n    " +
      CommentText("\n" + wrap(comment, 64, "      ") + "\n    ") + "\n  " + CloseTag(container) +
      "\n" + CloseTag(root) + "\n"
  {
    var w := PrettyRoot(root, true, wrap);
    TwoSpaceIndents(w);
    WrappedAtDepthTwo(w, text);
    WrappedAtDepthTwo(w, comment);
    ghost var head := w.ns.base.out;
    ghost var filledText, filledComment := w.Formatted(text, 2), w.Formatted(comment, 2);
    ContainerWithValues(w, container, item, text, comment);
    assert w.ns.base.out == head + "\n  " + OpenTag(container, []) + "\n    " +
      ElementText(item, [], filledText) + "\n    " + CommentText(filledComment) + "\n  " + CloseTag(container);
    w.Close(false);
    out := w.ns.base.out;
  }

  /** A long value two levels deep, with the default widths, is filled at six spaces and width 64. */
  lemma WrappedAtDepthTwo(w: IndentingWriter, value: string)
    requires w.unit == "  " && w.width == DefaultWidth && w.minWidth == DefaultMinWidth
    requires w.textWrap && |value| > DefaultWidth
    ensures w.Formatted(value, 2) == "\n" + w.wrap(value, 64, "      ") + "\n    "
  {
    TwoSpaceIndents(w);
    w.WrappedOneLevelDeeper(value, 2);
  }

  /**
   * test_indent_nowrap (tests.py:150-165): the same calls with `text_wrap=False`, so the
   * long values stay on the line of their tag.
   */
  method IndentNoWrapScenario(root: string, container: string, item: string, text: string, comment: string,
                              wrap: (string, int, string) -> string)
    returns (out: string)
    requires ':' !in root && ':' !in container && ':' !in item
    ensures out == Header + "\n" + OpenTag(root, []) + "\n  " + OpenTag(container, []) + "\n    " +
      ElementText(item, [], text) + "\n    " + CommentText(comment) + "\n  " + CloseTag(container) +
      "\n" + CloseTag(root) + "\n"
  {
    var w := PrettyRoot(root, false, wrap);
    TwoSpaceIndents(w);
    ghost var head := w.ns.base.out;
    ContainerWithValues(w, container, item, text, comment);
    assert w.Formatted(text, 2) == text && w.Formatted(comment, 2) == comment;
    assert w.ns.base.out == head + "\n  " + OpenTag(container, []) + "\n    " +
      ElementText(item, [], text) + "\n    " + CommentText(comment) + "\n  " + CloseTag(container);
    w.Close(false);
    out := w.ns.base.out;
  }

  /** The indents and line breaks of a writer whose unit is two spaces, down to depth three. */
  lemma TwoSpaceIndents(w: IndentingWriter)
    requires w.unit == "  " && w.width == DefaultWidth && w.minWidth == DefaultMinWidth
    ensures w.LineBreak(-1) == "\n" && w.LineBreak(0) == "\n"
    ensures w.LineBreak(1) == "\n  " && w.LineBreak(2) == "\n    "
    ensures w.Indent(3) == "      " && w.FillWidth(6) == 64
  {
    assert w.Indent(1) == "  " + w.Indent(0);
    assert w.Indent(2) == "  " + w.Indent(1);
    assert w.Indent(3) == "  " + w.Indent(2);
  }

  /**
   * What `xml(file, root, indent=2, text_wrap=textWrap)` builds: the header, a line break and
   * the root, with the default width and minimum width.
   */
  method PrettyRoot(root: string, textWrap: bool, wrap: (string, int, string) -> string)
    returns (w: IndentingWriter)
    requires ':' !in root
    ensures fresh(w) && fresh(w.ns) && fresh(w.ns.base) && w.Valid() && w.ns.scopes == 2
    ensures w.unit == "  " && w.width == DefaultWidth && w.minWidth == DefaultMinWidth
    ensures w.textWrap == textWrap && w.wrap == wrap
    ensures w.ns.base.stack == [root] && w.ns.base.out == Header + "\n" + OpenTag(root, [])
  {
    w := new IndentingWriter.Start(DefaultIndent, DefaultWidth, DefaultMinWidth, textWrap, wrap);
    assert ProcessNamespaces({"xml"}, root, [], []).checked == Accepted([]) by {
      assert Keys([]) == {};
      DeclarationsOnly({"xml"}, root, []);
      assert XmlnsAttrs([]) == [];
    }
    assert w.LineBreak(0) == "\n";
    var unknown := w.Open(root, [], []);
    assert w.unit == "  " by {
      assert Repeat(" ", 2) == " " + (" " + Repeat(" ", 0));
    }
  }

  /**
   * The `with xml.container(container)` block of test_indent: the container one level below
   * the current depth, an element and a comment inside it, and the container closed again.
   */
  method ContainerWithValues(w: IndentingWriter, container: string, item: string, text: string, comment: string)
    requires w.Valid() && w.ns.scopes > 0 && w.ns.base.stack != [] && ':' !in container && ':' !in item
    modifies w.ns, w.ns.base
    ensures w.Valid() && w.ns.scopes == old(w.ns.scopes) && w.ns.base.stack == old(w.ns.base.stack)
    ensures var d := |old(w.ns.base.stack)|;
      w.ns.base.out == old(w.ns.base.out) + w.LineBreak(d) + OpenTag(container, []) +
        w.LineBreak(d + 1) + ElementText(item, [], w.Formatted(text, d + 1)) +
        w.LineBreak(d + 1) + CommentText(w.Formatted(comment, d + 1)) +
        w.LineBreak(d) + CloseTag(container)
  {
    ghost var d := |w.ns.base.stack|;
    ghost var stack := w.ns.base.stack;
    PrettyOpen(w, container);
    assert |w.ns.base.stack| == d + 1;
    ghost var withOpen := w.ns.base.out;
    PrettyElement(w, item, text);
    ghost var withElement := w.ns.base.out;
    assert withElement == withOpen + w.LineBreak(d + 1) + ElementText(item, [], w.Formatted(text, d + 1));
    w.Comment(comment);
    ghost var withComment := w.ns.base.out;
    assert withComment == withElement + w.LineBreak(d + 1) + CommentText(w.Formatted(comment, d + 1));
    w.Close(false);
    assert w.ns.base.stack == stack;
    assert w.ns.base.out == withComment + w.LineBreak(d) + CloseTag(container);
  }

  /** A container without attributes or declarations whose name has no prefix. */
  method PrettyOpen(w: IndentingWriter, name: string)
    requires w.Valid() && w.ns.scopes > 0 && ':' !in name
    modifies w.ns, w.ns.base
    ensures w.Valid() && w.ns.scopes == old(w.ns.scopes) + 1 && w.ns.visible == old(w.ns.visible)
    ensures w.ns.base.out == old(w.ns.base.out) + w.LineBreak(|old(w.ns.base.stack)|) + OpenTag(name, [])
    ensures w.ns.base.stack == old(w.ns.base.stack) + [name]
  {
    assert ProcessNamespaces(w.ns.visible, name, [], []) == Processed(w.ns.visible, Accepted([])) by {
      assert Keys([]) == {};
      assert w.ns.visible + {} == w.ns.visible;
      DeclarationsOnly(w.ns.visible, name, []);
      assert XmlnsAttrs([]) == [];
    }
    var unknown := w.Open(name, [], []);
  }

  /** An element without attributes or declarations whose name has no prefix. */
  method PrettyElement(w: IndentingWriter, name: string, text: string)
    requires w.Valid() && w.ns.scopes > 0 && ':' !in name
    modifies w.ns, w.ns.base
    ensures w.Valid() && w.ns.scopes == old(w.ns.scopes) && w.ns.visible == old(w.ns.visible)
    ensures w.ns.base.out == old(w.ns.base.out) + w.LineBreak(|old(w.ns.base.stack)|) +
      ElementText(name, [], w.Formatted(text, |old(w.ns.base.stack)|))
    ensures w.ns.base.stack == old(w.ns.base.stack)
  {
    assert ProcessNamespaces(w.ns.visible, name, [], []) == Processed(w.ns.visible, Accepted([])) by {
      assert Keys([]) == {};
      assert w.ns.visible + {} == w.ns.visible;
      DeclarationsOnly(w.ns.visible, name, []);
      assert XmlnsAttrs([]) == [];
    }
    var unknown := w.Element(name, [], [], text);
  }
}
