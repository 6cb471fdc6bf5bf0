/**
 * `XMLGenerator` (elementflow.py:56-126): the base writer. It keeps the names of the open
 * containers on a stack and appends every piece of output to its sink.
 */
module Base {
  import opened Strings
  import opened Escaping
  import opened Document

  /** The arguments of one `element` call, as the function given to `map` returns them. */
  datatype ElementArgs = ElementArgs(name: string, attrs: Attrs, text: string)

  /** What a run of `element` calls writes, one after another. */
  function ElementsText(calls: seq<ElementArgs>): string {
    if calls == [] then ""
    else
      var c := calls[|calls| - 1];
      ElementsText(calls[..|calls| - 1]) + ElementText(c.name, c.attrs, c.text)
  }

  /** The arguments `map` passes to `element`, one call per item, in order. */
  function Calls<T>(f: T -> ElementArgs, items: seq<T>): (calls: seq<ElementArgs>)
    ensures |calls| == |items|
    ensures forall i :: 0 <= i < |items| ==> calls[i] == f(items[i])
  {
    seq(|items|, i requires 0 <= i < |items| => f(items[i]))
  }

  lemma ElementsTextStep(calls: seq<ElementArgs>, i: nat)
    requires i < |calls|
    ensures ElementsText(calls[..i + 1]) ==
      ElementsText(calls[..i]) + ElementText(calls[i].name, calls[i].attrs, calls[i].text)
  {
    assert calls[..i + 1][..i] == calls[..i];
  }

  class Writer {
    /** Everything written to the sink so far (the sink only ever grows). */
    var out: string
    /** `self.stack`: names of the open containers, the root first. */
    var stack: seq<string>
    /** The document the calls so far describe. */
    ghost var doc: Partial

    /** The sink holds the header and then the text of `doc`; `stack` names its open containers. */
    ghost predicate Valid()
      reads this
    {
      Names(doc.open) == stack && out == Header + Render(doc)
    }

    /**
     * Once every container is closed, the sink holds the header and the completed nodes, one
     * after another, and nothing else.
     */
    lemma Finished()
      requires Valid() && stack == []
      ensures out == Header + SerializeAll(doc.top)
    {
      RenderClosed(doc);
    }

    /** The first steps of `__init__` (elementflow.py:71-73): the header, an empty stack. */
    constructor Start()
      ensures Valid()
      ensures out == Header && stack == [] && doc == Empty
    {
      out := Header;
      stack := [];
      doc := Empty;
    }

    /** `XMLGenerator(file, root, attrs)` (elementflow.py:70-74): the header, then the root opened. */
    constructor (root: string, attrs: Attrs)
      ensures Valid()
      ensures out == Header + OpenTag(root, attrs) && stack == [root]
      ensures doc == Push(Empty, root, attrs)
    {
      out := Header;
      stack := [];
      doc := Empty;
      new;
      Open(root, attrs);
    }

    /** `container` (elementflow.py:84-91): writes the start tag and pushes the name. */
    method Open(name: string, attrs: Attrs)
      requires Valid()
      modifies this
      ensures Valid()
      ensures out == old(out) + OpenTag(name, attrs)
      ensures stack == old(stack) + [name]
      ensures doc == Push(old(doc), name, attrs)
    {
      ghost var d := doc;
      var tag := OpenTag(name, attrs);
      assert Header + Render(Push(d, name, attrs)) == out + tag by {
        RenderPush(d, name, attrs);
        AppendAssoc(Header, Render(d), tag);
      }
      assert Names(Push(d, name, attrs).open) == stack + [name] by {
        RenderPush(d, name, attrs);
      }
      out := out + tag;
      stack := stack + [name];
      doc := Push(d, name, attrs);
    }

    /**
     * `__exit__` (elementflow.py:79-82). When the `with` body raised, nothing is written and
     * the stack stays as it is, so the document is left unclosed; otherwise the innermost
     * name is popped and its end tag written. Closing with nothing open is an IndexError.
     */
    method Close(exceptional: bool)
      requires Valid()
      requires !exceptional ==> stack != []
      modifies this
      ensures Valid()
      ensures exceptional ==> out == old(out) && stack == old(stack) && doc == old(doc)
      ensures !exceptional ==>
        out == old(out) + CloseTag(old(stack)[|old(stack)| - 1]) &&
        stack == old(stack)[..|old(stack)| - 1] &&
        doc == Pop(old(doc))
    {
      if exceptional {
        return;
      }
      ghost var d := doc;
      var k := |stack| - 1;
      var tag := CloseTag(stack[k]);
      assert tag == CloseTag(d.open[k].name);
      assert Header + Render(Pop(d)) == out + tag by {
        RenderPop(d);
        AppendAssoc(Header, Render(d), tag);
      }
      assert Names(Pop(d).open) == stack[..k] by {
        RenderPop(d);
      }
      out := out + tag;
      stack := stack[..k];
      doc := Pop(d);
    }

    /** Adds one node to the document and its text to the sink. */
    method Emit(n: Node)
      requires Valid()
      modifies this
      ensures Valid()
      ensures out == old(out) + Serialize(n)
      ensures stack == old(stack) && doc == Add(old(doc), n)
    {
      ghost var d := doc;
      var text := Serialize(n);
      assert Header + Render(Add(d, n)) == out + text by {
        RenderAdd(d, n);
        AppendAssoc(Header, Render(d), text);
      }
      assert Names(Add(d, n).open) == stack by {
        RenderAdd(d, n);
      }
      out := out + text;
      doc := Add(d, n);
    }

    /**
     * `element` (elementflow.py:93-100): `<name attrs>text</name>` with the text escaped,
     * or `<name attrs/>` when the text is empty. The stack does not change.
     */
    method Element(name: string, attrs: Attrs, text: string)
      requires Valid()
      modifies this
      ensures Valid()
      ensures out == old(out) + ElementText(name, attrs, text)
      ensures stack == old(stack) && doc == Add(old(doc), Leaf(name, attrs, text))
    {
      Emit(Leaf(name, attrs, text));
    }

    /** `text` (elementflow.py:102-106): the escaped value, with no markup around it. */
    method Text(value: string)
      requires Valid()
      modifies this
      ensures Valid()
      ensures out == old(out) + Escape(value)
      ensures stack == old(stack) && doc == Add(old(doc), Node.Text(value))
    {
      Emit(Node.Text(value));
    }

    /** `comment` (elementflow.py:108-113): `<!--`, the value with every `--` removed, `-->`. */
    method Comment(value: string)
      requires Valid()
      modifies this
      ensures Valid()
      ensures out == old(out) + CommentText(value)
      ensures stack == old(stack) && doc == Add(old(doc), Node.Comment(value))
    {
      Emit(Node.Comment(value));
    }

    /**
     * `self.file.write` with the newline-and-indent runs of the pretty-printer: whitespace
     * goes to the sink as it is, which is what escaping it would give too.
     */
    method Write(s: string)
      requires Valid() && Blank(s)
      modifies this
      ensures Valid()
      ensures out == old(out) + s
      ensures stack == old(stack) && doc == Add(old(doc), Node.Text(s))
    {
      assert '&' !in s && '<' !in s by {
        forall i | 0 <= i < |s| ensures s[i] != '&' && s[i] != '<' {
          assert s[i] == ' ' || s[i] == '\n';
        }
      }
      Emit(Node.Text(s));
    }

    /**
     * `map` (elementflow.py:115-126): one `element` call per item, in the order of the items,
     * with the arguments `f` gives for it.
     */
    method Map<T>(f: T -> ElementArgs, items: seq<T>)
      requires Valid()
      modifies this
      ensures Valid()
      ensures out == old(out) + ElementsText(Calls(f, items))
      ensures stack == old(stack)
    {
      var calls := Calls(f, items);
      for i := 0 to |items|
        invariant Valid()
        invariant stack == old(stack)
        invariant out == old(out) + ElementsText(calls[..i])
      {
        var c := f(items[i]);
        assert c == calls[i];
        ghost var t := ElementText(c.name, c.attrs, c.text);
        Element(c.name, c.attrs, c.text);
        assert ElementsText(calls[..i + 1]) == ElementsText(calls[..i]) + t by {
          ElementsTextStep(calls, i);
        }
        AppendAssoc(old(out), ElementsText(calls[..i]), t);
      }
      assert calls[..|items|] == calls;
    }
  }
}
