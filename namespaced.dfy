/**
 * `NamespacedGenerator` (elementflow.py:129-189): the base writer plus the visible-prefix set.
 *
 * `self.namespaces` starts as a one-element list holding the set `{'xml'}`. The `|=` at
 * elementflow.py:152 grows `self.namespaces[-1]` in place, and `container` appends that same
 * set object again (elementflow.py:178), so every entry of the list is one shared set that only
 * grows. The model keeps that one set, `visible`, and the length of the list, `scopes`.
 */
module Namespaced {
  import opened Wrappers
  import opened Escaping
  import opened Document
  import opened Namespaces
  import opened Base

  class NamespacedWriter {
    /** The base writer the calls are passed to, with the sink and the container stack. */
    const base: Writer
    /** The one set of visible prefixes every entry of `self.namespaces` refers to. */
    var visible: set<string>
    /** `len(self.namespaces)`. */
    var scopes: nat

    ghost predicate Valid()
      reads this, base
    {
      base.Valid() && "xml" in visible && scopes <= |base.stack| + 1
    }

    /**
     * `__init__` up to the opening of the root (elementflow.py:141, 71-73): the visible set
     * `{'xml'}`, one entry in `self.namespaces`, the header in the sink.
     */
    constructor Start()
      ensures Valid() && fresh(base)
      ensures base.out == Header && base.stack == [] && base.doc == Empty
      ensures visible == {"xml"} && scopes == 1
    {
      base := new Writer.Start();
      visible := {"xml"};
      scopes := 1;
    }

    /**
     * `container` (elementflow.py:171-179). The declared prefixes become visible even when the
     * check then fails; on failure (a ValueError) nothing is written and nothing is pushed.
     * `self.namespaces[-1]` on an empty list is an IndexError, hence `scopes > 0`.
     */
    method Open(name: string, attrs: Attrs, namespaces: Attrs) returns (unknown: Option<string>)
      requires Valid() && scopes > 0
      modifies this, base
      ensures Valid()
      ensures visible == old(visible) + Keys(namespaces)
      ensures match ProcessNamespaces(old(visible), name, attrs, namespaces).checked
        case Accepted(merged) =>
          unknown == None && scopes == old(scopes) + 1 &&
          base.out == old(base.out) + OpenTag(name, merged) &&
          base.stack == old(base.stack) + [name] &&
          base.doc == Push(old(base.doc), name, merged)
        case UnknownPrefix(p) =>
          unknown == Some(p) && scopes == old(scopes) &&
          base.out == old(base.out) && base.stack == old(base.stack) && base.doc == old(base.doc)
    {
      var processed := ProcessNamespaces(visible, name, attrs, namespaces);
      visible := processed.visible;
      match processed.checked {
        case UnknownPrefix(p) =>
          unknown := Some(p);
        case Accepted(merged) =>
          scopes := scopes + 1;
          base.Open(name, merged);
          unknown := None;
      }
    }

    /**
     * `element` (elementflow.py:181-189): the same check and merge as `Open`, then the base
     * `element`; nothing is pushed.
     */
    method Element(name: string, attrs: Attrs, namespaces: Attrs, text: string) returns (unknown: Option<string>)
      requires Valid() && scopes > 0
      modifies this, base
      ensures Valid()
      ensures visible == old(visible) + Keys(namespaces) && scopes == old(scopes)
      ensures base.stack == old(base.stack)
      ensures match ProcessNamespaces(old(visible), name, attrs, namespaces).checked
        case Accepted(merged) =>
          unknown == None &&
          base.out == old(base.out) + ElementText(name, merged, text) &&
          base.doc == Add(old(base.doc), Leaf(name, merged, text))
        case UnknownPrefix(p) =>
          unknown == Some(p) && base.out == old(base.out) && base.doc == old(base.doc)
    {
      var processed := ProcessNamespaces(visible, name, attrs, namespaces);
      visible := processed.visible;
      match processed.checked {
        case UnknownPrefix(p) =>
          unknown := Some(p);
        case Accepted(merged) =>
          base.Element(name, merged, text);
          unknown := None;
      }
    }

    /**
     * `__exit__` (elementflow.py:167-169): the base `__exit__`, then one entry less in
     * `self.namespaces`, on the exceptional path as well. The visible set keeps every prefix.
     */
    method Close(exceptional: bool)
      requires Valid() && scopes > 0
      requires !exceptional ==> base.stack != []
      modifies this, base
      ensures Valid()
      ensures visible == old(visible) && scopes == old(scopes) - 1
      ensures exceptional ==> base.out == old(base.out) && base.stack == old(base.stack) && base.doc == old(base.doc)
      ensures !exceptional ==>
        base.out == old(base.out) + CloseTag(old(base.stack)[|old(base.stack)| - 1]) &&
        base.stack == old(base.stack)[..|old(base.stack)| - 1] &&
        base.doc == Pop(old(base.doc))
    {
      base.Close(exceptional);
      scopes := scopes - 1;
    }
  }
}
