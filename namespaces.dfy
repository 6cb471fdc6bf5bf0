/**
 * The prefix check and the `xmlns` declarations of `NamespacedGenerator._process_namespaces`
 * (elementflow.py:144-165), as functions of the visible-prefix set and the call's arguments.
 */
module Namespaces {
  import opened Strings
  import opened Escaping
  import opened Wrappers

  /** The keys of a mapping. */
  function Keys(m: Attrs): set<string> {
    set i | 0 <= i < |m| :: m[i].0
  }

  lemma KeysSingleton(k: string, v: string)
    ensures Keys([(k, v)]) == {k}
  {
    assert [(k, v)][0].0 == k;
  }

  lemma KeysPair(k1: string, v1: string, k2: string, v2: string)
    ensures Keys([(k1, v1), (k2, v2)]) == {k1, k2}
  {
    var m := [(k1, v1), (k2, v2)];
    assert m[0].0 == k1 && m[1].0 == k2;
  }

  /** A Python dict never holds the same key twice. */
  predicate DistinctKeys(m: Attrs) {
    forall i, j :: 0 <= i < j < |m| ==> m[i].0 != m[j].0
  }

  /** `name.split(':')[0]`: the prefix of a qualified name. */
  function PrefixOf(name: string): string {
    TakeUntil(name, ':')
  }

  /** A name passes the check when it has no colon or its prefix is visible. */
  predicate Resolves(name: string, visible: set<string>) {
    ':' in name ==> PrefixOf(name) in visible
  }

  /** The names the check looks at, in order: the element name, then the attribute names. */
  function CheckedNames(name: string, attrs: Attrs): (names: seq<string>)
    ensures |names| == |attrs| + 1 && names[0] == name
    ensures forall i :: 0 <= i < |attrs| ==> names[i + 1] == attrs[i].0
  {
    [name] + seq(|attrs|, i requires 0 <= i < |attrs| => attrs[i].0)
  }

  /** `names[i]` is the first name that does not pass. */
  predicate FirstFailure(names: seq<string>, visible: set<string>, i: int) {
    0 <= i < |names| && !Resolves(names[i], visible) &&
    forall j :: 0 <= j < i ==> Resolves(names[j], visible)
  }

  /**
   * The loop at elementflow.py:155-158: the prefix of the first name, in order, that has a
   * colon and whose prefix is not visible, or `None` when every name passes.
   */
  function FirstUnknown(names: seq<string>, visible: set<string>): (r: Option<string>)
    ensures r.None? <==> forall i :: 0 <= i < |names| ==> Resolves(names[i], visible)
    ensures r.Some? ==> r.value !in visible
    ensures r.Some? ==> exists i :: FirstFailure(names, visible, i) && PrefixOf(names[i]) == r.value
    decreases |names|
  {
    if names == [] then None
    else if ':' in names[0] && PrefixOf(names[0]) !in visible then Some(PrefixOf(names[0]))
    else
      var r := FirstUnknown(names[1..], visible);
      assert forall i :: 1 <= i < |names| ==> names[i] == names[1..][i - 1];
      assert r.Some? ==> exists i :: FirstFailure(names, visible, i) && PrefixOf(names[i]) == r.value by {
        if r.Some? {
          var i :| FirstFailure(names[1..], visible, i) && PrefixOf(names[1..][i]) == r.value;
          assert FirstFailure(names, visible, i + 1);
        }
      }
      r
  }

  /** The attribute that declares `prefix`: `xmlns:prefix`, or `xmlns` for the default (empty) prefix. */
  function XmlnsName(prefix: string): string {
    if prefix == "" then "xmlns" else "xmlns:" + prefix
  }

  /** The dict comprehension of elementflow.py:160-163: each declaration as an attribute. */
  function XmlnsAttrs(namespaces: Attrs): (r: Attrs)
    ensures |r| == |namespaces|
    ensures forall i :: 0 <= i < |r| ==> r[i] == (XmlnsName(namespaces[i].0), namespaces[i].1)
  {
    if namespaces == [] then []
    else [(XmlnsName(namespaces[0].0), namespaces[0].1)] + XmlnsAttrs(namespaces[1..])
  }

  /** Distinct prefixes are declared by distinct attributes. */
  lemma XmlnsNameInjective(p: string, q: string)
    requires p != q
    ensures XmlnsName(p) != XmlnsName(q)
  {
    if p != "" && q != "" {
      assert XmlnsName(p)[6..] == p && XmlnsName(q)[6..] == q;
    } else if p == "" {
      assert |XmlnsName(q)| > 5;
    } else {
      assert |XmlnsName(p)| > 5;
    }
  }

  /**
   * `attrs[key] = value` on a dict: an existing key keeps its place and takes the new value,
   * a new key goes at the end.
   */
  function Put(attrs: Attrs, key: string, value: string): (r: Attrs)
    ensures Keys(r) == Keys(attrs) + {key}
    ensures (key, value) in r
    ensures key !in Keys(attrs) ==> r == attrs + [(key, value)]
    ensures key in Keys(attrs) ==> |r| == |attrs|
    ensures key in Keys(attrs) ==>
      forall i :: 0 <= i < |attrs| ==> r[i] == (attrs[i].0, if attrs[i].0 == key then value else attrs[i].1)
  {
    if key !in Keys(attrs) then
      var r := attrs + [(key, value)];
      assert r[|attrs|] == (key, value);
      assert forall i :: 0 <= i < |attrs| ==> r[i] == attrs[i];
      r
    else
      var r := seq(|attrs|, i requires 0 <= i < |attrs| => if attrs[i].0 == key then (key, value) else attrs[i]);
      assert Keys(r) == Keys(attrs) by {
        forall x | x in Keys(attrs) ensures x in Keys(r) {
          var i :| 0 <= i < |attrs| && attrs[i].0 == x;
          assert r[i].0 == x;
        }
      }
      var j :| 0 <= j < |attrs| && attrs[j].0 == key;
      assert r[j] == (key, value);
      r
  }

  /** The keys of a non-empty mapping: the first key and the keys of the rest. */
  lemma KeysCons(m: Attrs)
    requires m != []
    ensures Keys(m) == {m[0].0} + Keys(m[1..])
  {
    forall x | x in Keys(m) ensures x in {m[0].0} + Keys(m[1..]) {
      var i :| 0 <= i < |m| && m[i].0 == x;
      if i > 0 {
        assert m[1..][i - 1].0 == x;
      }
    }
    forall x | x in Keys(m[1..]) ensures x in Keys(m) {
      var i :| 0 <= i < |m[1..]| && m[1..][i].0 == x;
      assert m[i + 1].0 == x;
    }
  }

  /**
   * `attrs.update(items)`: `Put` for each item, in order (elementflow.py:164). The keys are
   * those of both, and nothing is dropped.
   */
  function Update(attrs: Attrs, items: Attrs): (r: Attrs)
    ensures Keys(r) == Keys(attrs) + Keys(items)
    ensures |r| >= |attrs|
    decreases |items|
  {
    if items == [] then attrs
    else
      KeysCons(items);
      Update(Put(attrs, items[0].0, items[0].1), items[1..])
  }

  /** `update` keeps every existing key in its place. */
  lemma {:induction false} UpdateKeepsPlaces(attrs: Attrs, items: Attrs)
    ensures var r := Update(attrs, items); forall i :: 0 <= i < |attrs| ==> r[i].0 == attrs[i].0
    decreases |items|
  {
    if items != [] {
      var next := Put(attrs, items[0].0, items[0].1);
      UpdateKeepsPlaces(next, items[1..]);
      var r := Update(next, items[1..]);
      assert Update(attrs, items) == r;
      forall i | 0 <= i < |attrs| ensures r[i].0 == attrs[i].0 {
        assert next[i].0 == attrs[i].0;
      }
    }
  }

  /** The existing keys that none of the items mentions keep their values. */
  lemma {:induction false} UpdateKeepsValues(attrs: Attrs, items: Attrs)
    ensures var r := Update(attrs, items);
      forall i :: 0 <= i < |attrs| && attrs[i].0 !in Keys(items) ==> r[i] == attrs[i]
    decreases |items|
  {
    if items != [] {
      var (k, v) := items[0];
      var next := Put(attrs, k, v);
      KeysCons(items);
      UpdateKeepsValues(next, items[1..]);
      var r := Update(next, items[1..]);
      assert Update(attrs, items) == r;
      forall i | 0 <= i < |attrs| && attrs[i].0 !in Keys(items) ensures r[i] == attrs[i] {
        assert attrs[i].0 != k && attrs[i].0 !in Keys(items[1..]);
        assert next[i] == attrs[i];
      }
    }
  }

  /** The last item always ends up in the result: a later item wins over an earlier one. */
  lemma {:induction false} UpdateHasLast(attrs: Attrs, items: Attrs)
    requires items != []
    ensures items[|items| - 1] in Update(attrs, items)
    decreases |items|
  {
    var next := Put(attrs, items[0].0, items[0].1);
    var rest := items[1..];
    assert Update(attrs, items) == Update(next, rest);
    if rest != [] {
      UpdateHasLast(next, rest);
      assert rest[|rest| - 1] == items[|items| - 1];
    }
  }

  /**
   * When a key repeats among the items, the last item with that key wins: every item that no
   * later item overrides is in the result.
   */
  lemma {:induction false} UpdateLastWins(attrs: Attrs, items: Attrs, j: nat)
    requires j < |items|
    requires forall m :: j < m < |items| ==> items[m].0 != items[j].0
    ensures items[j] in Update(attrs, items)
    decreases |items|
  {
    var (k, v) := items[0];
    var next := Put(attrs, k, v);
    var rest := items[1..];
    assert Update(attrs, items) == Update(next, rest);
    if j == 0 {
      assert k !in Keys(rest) by {
        forall m | 0 <= m < |rest| ensures rest[m].0 != k {
          assert rest[m] == items[m + 1];
        }
      }
      var i :| 0 <= i < |next| && next[i] == (k, v);
      UpdateKeepsValues(next, rest);
      assert Update(next, rest)[i] == (k, v);
    } else {
      forall m | j - 1 < m < |rest| ensures rest[m].0 != rest[j - 1].0 {
        assert rest[m] == items[m + 1] && rest[j - 1] == items[j];
      }
      UpdateLastWins(next, rest, j - 1);
      assert rest[j - 1] == items[j];
    }
  }

  /** `d[k] = v` keeps a dict a dict: no key appears twice afterwards. */
  lemma PutDistinct(attrs: Attrs, key: string, value: string)
    requires DistinctKeys(attrs)
    ensures DistinctKeys(Put(attrs, key, value))
  {
    var r := Put(attrs, key, value);
    if key !in Keys(attrs) {
      forall i, j | 0 <= i < j < |r| ensures r[i].0 != r[j].0 {
        if j == |attrs| {
          assert r[i] == attrs[i] && attrs[i].0 in Keys(attrs);
        } else {
          assert r[i] == attrs[i] && r[j] == attrs[j];
        }
      }
    } else {
      forall i, j | 0 <= i < j < |r| ensures r[i].0 != r[j].0 {
        assert r[i].0 == attrs[i].0 && r[j].0 == attrs[j].0;
      }
    }
  }

  /** `update` keeps a dict a dict: no key appears twice afterwards. */
  lemma {:induction false} UpdateDistinct(attrs: Attrs, items: Attrs)
    requires DistinctKeys(attrs)
    ensures DistinctKeys(Update(attrs, items))
    decreases |items|
  {
    if items != [] {
      var next := Put(attrs, items[0].0, items[0].1);
      PutDistinct(attrs, items[0].0, items[0].1);
      UpdateDistinct(next, items[1..]);
      assert Update(attrs, items) == Update(next, items[1..]);
    }
  }

  /**
   * Starting from a dict, the last item with a given key is the one entry with that key in
   * the result: `update` replaces the value, it never adds a second pair for the key.
   */
  lemma UpdateLastWinsOnly(attrs: Attrs, items: Attrs, j: nat)
    requires DistinctKeys(attrs)
    requires j < |items|
    requires forall m :: j < m < |items| ==> items[m].0 != items[j].0
    ensures var r := Update(attrs, items);
      forall i :: 0 <= i < |r| && r[i].0 == items[j].0 ==> r[i] == items[j]
  {
    var r := Update(attrs, items);
    UpdateLastWins(attrs, items, j);
    UpdateDistinct(attrs, items);
    var m :| 0 <= m < |r| && r[m] == items[j];
    forall i | 0 <= i < |r| && r[i].0 == items[j].0 ensures r[i] == items[j] {
      assert r[i].0 == r[m].0;
      assert i == m;
    }
  }

  /** The items after the first of a mapping without repeated keys: none repeats, none is the first. */
  lemma DistinctTail(m: Attrs)
    requires m != [] && DistinctKeys(m)
    ensures DistinctKeys(m[1..]) && m[0].0 !in Keys(m[1..])
  {
    var rest := m[1..];
    forall i, j | 0 <= i < j < |rest| ensures rest[i].0 != rest[j].0 {
      assert rest[i] == m[i + 1] && rest[j] == m[j + 1];
    }
    forall j | 0 <= j < |rest| ensures rest[j].0 != m[0].0 {
      assert rest[j] == m[j + 1];
    }
  }

  /**
   * When none of the new keys is already there, `update` appends the items in their order.
   */
  lemma {:induction false} UpdateAppends(attrs: Attrs, items: Attrs)
    requires DistinctKeys(items)
    requires Keys(attrs) !! Keys(items)
    ensures Update(attrs, items) == attrs + items
    decreases |items|
  {
    if items != [] {
      var (k, v) := items[0];
      var rest := items[1..];
      KeysCons(items);
      DistinctTail(items);
      var next := Put(attrs, k, v);
      assert next == attrs + [(k, v)];
      UpdateAppends(next, rest);
      assert [(k, v)] + rest == items;
      AppendAssoc(attrs, [(k, v)], rest);
    }
  }

  /** What `_process_namespaces` decides: the merged attributes, or the first unknown prefix. */
  datatype Checked = Accepted(attrs: Attrs) | UnknownPrefix(prefix: string)

  datatype Processed = Processed(visible: set<string>, checked: Checked)

  /**
   * `_process_namespaces` (elementflow.py:144-165). The declared prefixes join the visible set
   * first (`prefixes |= set(namespaces)`), whatever the check then decides. The element name
   * and the caller's attribute names are checked against that enlarged set; on success the
   * declarations are merged into the attributes as `xmlns` items.
   */
  function ProcessNamespaces(visible: set<string>, name: string, attrs: Attrs, namespaces: Attrs): (r: Processed)
    ensures r.visible == visible + Keys(namespaces)
    ensures r.checked.Accepted? <==>
      Resolves(name, r.visible) && forall i :: 0 <= i < |attrs| ==> Resolves(attrs[i].0, r.visible)
    ensures r.checked.UnknownPrefix? ==> r.checked.prefix !in r.visible
    ensures r.checked.UnknownPrefix? ==> exists i ::
      FirstFailure(CheckedNames(name, attrs), r.visible, i) && PrefixOf(CheckedNames(name, attrs)[i]) == r.checked.prefix
    ensures r.checked.Accepted? ==> r.checked.attrs == Update(attrs, XmlnsAttrs(namespaces))
  {
    var prefixes := visible + Keys(namespaces);
    var names := CheckedNames(name, attrs);
    match FirstUnknown(names, prefixes)
    case Some(p) => Processed(prefixes, UnknownPrefix(p))
    case None =>
      assert forall i :: 0 <= i < |attrs| ==> names[i + 1] == attrs[i].0;
      Processed(prefixes, Accepted(Update(attrs, XmlnsAttrs(namespaces))))
  }

  /** The declarations of one call are distinct attributes when the prefixes are distinct. */
  lemma XmlnsDistinct(namespaces: Attrs)
    requires DistinctKeys(namespaces)
    ensures DistinctKeys(XmlnsAttrs(namespaces))
  {
    var r := XmlnsAttrs(namespaces);
    forall i, j | 0 <= i < j < |r| ensures r[i].0 != r[j].0 {
      XmlnsNameInjective(namespaces[i].0, namespaces[j].0);
    }
  }

  /**
   * When the caller's attributes declare no namespace themselves, the accepted attributes
   * are the caller's, in their order, followed by one `xmlns` item per declaration.
   */
  lemma DeclarationsAppended(visible: set<string>, name: string, attrs: Attrs, namespaces: Attrs)
    requires DistinctKeys(namespaces)
    requires Keys(attrs) !! Keys(XmlnsAttrs(namespaces))
    requires ProcessNamespaces(visible, name, attrs, namespaces).checked.Accepted?
    ensures ProcessNamespaces(visible, name, attrs, namespaces).checked.attrs == attrs + XmlnsAttrs(namespaces)
  {
    XmlnsDistinct(namespaces);
    UpdateAppends(attrs, XmlnsAttrs(namespaces));
  }

  /**
   * An element without attributes whose name resolves once the call's own declarations are
   * visible is accepted, and its attributes are exactly those declarations, in order.
   */
  lemma DeclarationsOnly(visible: set<string>, name: string, namespaces: Attrs)
    requires DistinctKeys(namespaces)
    requires Resolves(name, visible + Keys(namespaces))
    ensures ProcessNamespaces(visible, name, [], namespaces) ==
      Processed(visible + Keys(namespaces), Accepted(XmlnsAttrs(namespaces)))
  {
    XmlnsDistinct(namespaces);
    assert Keys([]) == {};
    UpdateAppends([], XmlnsAttrs(namespaces));
    assert [] + XmlnsAttrs(namespaces) == XmlnsAttrs(namespaces);
  }

  /** The prefix of `p:local` is `p`. */
  lemma PrefixOfQualified(p: string, local: string)
    requires ':' !in p
    ensures ':' in p + ":" + local && PrefixOf(p + ":" + local) == p
  {
    assert (p + ":" + local)[|p|] == ':';
    assert p + ":" + local == p + (":" + local);
    TakeUntilConcat(p, ":" + local, ':');
  }

  /**
   * A prefix declared by a call is already usable for that call's own element name, whether
   * or not it was visible before.
   */
  lemma SelfDeclaredPrefix(visible: set<string>, p: string, local: string, uri: string)
    requires ':' !in p
    ensures var r := ProcessNamespaces(visible, p + ":" + local, [], [(p, uri)]);
      r.checked == Accepted([(XmlnsName(p), uri)]) && p in r.visible
  {
    PrefixOfQualified(p, local);
    KeysSingleton(p, uri);
    assert Keys([]) == {};
    var x := XmlnsAttrs([(p, uri)]);
    assert x == [(XmlnsName(p), uri)];
    assert Put([], XmlnsName(p), uri) == [(XmlnsName(p), uri)];
    assert Update([], x) == Update([(XmlnsName(p), uri)], x[1..]);
  }

  /** A qualified element name whose prefix is not visible, even with the call's declarations, is refused with that prefix. */
  lemma UnknownNamePrefix(visible: set<string>, p: string, local: string, attrs: Attrs, namespaces: Attrs)
    requires ':' !in p && p !in visible + Keys(namespaces)
    ensures ProcessNamespaces(visible, p + ":" + local, attrs, namespaces) ==
      Processed(visible + Keys(namespaces), UnknownPrefix(p))
  {
    var name := p + ":" + local;
    PrefixOfQualified(p, local);
    var names := CheckedNames(name, attrs);
    assert FirstUnknown(names, visible + Keys(namespaces)) == Some(p);
  }

  /**
   * A resolving element name with one attribute whose prefix is not visible, even with the
   * call's declarations: the call is refused with the attribute's prefix.
   */
  lemma UnknownAttributePrefix(visible: set<string>, name: string, p: string, local: string, v: string, namespaces: Attrs)
    requires Resolves(name, visible + Keys(namespaces))
    requires ':' !in p && p !in visible + Keys(namespaces)
    ensures ProcessNamespaces(visible, name, [(p + ":" + local, v)], namespaces) ==
      Processed(visible + Keys(namespaces), UnknownPrefix(p))
  {
    var key := p + ":" + local;
    var vis := visible + Keys(namespaces);
    PrefixOfQualified(p, local);
    var names := CheckedNames(name, [(key, v)]);
    assert names == [name, key] && names[1..] == [key];
    assert FirstUnknown([key], vis) == Some(p);
    assert FirstUnknown(names, vis) == FirstUnknown(names[1..], vis);
  }

  /** tests.py's rejected root `n1:root` with only `n` declared: `n1` is named, `n` is added all the same. */
  lemma UndeclaredRootPrefix()
    ensures ProcessNamespaces({"xml"}, "n1:root", [], [("n", "urn:n")]) ==
      Processed({"xml", "n"}, UnknownPrefix("n1"))
  {
    KeysSingleton("n", "urn:n");
    assert "n1" + ":" + "root" == "n1:root";
    UnknownNamePrefix({"xml"}, "n1", "root", [], [("n", "urn:n")]);
  }

  /** tests.py's root `n:root` with the attribute `n1:k` and only `n` declared: `n1` is named. */
  lemma UndeclaredAttributePrefix()
    ensures ProcessNamespaces({"xml"}, "n:root", [("n1:k", "v")], [("n", "urn:n")]) ==
      Processed({"xml", "n"}, UnknownPrefix("n1"))
  {
    KeysSingleton("n", "urn:n");
    PrefixOfQualified("n", "root");
    assert "n" + ":" + "root" == "n:root" && "n1" + ":" + "k" == "n1:k";
    UnknownAttributePrefix({"xml"}, "n:root", "n1", "k", "v", [("n", "urn:n")]);
  }
}
