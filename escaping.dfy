/**
 * The escaping helpers of elementflow.py (`escape`, `quote_value`,
 * `convert_attrs_to_string`) and the comment sanitising of `XMLGenerator.comment`,
 * against the rules of XML 1.0 for character data (section 2.4), attribute values
 * (section 3.1), comments (section 2.5) and the predefined entities (section 4.6).
 */
module Escaping {
  import opened Strings
  import opened Wrappers

  /** An attribute mapping as a Python dict holds it: (name, value) pairs in insertion order. */
  type Attrs = seq<(string, string)>

  // ----- character data and attribute values -----

  /** The entity reference that replaces `c`; `quot` also replaces the double quote. */
  function EscapeChar(c: char, quot: bool): string {
    if c == '&' then "&amp;"
    else if c == '<' then "&lt;"
    else if c == '"' && quot then "&quot;"
    else [c]
  }

  /** An entity reference written by the escaper starts at position `i` of `r`. */
  predicate EntityAt(r: string, i: nat)
    requires i < |r|
  {
    StartsWith(r[i..], "&amp;") || StartsWith(r[i..], "&lt;") || StartsWith(r[i..], "&quot;")
  }

  /**
   * Reference definition of escaping: every character replaced by `EscapeChar`, one at a time.
   * The result has no `<`, and no `"` when quotes are escaped.
   */
  function EscapeChars(s: string, quot: bool): (r: string)
    ensures '<' !in r
    ensures quot ==> '"' !in r
    decreases |s|
  {
    if s == [] then [] else EscapeChar(s[0], quot) + EscapeChars(s[1..], quot)
  }

  /** Escaping works character by character, so it distributes over concatenation. */
  lemma {:induction false} EscapeCharsAppend(a: string, b: string, quot: bool)
    ensures EscapeChars(a + b, quot) == EscapeChars(a, quot) + EscapeChars(b, quot)
    decreases |a|
  {
    if a != [] {
      var ab, h := a + b, EscapeChar(a[0], quot);
      assert ab[1..] == a[1..] + b && ab[0] == a[0];
      assert EscapeChars(ab, quot) == h + EscapeChars(a[1..] + b, quot);
      EscapeCharsAppend(a[1..], b, quot);
      AppendAssoc(h, EscapeChars(a[1..], quot), EscapeChars(b, quot));
    } else {
      assert a + b == b;
    }
  }

  /** Text with none of the escaped characters comes through unchanged. */
  lemma {:induction false} EscapeCharsPlain(s: string, quot: bool)
    requires '&' !in s && '<' !in s && (quot ==> '"' !in s)
    ensures EscapeChars(s, quot) == s
    decreases |s|
  {
    if s != [] {
      EscapeCharsPlain(s[1..], quot);
    }
  }

  predicate NoBareAmpersand(r: string) {
    forall i :: 0 <= i < |r| && r[i] == '&' ==> EntityAt(r, i)
  }

  /** Every `&` in escaped text starts an entity reference: no bare `&` is left. */
  lemma {:induction false} EscapedAmpersands(s: string, quot: bool)
    ensures NoBareAmpersand(EscapeChars(s, quot))
    decreases |s|
  {
    if s != [] {
      var head, tail := EscapeChar(s[0], quot), EscapeChars(s[1..], quot);
      var r := head + tail;
      EscapedAmpersands(s[1..], quot);
      forall i | 0 <= i < |r| && r[i] == '&' ensures EntityAt(r, i) {
        if i < |head| {
          EntityAtHead(s[0], quot, tail, i);
        } else {
          var j := i - |head|;
          assert r[i..] == tail[j..];
          assert tail[j] == '&';
        }
      }
    }
  }

  lemma EntityAtHead(c: char, quot: bool, tail: string, i: nat)
    requires i < |EscapeChar(c, quot)| && (EscapeChar(c, quot) + tail)[i] == '&'
    ensures EntityAt(EscapeChar(c, quot) + tail, i)
  {
    var head := EscapeChar(c, quot);
    var r := head + tail;
    assert head[i] == '&';
    assert c == '&' || c == '<' || (c == '"' && quot);
    if c == '&' {
      assert i == 0 && r[..5] == "&amp;";
    } else if c == '<' {
      assert i == 0 && r[..4] == "&lt;";
    } else {
      assert i == 0 && r[..6] == "&quot;";
    }
  }

  /** Decoding of the five entity references predefined by XML 1.0 (section 4.6). */
  function Unescape(s: string): string
    decreases |s|
  {
    if s == [] then []
    else if s[0] != '&' then [s[0]] + Unescape(s[1..])
    else if StartsWith(s, "&amp;") then "&" + Unescape(s[5..])
    else if StartsWith(s, "&lt;") then "<" + Unescape(s[4..])
    else if StartsWith(s, "&gt;") then ">" + Unescape(s[4..])
    else if StartsWith(s, "&quot;") then "\"" + Unescape(s[6..])
    else if StartsWith(s, "&apos;") then "'" + Unescape(s[6..])
    else [s[0]] + Unescape(s[1..])
  }

  lemma UnescapeEntity(entity: string, c: char, rest: string)
    requires entity in ["&amp;", "&lt;", "&quot;"]
    requires c == if entity == "&amp;" then '&' else if entity == "&lt;" then '<' else '"'
    ensures Unescape(entity + rest) == [c] + Unescape(rest)
  {
    var s := entity + rest;
    assert s[..|entity|] == entity && s[|entity|..] == rest;
    assert s[0] == '&' && s[1] == entity[1];
  }

  lemma UnescapeEscapeChar(c: char, quot: bool, rest: string)
    ensures Unescape(EscapeChar(c, quot) + rest) == [c] + Unescape(rest)
  {
    if c == '&' {
      UnescapeEntity("&amp;", c, rest);
    } else if c == '<' {
      UnescapeEntity("&lt;", c, rest);
    } else if c == '"' && quot {
      UnescapeEntity("&quot;", c, rest);
    } else {
      var s := [c] + rest;
      assert s[0] == c && s[1..] == rest;
    }
  }

  /** Decoding the entities gives back exactly what was escaped. */
  lemma {:induction false} UnescapeEscapeChars(s: string, quot: bool)
    ensures Unescape(EscapeChars(s, quot)) == s
    decreases |s|
  {
    if s != [] {
      UnescapeEscapeChar(s[0], quot, EscapeChars(s[1..], quot));
      UnescapeEscapeChars(s[1..], quot);
    }
  }

  /** The two chained `str.replace` calls of `escape` are a per-character substitution. */
  lemma {:induction false} EscapeReplaces(s: string)
    ensures Replace(Replace(s, "&", "&amp;"), "<", "&lt;") == EscapeChars(s, false)
    decreases |s|
  {
    if s != [] {
      var c, t := s[0], s[1..];
      assert s[..1] == [c];
      var first := if c == '&' then "&amp;" else [c];
      assert Replace(s, "&", "&amp;") == first + Replace(t, "&", "&amp;");
      ReplaceCharAppend(first, Replace(t, "&", "&amp;"), '<', "&lt;");
      if c == '&' {
        ReplaceMissingChar("&amp;", '<', "&lt;");
      } else if c != '<' {
        ReplaceMissingChar([c], '<', "&lt;");
      }
      EscapeReplaces(t);
    }
  }

  /** The three chained `str.replace` calls of `quote_value` are a per-character substitution. */
  lemma {:induction false} QuoteReplaces(s: string)
    ensures Replace(Replace(Replace(s, "&", "&amp;"), "<", "&lt;"), "\"", "&quot;") == EscapeChars(s, true)
    decreases |s|
  {
    if s != [] {
      var c, t := s[0], s[1..];
      assert s[..1] == [c];
      var first := if c == '&' then "&amp;" else [c];
      var r1 := Replace(t, "&", "&amp;");
      assert Replace(s, "&", "&amp;") == first + r1;
      ReplaceCharAppend(first, r1, '<', "&lt;");
      var second := Replace(first, "<", "&lt;");
      ReplaceCharAppend(second, Replace(r1, "<", "&lt;"), '"', "&quot;");
      var chunk := Replace(second, "\"", "&quot;");
      assert chunk == EscapeChar(c, true) by {
        if c == '&' {
          ReplaceMissingChar("&amp;", '<', "&lt;");
          ReplaceMissingChar("&amp;", '"', "&quot;");
        } else if c == '<' {
          assert "<"[..1] == "<";
          assert second == "&lt;";
          ReplaceMissingChar("&lt;", '"', "&quot;");
        } else if c == '"' {
          ReplaceMissingChar([c], '<', "&lt;");
          assert "\""[..1] == "\"";
          assert chunk == "&quot;" + Replace([], "\"", "&quot;");
        } else {
          ReplaceMissingChar([c], '<', "&lt;");
          ReplaceMissingChar([c], '"', "&quot;");
        }
      }
      QuoteReplaces(t);
    }
  }

  /**
   * `escape` (elementflow.py:38-41): character data with `&` and `<` replaced by entity
   * references, returned unchanged when it holds neither.
   */
  function Escape(value: string): (r: string)
    ensures r == EscapeChars(value, false)
    ensures '&' !in value && '<' !in value ==> r == value
    ensures '<' !in r
    ensures Unescape(r) == value
  {
    EscapeReplaces(value);
    UnescapeEscapeChars(value, false);
    if '&' !in value && '<' !in value then
      ReplaceMissingChar(value, '&', "&amp;");
      ReplaceMissingChar(value, '<', "&lt;");
      value
    else
      Replace(Replace(value, "&", "&amp;"), "<", "&lt;")
  }

  /**
   * `quote_value` (elementflow.py:44-47): an attribute value with `&`, `<` and `"` replaced
   * by entity references, between double quotes.
   */
  function QuoteValue(value: string): (r: string)
    ensures |r| >= 2 && r[0] == '"' && r[|r| - 1] == '"'
    ensures r[1..|r| - 1] == EscapeChars(value, true)
    ensures '"' !in r[1..|r| - 1] && '<' !in r
    ensures Unescape(r[1..|r| - 1]) == value
  {
    QuoteReplaces(value);
    UnescapeEscapeChars(value, true);
    var inner :=
      if '&' in value || '<' in value || '"' in value then
        Replace(Replace(Replace(value, "&", "&amp;"), "<", "&lt;"), "\"", "&quot;")
      else value;
    assert inner == EscapeChars(value, true) by {
      if !('&' in value || '<' in value || '"' in value) {
        ReplaceMissingChar(value, '&', "&amp;");
        ReplaceMissingChar(value, '<', "&lt;");
        ReplaceMissingChar(value, '"', "&quot;");
      }
    }
    var r := "\"" + inner + "\"";
    assert r[1..|r| - 1] == inner;
    r
  }

  /** The quoted value is the escaped value between two double quotes. */
  lemma QuoteValueShape(value: string)
    ensures QuoteValue(value) == "\"" + EscapeChars(value, true) + "\""
  {
    var r := QuoteValue(value);
    assert r == [r[0]] + r[1..|r| - 1] + [r[|r| - 1]];
  }

  /** One ` name="value"` item of `convert_attrs_to_string`. */
  function AttrText(name: string, value: string): string {
    " " + name + "=" + QuoteValue(value)
  }

  /**
   * `convert_attrs_to_string` (elementflow.py:50-53): the empty string for no attributes,
   * otherwise one ` name="value"` item per pair, in insertion order.
   */
  function AttrsToString(attrs: Attrs): (r: string)
    ensures attrs == [] ==> r == ""
    ensures attrs != [] ==> StartsWith(r, AttrText(attrs[0].0, attrs[0].1))
  {
    if attrs == [] then ""
    else AttrText(attrs[0].0, attrs[0].1) + AttrsToString(attrs[1..])
  }

  /**
   * Reads one ` name="raw"` item off the front of `s`: the name, the raw value
   * between the quotes and what follows the closing quote.
   */
  function ParseItem(s: string): Option<(string, string, string)> {
    if s == [] || s[0] != ' ' then None
    else
      var name := TakeUntil(s[1..], '=');
      match ParseQuoted(s[1 + |name|..])
      case None => None
      case Some((raw, after)) => Some((name, raw, after))
  }

  /** Reads `="raw"` off the front of `s`: the raw value and what follows the closing quote. */
  function ParseQuoted(s: string): Option<(string, string)> {
    if |s| < 2 || s[0] != '=' || s[1] != '"' then None
    else
      var raw := TakeUntil(s[2..], '"');
      var after := s[2 + |raw|..];
      if after == [] then None else Some((raw, after[1..]))
  }

  /**
   * A reader for what `AttrsToString` writes: a sequence of ` name="value"` items,
   * the value decoded with `Unescape`. It decodes entities only: the attribute-value
   * normalisation of XML 1.0 section 3.3.3, which turns tab, newline and carriage return into
   * spaces, and the line-end handling of section 2.11 are not part of it.
   */
  function ParseAttrs(s: string): Option<Attrs>
    decreases |s|
  {
    if s == [] then Some([])
    else match ParseItem(s)
      case None => None
      case Some((name, raw, after)) =>
        if |after| >= |s| then None
        else match ParseAttrs(after)
          case None => None
          case Some(tail) => Some([(name, Unescape(raw))] + tail)
  }

  /**
   * `quote_value` writes a newline inside the quotes as it is, not as `&#10;`, so a reader
   * that applies XML 1.0 section 3.3.3 reads it back as a space.
   */
  lemma RawWhitespaceValue()
    ensures QuoteValue("a\nb") == "\"a\nb\""
  {
    EscapeCharsPlain("a\nb", true);
    QuoteValueShape("a\nb");
  }

  /** Attribute names the reader can separate from their values. */
  predicate PlainNames(attrs: Attrs) {
    forall i :: 0 <= i < |attrs| ==> '=' !in attrs[i].0
  }

  /** The reader takes one ` name="value"` item off the front and decodes its value. */
  lemma ParseAttrText(k: string, v: string, tail: string, rest: Attrs)
    requires '=' !in k && ParseAttrs(tail) == Some(rest)
    ensures ParseAttrs(AttrText(k, v) + tail) == Some([(k, v)] + rest)
  {
    var q := QuoteValue(v);
    var inner := q[1..|q| - 1];
    assert q == "\"" + inner + "\"";
    var s := " " + (k + ("=\"" + (inner + ("\"" + tail))));
    assert AttrText(k, v) == " " + k + "=" + q;
    AttrTextLayout(k, inner, tail);
    ParseItemText(k, inner, tail);
    assert |tail| < |s|;
  }

  lemma AttrTextLayout(k: string, inner: string, tail: string)
    ensures " " + k + "=" + ("\"" + inner + "\"") + tail == " " + (k + ("=\"" + (inner + ("\"" + tail))))
  {
  }

  lemma ParseItemText(k: string, inner: string, tail: string)
    requires '=' !in k && '"' !in inner
    ensures ParseItem(" " + (k + ("=\"" + (inner + ("\"" + tail))))) == Some((k, inner, tail))
  {
    var after := "=\"" + (inner + ("\"" + tail));
    var s := " " + (k + after);
    assert s[1..] == k + after;
    TakeUntilConcat(k, after, '=');
    assert s[1 + |k|..] == after;
    ParseQuotedText(inner, tail);
  }

  lemma ParseQuotedText(inner: string, tail: string)
    requires '"' !in inner
    ensures ParseQuoted("=\"" + (inner + ("\"" + tail))) == Some((inner, tail))
  {
    var quoted := "\"" + tail;
    var s := "=\"" + (inner + quoted);
    assert s[0] == '=' && s[1] == '"';
    assert s[2..] == inner + quoted;
    TakeUntilConcat(inner, quoted, '"');
    assert s[2 + |inner|..] == quoted;
    assert quoted[1..] == tail;
  }

  lemma PlainNamesTail(attrs: Attrs)
    requires attrs != [] && PlainNames(attrs)
    ensures PlainNames(attrs[1..])
  {
    forall i | 0 <= i < |attrs| - 1 ensures '=' !in attrs[1..][i].0 {
      assert attrs[1..][i] == attrs[i + 1];
    }
  }

  /**
   * Reading back the attribute text with `ParseAttrs` gives the same pairs, values and order
   * included. A normalising XML reader does not: see `RawWhitespaceValue`.
   */
  lemma {:induction false} AttrsRoundTrip(attrs: Attrs)
    requires PlainNames(attrs)
    ensures ParseAttrs(AttrsToString(attrs)) == Some(attrs)
    decreases |attrs|
  {
    if attrs != [] {
      var (k, v) := attrs[0];
      var rest := attrs[1..];
      var text := AttrsToString(rest);
      assert ParseAttrs(text) == Some(rest) by {
        PlainNamesTail(attrs);
        AttrsRoundTrip(rest);
      }
      assert ParseAttrs(AttrText(k, v) + text) == Some([(k, v)] + rest) by {
        ParseAttrText(k, v, text, rest);
      }
      assert AttrsToString(attrs) == AttrText(k, v) + text;
      assert [(k, v)] + rest == attrs;
    }
  }

  // ----- comments -----

  /** No two consecutive hyphens. */
  predicate NoDoubleHyphen(s: string) {
    forall i :: 0 <= i < |s| - 1 ==> !(s[i] == '-' && s[i + 1] == '-')
  }

  /**
   * A comment as production [15] of XML 1.0 (section 2.5) allows it: `<!--`, a body in
   * which every hyphen is followed by a character other than a hyphen, then `-->`.
   */
  predicate WellFormedComment(c: string) {
    |c| >= 7 && StartsWith(c, "<!--") && c[|c| - 3..] == "-->" &&
    var body := c[4..|c| - 3];
    NoDoubleHyphen(body) && (body == [] || body[|body| - 1] != '-')
  }

  lemma RemoveDoubleHyphenHead(s: string)
    requires s != [] && s[0] != '-'
    ensures var r := Replace(s, "--", ""); r != [] && r[0] == s[0]
  {
    if |s| >= 2 {
      assert s[..2] != "--" by { assert s[..2][0] == s[0]; }
    }
  }

  lemma {:induction false} RemoveDoubleHyphen(s: string)
    ensures NoDoubleHyphen(Replace(s, "--", ""))
    decreases |s|
  {
    if |s| >= 2 {
      if s[..2] == "--" {
        RemoveDoubleHyphen(s[2..]);
        assert Replace(s, "--", "") == Replace(s[2..], "--", "");
      } else {
        RemoveDoubleHyphen(s[1..]);
        if s[0] == '-' {
          assert s[1] != '-' by { assert s[..2] == [s[0], s[1]]; }
          RemoveDoubleHyphenHead(s[1..]);
        }
        var r := Replace(s, "--", "");
        var tail := Replace(s[1..], "--", "");
        assert r == [s[0]] + tail;
        forall i | 0 <= i < |r| - 1 ensures !(r[i] == '-' && r[i + 1] == '-') {
          if i > 0 {
            assert r[i] == tail[i - 1] && r[i + 1] == tail[i];
          }
        }
      }
    }
  }

  lemma {:induction false} RemoveDoubleHyphenKeeps(s: string)
    requires NoDoubleHyphen(s)
    ensures Replace(s, "--", "") == s
    decreases |s|
  {
    if |s| >= 2 {
      assert s[..2] != "--" by { assert !(s[0] == '-' && s[1] == '-'); assert s[..2] == [s[0], s[1]]; }
      assert NoDoubleHyphen(s[1..]) by {
        forall i | 0 <= i < |s[1..]| - 1 ensures !(s[1..][i] == '-' && s[1..][i + 1] == '-') {
          assert s[1..][i] == s[i + 1] && s[1..][i + 1] == s[i + 2];
        }
      }
      RemoveDoubleHyphenKeeps(s[1..]);
    }
  }

  /**
   * The body `XMLGenerator.comment` writes as the code has it (elementflow.py:112):
   * `value.replace('--', '')`. It holds no `--`, but it may end in `-`.
   */
  function SanitizeComment(value: string): (r: string)
    ensures NoDoubleHyphen(r)
    ensures NoDoubleHyphen(value) ==> r == value
  {
    RemoveDoubleHyphen(value);
    if NoDoubleHyphen(value) then RemoveDoubleHyphenKeeps(value); value
    else Replace(value, "--", "")
  }

  /** A leading `--` is dropped. */
  lemma DropDoubleHyphen(rest: string)
    ensures Replace("--" + rest, "--", "") == Replace(rest, "--", "")
  {
    assert ("--" + rest)[..2] == "--" && ("--" + rest)[2..] == rest;
  }

  /** A leading character that does not start `--` is kept. */
  lemma KeepChar(c: char, rest: string)
    requires c != '-' || rest == [] || rest[0] != '-'
    ensures Replace([c] + rest, "--", "") == [c] + Replace(rest, "--", "")
  {
    var s := [c] + rest;
    assert s[1..] == rest;
    if |s| >= 2 {
      assert s[..2] != "--" by { assert s[..2][0] == c && s[..2][1] == rest[0]; }
    }
  }

  /** A run without hyphens is kept as it is. */
  lemma {:induction false} KeepNoHyphen(a: string, rest: string)
    requires '-' !in a
    ensures Replace(a + rest, "--", "") == a + Replace(rest, "--", "")
    decreases |a|
  {
    if a != [] {
      var tail := Replace(a[1..] + rest, "--", "");
      assert a + rest == [a[0]] + (a[1..] + rest);
      KeepChar(a[0], a[1..] + rest);
      assert Replace(a + rest, "--", "") == [a[0]] + tail;
      KeepNoHyphen(a[1..], rest);
      assert tail == a[1..] + Replace(rest, "--", "");
      assert [a[0]] + (a[1..] + Replace(rest, "--", "")) == a + Replace(rest, "--", "");
    } else {
      assert a + rest == rest;
    }
  }

  /** The example of tests.py:65-67: every `--` of `--comm-->ent--` is dropped, `>` is kept. */
  lemma DoubleHyphenExample()
    ensures Replace("--comm-->ent--", "--", "") == "comm>ent"
  {
    var s := "--comm-->ent--";
    var a, b := "comm", ">ent";
    assert s == "--" + (a + ("--" + (b + ("--" + ""))));
    DropDoubleHyphen("");
    KeepNoHyphen(b, "--" + "");
    DropDoubleHyphen(b + ("--" + ""));
    KeepNoHyphen(a, "--" + (b + ("--" + "")));
    DropDoubleHyphen(a + ("--" + (b + ("--" + ""))));
    assert a + b == "comm>ent";
  }

  /** The comment of tests.py:65-67 has the body `comm>ent`. */
  lemma DoubleHyphenComment()
    ensures SanitizeComment("--comm-->ent--") == "comm>ent"
  {
    var s := "--comm-->ent--";
    assert !NoDoubleHyphen(s) by { assert s[0] == '-' && s[1] == '-'; }
    DoubleHyphenExample();
  }

  /** The sanitised body of `"a-"` ends in a hyphen, and the comment written is not well formed. */
  lemma TrailingHyphenComment()
    ensures SanitizeComment("a-") == "a-"
    ensures "<!--" + SanitizeComment("a-") + "-->" == "<!--a--->"
    ensures !WellFormedComment("<!--a--->")
  {
    assert NoDoubleHyphen("a-");
    var c := "<!--a--->";
    assert c[4..|c| - 3] == "a-";
  }

  /**
   * The comment body as intended: `value.replace('--', '')`, followed by one space when
   * that would leave a hyphen right before the closing `-->`.
   */
  function CommentBody(value: string): (r: string)
    ensures WellFormedComment("<!--" + r + "-->")
    ensures var b := SanitizeComment(value); b == [] || b[|b| - 1] != '-' ==> r == b
  {
    var b := SanitizeComment(value);
    var r := if b != [] && b[|b| - 1] == '-' then b + " " else b;
    assert NoDoubleHyphen(r) by {
      if r != b {
        forall i | 0 <= i < |r| - 1 ensures !(r[i] == '-' && r[i + 1] == '-') {
          if i + 1 < |b| { assert r[i] == b[i] && r[i + 1] == b[i + 1]; }
        }
      }
    }
    var c := "<!--" + r + "-->";
    assert c[4..|c| - 3] == r;
    assert c[..4] == "<!--";
    r
  }
}
