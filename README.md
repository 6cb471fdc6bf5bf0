# elementflow in Dafny

A model of elementflow, a Python library that writes XML as a stream. The caller opens
containers, writes elements, text and comments, and closes containers again; every piece of
output goes to the sink at once and no tree is kept in memory. The library has three layers:

- `XMLGenerator` keeps a stack of open container names.
- `NamespacedGenerator` adds prefix checking and `xmlns` declarations.
- `IndentingGenerator` adds pretty-printing.

The `xml()` factory picks a layer from its arguments.

The modules follow the source:

| module | file | what it holds |
|---|---|---|
| `Strings` | strings.dfy | Python's `str.replace`, `split(':')[0]` and `s * n`, written out |
| `Escaping` | escaping.dfy | `escape`, `quote_value`, `convert_attrs_to_string` and the comment sanitising |
| `Document` | document.dfy | the document a run of calls describes, and its text |
| `Base` | base.dfy | class `Writer`, for `XMLGenerator` |
| `Namespaces` | namespaces.dfy | `_process_namespaces` as a function |
| `Namespaced` | namespaced.dfy | class `NamespacedWriter`, for `NamespacedGenerator` |
| `Indenting` | indenting.dfy | class `IndentingWriter`, for `IndentingGenerator` |
| `Factory` | factory.dfy | `xml()` |
| `Buffer` | buffer.dfy | `Queue` |
| `Scenarios` | scenarios.dfy | the tests of tests.py |

**Layers and the sink.** The layers are composed, not inherited: each class holds the layer
below it. The sink is the `out` field of `Writer`. Each generator's `__init__` writes the
header and then opens the root through the most derived `container`. In the model this is a
`Start` constructor, which writes the header, followed by the layer's own `Open`.

**The document invariant.** `Writer` carries a ghost partial document (`Document.Partial`):
the nodes completed so far and the containers still open. Its invariant `Valid()` says two
things:

- the sink holds the header followed by the text of that document;
- the stack names the open containers, the innermost last.

Every operation of every layer keeps `Valid()`. Each states its new sink contents as the old
contents plus exactly what it writes. The lemmas `Document.RenderPush`, `Document.RenderAdd`
and `Document.RenderPop` connect each step to the document: closing writes the end tag of the
name opened last.

Exceptions are modelled as results:

- The prefix check's `ValueError` is an `Option`/`Result` error carrying the unknown prefix.
  As in the source, the base and namespaced layers write nothing for the failed call. The
  pretty-printer has already written its line break by the time the check fails
  (elementflow.py:206, 228), and the model writes it too.
- The `with` block that raises is `Close(true)`. It writes nothing in the base layer, so the
  document is left unclosed.

## Model

| member | source | states |
|---|---|---|
| Strings.Replace | elementflow.py:112 | `str.replace` keeps the length when the replacement is as long as the pattern, never lengthens the text when it is shorter (as `'--'` to `''`) and never shortens it when it is longer |
| Strings.TakeUntil | elementflow.py:156 | `split(':')[0]` is a prefix of the name without `:`; when `:` occurs it stops right before the first one, otherwise it is the whole name |
| Strings.Repeat | elementflow.py:199 | `' ' * n` has length `n` copies (none for `n <= 0`) and holds only characters of the unit |
| Strings.RepeatAppend | elementflow.py:208 | one more unit on the right gives the indent one level deeper |
| Escaping.EscapeChars | elementflow.py:41 | the reference escaper, one character at a time, leaves no `<` (and no `"` when quotes are escaped) |
| Escaping.EscapeReplaces | elementflow.py:41 | the two chained `replace` calls equal the per-character reference escaper |
| Escaping.QuoteReplaces | elementflow.py:46 | the three chained `replace` calls equal the per-character reference escaper with quotes |
| Escaping.Escape | elementflow.py:38-41 | `escape` equals the reference escaper; text without `&` and `<` is returned unchanged; the result has no `<`; decoding the entities gives the input back |
| Escaping.EscapeCharsAppend | elementflow.py:41 | escaping distributes over concatenation |
| Escaping.EscapeCharsPlain | elementflow.py:39-40 | text with none of the escaped characters comes through unchanged |
| Escaping.EscapedAmpersands | elementflow.py:41 | every `&` in escaped text starts `&amp;`, `&lt;` or `&quot;` |
| Escaping.UnescapeEscapeChars | elementflow.py:41 | decoding the predefined entities after escaping gives back the input |
| Escaping.QuoteValue | elementflow.py:44-47 | `quote_value` is the escaped value between double quotes; there is no `"` between them; decoding the inside gives the value back |
| Escaping.QuoteValueShape | elementflow.py:47 | the quoted value is `"` + the escaped value + `"` |
| Escaping.AttrsToString | elementflow.py:50-53 | no attributes give the empty string; otherwise the text starts with the first ` name="value"` item |
| Escaping.ParseAttrText | elementflow.py:53 | one ` name="value"` item is read back as the pair it came from |
| Escaping.AttrsRoundTrip | elementflow.py:50-53 | reading the attribute text back with an entity-decoding reader gives the same pairs in the same order, values decoded |
| Escaping.RawWhitespaceValue | elementflow.py:44-47 | a newline in an attribute value is written raw inside the quotes |
| Escaping.SanitizeComment | elementflow.py:112 | the sanitised body holds no `--`, and a value without `--` is kept as it is |
| Escaping.RemoveDoubleHyphen | elementflow.py:112 | `replace('--', '')` leaves no two consecutive hyphens |
| Escaping.RemoveDoubleHyphenKeeps | elementflow.py:112 | `replace('--', '')` is the identity on text without `--` |
| Escaping.DropDoubleHyphen | elementflow.py:112 | a leading `--` is removed |
| Escaping.KeepNoHyphen | elementflow.py:112 | a run without hyphens is kept as it is |
| Escaping.DoubleHyphenExample | tests.py:62-67 | `--comm-->ent--` loses every `--` and becomes `comm>ent` |
| Escaping.DoubleHyphenComment | tests.py:62-67 | the comment body written for `--comm-->ent--` is `comm>ent` |
| Escaping.TrailingHyphenComment | elementflow.py:112-113 | as written, the value `a-` is written as `<!--a--->`, which is not a well-formed comment |
| Escaping.CommentBody | elementflow.py:112-113 | the corrected body (not what the writers write) always makes a well-formed comment (XML 1.0 section 2.5) and equals the sanitised value unless that ends in `-` |
| Document.OpenTagShape | elementflow.py:89 | `<`, the name, the attribute text, `>`, each slice stated |
| Document.CloseTagShape | elementflow.py:82 | `</`, the name, `>` |
| Document.ElementTextShape | elementflow.py:97-100 | with text: the start tag, the escaped text, the end tag, with no `<` between the tags and the text recovered by decoding the entities there; without text: a tag of the same name and attributes ending in `/>` |
| Document.CommentTextShape | elementflow.py:112-113 | `<!--` and `-->` around a body without `--`; a value without `--` is its own body |
| Document.TrailingHyphenCommentText | elementflow.py:112-113 | as written, the value `a-` gives `<!--a--->`, which is not a well-formed comment |
| Document.CorrectedCommentText | elementflow.py:112-113 | the intended comment is well formed for every value and agrees with the written one unless the sanitised body ends in `-` |
| Document.Names | elementflow.py:90 | the stack lists the open containers' names, root first |
| Document.RenderPush | elementflow.py:89-90 | opening a container appends its start tag and pushes its name |
| Document.RenderAdd | elementflow.py:97-113 | an element, text or comment appends its own text and leaves the open containers as they are |
| Document.RenderPop | elementflow.py:82 | closing appends the end tag of the last name opened and pops exactly that name |
| Document.RenderClosed | elementflow.py:79-82 | once nothing is open, the text is the completed nodes one after another |
| Base.Writer.Finished | elementflow.py:79-82 | once every container is closed, the sink holds exactly the header and the completed nodes |
| Base.Calls | elementflow.py:125-126 | `map` makes one `element` call per item, in order, with the arguments `f` gives for it |
| Base.ElementsTextStep | elementflow.py:125-126 | one more call appends that element's text |
| Base.Writer.Start | elementflow.py:71-73 | the sink holds the header and the stack is empty |
| Base.Writer.constructor | elementflow.py:70-74 | the header and then the root's start tag; the root is the only open name |
| Base.Writer.Open | elementflow.py:84-91 | the start tag with the attribute text is appended and the name pushed; the invariant is kept |
| Base.Writer.Close | elementflow.py:79-82 | normal exit appends the end tag of the innermost name and pops it; exceptional exit writes nothing and keeps the stack |
| Base.Writer.Element | elementflow.py:93-100 | `<name attrs>escaped text</name>`, or `<name attrs/>` for empty text; the stack is unchanged |
| Base.Writer.Text | elementflow.py:102-106 | the escaped value is appended and the stack is unchanged |
| Base.Writer.Comment | elementflow.py:108-113 | `<!--`, the value with every `--` removed, `-->` is appended, as the code writes it |
| Base.Writer.Write | elementflow.py:206 | whitespace from the pretty-printer is appended as it is, and the invariant is kept |
| Base.Writer.Map | elementflow.py:115-126 | the sink gains the text of one element per item, in the items' order; the stack is unchanged |
| Namespaces.CheckedNames | elementflow.py:154 | the names checked are the element name, then each attribute name, in order |
| Namespaces.FirstUnknown | elementflow.py:154-158 | `None` exactly when every name resolves; otherwise the prefix of the first name that fails, which is not visible |
| Namespaces.XmlnsAttrs | elementflow.py:160-163 | each declaration becomes `xmlns:prefix` (`xmlns` for the empty prefix) with its URI, in order |
| Namespaces.XmlnsNameInjective | elementflow.py:161 | distinct prefixes give distinct declaration attributes |
| Namespaces.XmlnsDistinct | elementflow.py:160-163 | the declaration attributes of one call have distinct names |
| Namespaces.Put | elementflow.py:164 | `d[k] = v`: a new key goes at the end with its value; an existing key keeps its place and takes the new value, every other item unchanged |
| Namespaces.Update | elementflow.py:164 | `update` gives the keys of both and drops nothing |
| Namespaces.UpdateKeepsPlaces | elementflow.py:164 | every existing key keeps its place |
| Namespaces.UpdateKeepsValues | elementflow.py:164 | existing keys that no item mentions keep their values |
| Namespaces.UpdateHasLast | elementflow.py:164 | the last item is always present afterwards |
| Namespaces.UpdateLastWins | elementflow.py:164 | when a key repeats among the items, the item with that key that comes last is in the result |
| Namespaces.PutDistinct | elementflow.py:164 | `d[k] = v` on a dict leaves no key twice |
| Namespaces.UpdateDistinct | elementflow.py:164 | `update` on a dict leaves no key twice |
| Namespaces.UpdateLastWinsOnly | elementflow.py:164 | starting from a dict, every entry with a repeated item key holds the last item with that key: the value is replaced, never duplicated |
| Namespaces.UpdateAppends | elementflow.py:164 | `update` with new, distinct keys appends the items in order |
| Namespaces.ProcessNamespaces | elementflow.py:144-165 | the declared prefixes become visible in any case; the call is accepted exactly when the element name and every attribute name resolve against that set; otherwise the first unresolved prefix is reported; accepted attributes are the caller's updated with the declarations |
| Namespaces.DeclarationsAppended | elementflow.py:159-164 | declarations come after the caller's attributes when their names differ |
| Namespaces.DeclarationsOnly | elementflow.py:150-165 | an element without attributes whose name resolves gets exactly its declarations as attributes |
| Namespaces.PrefixOfQualified | elementflow.py:156 | the prefix of `p:local` is `p` |
| Namespaces.SelfDeclaredPrefix | elementflow.py:150-158 | a prefix declared by a call may be used by that call's own element name |
| Namespaces.UnknownNamePrefix | elementflow.py:154-158 | an element name whose prefix is not visible even with the call's declarations is refused with that prefix, and the declarations are visible all the same |
| Namespaces.UnknownAttributePrefix | elementflow.py:154-158 | with the element name resolving, an attribute whose prefix is not visible is refused with that prefix |
| Namespaces.UndeclaredRootPrefix | tests.py:86-98 | the root `n1:root` with only `n` declared is refused with `n1`, and `n` has become visible |
| Namespaces.UndeclaredAttributePrefix | tests.py:86-98 | the attribute `n1:k` with only `n` declared is refused with `n1` |
| Namespaced.NamespacedWriter.Start | elementflow.py:140-142 | the visible set is `{xml}`, there is one scope entry, and the sink holds the header |
| Namespaced.NamespacedWriter.Open | elementflow.py:171-179 | declarations join the visible set even on failure; on success the start tag with the merged attributes is written and a scope pushed; on failure the unknown prefix is returned and nothing is written or pushed |
| Namespaced.NamespacedWriter.Element | elementflow.py:181-189 | the same check and merge, then the element with the merged attributes; no scope is pushed |
| Namespaced.NamespacedWriter.Close | elementflow.py:167-169 | the base close, then one scope entry less on either path; the visible set keeps every prefix |
| Indenting.IndentingWriter.Indent | elementflow.py:205 | the indent is `depth` units long and blank |
| Indenting.IndentingWriter.LineBreak | elementflow.py:206 | a newline followed by the indent; blank |
| Indenting.IndentingWriter.FillWidth | elementflow.py:215 | `max(min_width, width - len(indent))`: at least both, and equal to one of them |
| Indenting.IndentingWriter.Fill | elementflow.py:212-217 | a newline, then the value wrapped at the width for that indent |
| Indenting.IndentingWriter.Formatted | elementflow.py:207-210 | a value no longer than the width, or any value with wrapping off, is returned unchanged; otherwise it starts on a new line and ends with a line break back to the tag's depth |
| Indenting.IndentingWriter.WrappedOneLevelDeeper | elementflow.py:204-217 | a long value with wrapping on is filled one unit deeper than its tag, at a width no larger than at the tag's depth, followed by a line break back to the tag's depth |
| Indenting.IndentingWriter.Start | elementflow.py:197-202 | the indent unit is `indent` spaces; the width, minimum width, wrapping switch and header are set |
| Indenting.IndentingWriter.FormatValue | elementflow.py:204-210 | the line break for the current depth is written, and the formatted value returned |
| Indenting.IndentingWriter.Open | elementflow.py:226-229 | the line break for the current depth, then the namespaced open; the line break stays even when the prefix check fails |
| Indenting.IndentingWriter.Close | elementflow.py:219-224 | a line break one level up, the namespaced close, and a final newline once the stack is empty |
| Indenting.IndentingWriter.Element | elementflow.py:231-239 | the line break, then the element with the formatted text |
| Indenting.IndentingWriter.Text | elementflow.py:241-242 | the value filled at the current depth and escaped, with no line break before it |
| Indenting.IndentingWriter.Comment | elementflow.py:244-246 | the line break, then the comment of the formatted value |
| Factory.SelectLayer | elementflow.py:289-294 | pretty-printing exactly when an indent is given; namespaces exactly when no indent and a non-empty mapping; otherwise the base layer |
| Factory.UnknownPrefixError | elementflow.py:158 | the message is `Unknown namespace prefix: ` followed by the prefix itself |
| Factory.Xml | elementflow.py:269-294 | the selected layer is created; the sink holds the header (and for pretty-printing a newline) and the root's start tag with the merged attributes; an unknown prefix gives the `ValueError` message and only the header |
| Buffer.Queue.constructor | elementflow.py:254-255 | the buffer starts empty |
| Buffer.Queue.Length | elementflow.py:257-258 | the length is zero exactly when nothing is buffered |
| Buffer.Queue.Write | elementflow.py:260-261 | the bytes are appended and the length grows by their count |
| Buffer.Queue.Pop | elementflow.py:263-266 | the buffer is empty afterwards |
| Scenarios.PlainElement | elementflow.py:97-98 | text without `&` or `<` is written between the tags unchanged |
| Scenarios.PlainComment | elementflow.py:112-113 | a value without `--` is written as the comment body unchanged |
| Scenarios.XmlScenario | tests.py:17-36 | the exact sink contents of test_xml's calls |
| Scenarios.QuotedAttributeValue | tests.py:20 | a value in double quotes is written with both quotes as `&quot;` |
| Scenarios.LeadingLessThan | tests.py:21 | a leading `<` becomes `&lt;`; `>` is kept |
| Scenarios.EmptyItemOutput | tests.py:22 | an element without text is written `<item/>` |
| Scenarios.TextItemOutput | tests.py:23 | `<item>Текст</item>` |
| Scenarios.ExceptionScenario | tests.py:39-51 | after the body raises, the sink ends with the text and the root stays open |
| Scenarios.ExceptionTestOutput | tests.py:39-51 | that sink holds the header, `<root>Text` and no end tag |
| Scenarios.CommentScenario | tests.py:54-67 | a comment inside the root, with the exact sink contents |
| Scenarios.CommentTestOutput | tests.py:54-59 | `<!--comment-->` |
| Scenarios.DoubleHyphenTestOutput | tests.py:62-67 | `<!--comm>ent-->` |
| Scenarios.NamespacesScenario | tests.py:70-83 | the exact sink contents of test_namespaces; the outer `n1` stays usable inside the `n2` container |
| Scenarios.NestedContainer | tests.py:74-76 | the inner container declares its own prefix, holds two elements and is closed; its prefix stays visible afterwards |
| Scenarios.BadNamespaceScenario | tests.py:86-98 | an unknown prefix makes `xml()` fail with the message naming it, after only the header |
| Scenarios.MapScenario | tests.py:101-122 | two `map` calls write one element per item each, the keyed ones first |
| Scenarios.IndentScenario | tests.py:125-147 | the exact sink contents of test_indent: long values filled six spaces deep at width 64, end tags on their own lines, a final newline |
| Scenarios.IndentNoWrapScenario | tests.py:150-165 | with wrapping off, the long values stay on their tags' lines |

## Left out

- **UTF-8.** The encoding through `codecs.getwriter` (elementflow.py:71) and the file's `write` are not modelled: the sink is a `string`.
- **textwrap.** `TextWrapper.fill` (elementflow.py:216) is a library call whose algorithm is not part of this model. `IndentingWriter` receives it as the function parameter `wrap`.
- **Exceptions.** Exceptions raised by a `map` function, and the exception object passed to `__exit__`, are not modelled. `Close` takes only whether the `with` body raised.
- **`__enter__` and return values.** `__enter__` is the identity and is not modelled. `container` returns `self` in the source; `Open` returns the unknown prefix, if any, instead.
- **Caller's attribute dict.** `_process_namespaces` updates a non-empty caller's `attrs` dict in place with the declarations (elementflow.py:153, 164); an empty or absent one is replaced by a fresh `{}` (`attrs or {}`), which the caller never sees. The model returns the merged attributes and does not change the caller's.
- Base.Writer.Close: closing with nothing open is an IndexError in the source; the model makes a non-empty stack a precondition.
- Namespaced.NamespacedWriter.Open: the same holds for an empty `self.namespaces` list (IndexError at `self.namespaces[-1]`, elementflow.py:150); `scopes > 0` is a precondition.
- Namespaced.NamespacedWriter.Element: likewise `scopes > 0` is a precondition, for the same `self.namespaces[-1]`.
- Namespaced.NamespacedWriter.Close: `scopes > 0` is a precondition; with an empty list `self.namespaces.pop()` (elementflow.py:169) raises IndexError.
- Base.Writer.Write: the pretty-printer's direct `file.write` calls (elementflow.py:206, 221, 224, 228) only ever write newlines and spaces. The model requires blank text and records it as a text node of the document, which has the same text.
- Base.Writer.Map: only the base layer's `map` is modelled. The upper layers' `map` is not modelled: it calls `self.element(*func(item))` (elementflow.py:125-126), and there the third positional argument is `namespaces`, not `text` (elementflow.py:181-187, 231-237). A 3-tuple with non-empty text therefore adds the text's characters to the visible prefixes (elementflow.py:152), then fails with a ValueError (elementflow.py:158) or an AttributeError at `namespaces.items()` (elementflow.py:162). On the pretty-printer, a line break has already been written (elementflow.py:206).
- Buffer.Queue.Pop: the return value `str(bytearray)` is Python's repr of the buffer, not its decoded text. The model keeps only the reset to empty.
- Factory.Xml: the scenarios other than test_xml, test_comment, test_map, test_non_well_formed_on_exception and test_bad_namespace build their layer directly, with the constructor and `Open` that `Xml` itself calls. `SelectLayer` picks that layer for their arguments.
- Scenarios.CommentTestOutput, Scenarios.DoubleHyphenTestOutput, Scenarios.TextItemOutput: these spell out only the comment or element literally. The rest of the document is stated for every name by the scenario method beside them.
- Scenarios.IndentScenario: the wrapped lines are stated as `wrap`'s result, not as the literal lines of tests.py:137-143.
- Escaping.AttrsRoundTrip: the round trip is stated for a reader that only decodes entities. `quote_value` (elementflow.py:44-47) writes tab, newline and carriage return raw, so a reader applying the attribute-value normalisation of XML 1.0 section 3.3.3 (and the line-end handling of section 2.11) reads them back as spaces, as `Escaping.RawWhitespaceValue` shows for `a\nb`. The model keeps the code's behaviour.
- **`]]>` in text.** `escape` leaves `>` unescaped, so character data may contain `]]>`, which XML 1.0 section 2.4 forbids. The model keeps the code's behaviour and does not claim otherwise.
- **Benchmark and packaging.** The benchmark (performance_test) and setup.py are not part of this model.

## Behaviour worth knowing

Some consequences of the code that a reader might not expect:

- **Prefix scopes.** There is one set of visible prefixes, and it only grows. `prefixes |= set(namespaces)` grows `self.namespaces[-1]` in place, and `container` pushes that same set object again (elementflow.py:150-152, 178). A prefix declared in a nested container therefore stays visible after it closes, in siblings and ancestors too. `NamespacedWriter` keeps that one set; `Scenarios.NestedContainer` states that the prefix is still visible after the close.
- **`xmlns` attributes and the prefix check.** The checked names are taken before the declarations are merged (elementflow.py:154, 164), so the `xmlns` attributes never take part in the check. `Namespaces.ProcessNamespaces` checks the caller's names only.
- **Line breaks before elements and comments.** The pretty-printer writes the line break before every element and comment, empty text included (elementflow.py:206). It also writes one before a container whose prefix check then fails (elementflow.py:228).
- **Unwinding after an exception.** The namespaced `__exit__` pops its scope entry on the exceptional path too (elementflow.py:167-169), while the base layer leaves its stack as it is.

## Findings

| source | as written | input that shows it | evidently intended | confidence | as-written member | corrected member |
|---|---|---|---|---|---|---|
| elementflow.py:112-113 | the comment body is `value.replace('--', '')`, which may end in `-` | `comment('a-')` writes `<!--a--->`; XML 1.0 section 2.5 production [15] forbids `-` right before `-->` | every comment written is well formed | not executed | Document.TrailingHyphenCommentText | Document.CorrectedCommentText |

`Escaping.SanitizeComment` is the body as the code computes it, and `Document.CommentText`, with it every layer's `Comment`, writes that body, as the code does. `Escaping.CommentBody` is the corrected body: it adds one space when the sanitised body ends in `-`. `Document.CorrectedCommentText` is the comment built from it, proved well formed for every value and equal to the written comment whenever the sanitised body does not end in `-`. For the values in tests.py, both are the same.
