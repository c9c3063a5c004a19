# PBJson: a shape-based JSON codec, modelled in Dafny

PBJson stores a JSON document as one labelled ordered tree (`JSONNode`,
a GenTree of strings). Every node has an optional text label and an
ordered list of subtrees, and nothing else: there is no type tag. A leaf
is a *value*. A node whose subtrees are values is a string or an array
of strings. A node whose subtrees are not values is a struct. A label
starting with `"[]"` marks an array of structs. The library has four
parts, and this project models all four:

- **Construction helpers.** `_JSONAddPropStr`, `_JSONAddPropObj`,
  `_JSONAddPropArr`, `_JSONAddPropArrObj` and `JSONSetLabel` append a
  property under a node.
- **Encoder.** `JSONSave` and its recursive worker `JSONSaveRec` write a
  tree as JSON text, in compact or pretty form, with `JSONIndent` for the
  pretty indentation.
- **Decoder.** A recursive-descent reader:
  - `JSONLoad`, `JSONLoadStruct`, `JSONLoadProp` and `JSONLoadArr`;
  - the array readers `JSONAddArr` and `JSONAddArrStruct`;
  - the lexing helpers `JSONLoadStr` and `JSONGetNextChar`.
- **Accessor.** `JSONProperty` looks up a property by key.

## How the model is laid out

| file | module | what it holds |
|---|---|---|
| `outcomes.dfy` | `Outcomes` | The error kinds `IOError` and `InvalidData`. The status and read-result datatypes. The constants `PBJSON_MAXLENGTHLBL` (500) and `PBJSON_INDENT` (two spaces). |
| `tree.dfy` | `JsonTree` | The tree is a datatype value `Node(lbl, children)`. The helpers are functions, or methods with the source's loops, each proved to append exactly the specified property. `JSONProperty` is a search loop proved against the reference function `Lookup`. |
| `save.dfy` | `JsonSave` | The printed text as functions (`Encoded` and its parts). A `Writer` class whose `out` field is the output stream. Methods that follow `JSONSaveRec` statement by statement, with its `flagComma` / `flagArrObj` flags, each proved to append exactly the specified text. |
| `load.dfy` | `JsonLoad` | The decoder as functions on a text and a position, following the C code branch by branch, error cases included. |
| `reader.dfy` | `JsonReader` | A `Reader` class, holding the text and a mutable stream position, whose methods run the decoder one `fscanf` at a time. `JSONLoadStr` fills a fixed array buffer. Each method is proved to compute what the `JsonLoad` function of the same name states. |
| `text.dfy`, `shape.dfy` | `JsonText`, `JsonShape` | Where a printed piece lies in the decoder's input. Which trees the decoder can rebuild (`DocWF`), and what it rebuilds (`NormDoc`). |
| `roundtrip.dfy` | `JsonRoundTrip` | The round trip: for every tree whose text the decoder can read, `JSONLoad` applied to the text `JSONSave` writes succeeds and rebuilds the tree, up to the normalisation of labels. |
| `properties.dfy` | `JsonProperties` | The decoder's error conditions, the escape and truncation rules of `JSONLoadStr`, the layout rules of `JSONSaveRec`, two trees that do not read back, and the array document and the record of the unit tests in `main.c`. |

Source behaviour the model keeps on purpose:

- **Failures swallowed.** `JSONLoadProp` ignores the results of the
  nested `JSONLoadArr` and `JSONLoadStruct` calls. A failure inside them
  still yields `Ok`, and a nested struct is appended with whatever was
  read into it (`PropArrIgnored`, `PropObjIgnored`).
- **Key quote.** `JSONLoadStruct` takes any significant character other
  than `}` as the opening quote of a key.
- **Root elision.** At depth 0, a root whose single child has a null or
  empty label is printed without its braces. Nothing checks that this
  child holds values.
- **Depth-0 new line.** The text at depth 0 ends with a new line in
  compact mode too.
- **Empty arrays.** An empty array of strings gets one unlabelled
  placeholder child, which the encoder prints as `""`.
- **Truncation.** `JSONLoadStr` reads at most 500 characters. It drops
  the last character read: normally the closing quote, but the 500th
  character when the buffer fills.
- **Escapes.** A backslash sets the escape flag, and the flag stays set
  until a quote has been read. That quote does not end the string, and
  the backslashes are kept.
- **Skipped characters.** `JSONGetNextChar` skips the comma along with
  the white space.
- **Rewind.** `JSONAddArrStruct` rewinds the stream one character
  (`pos - 1`) before calling `JSONLoad` on an element.

Three consequences of the code that a reader of the header alone might
not expect:

- **Compact new line.** The code writes a new line at depth 0 in both
  modes (pbjson.c:327), so a compact text ends with one too
  (`EndsWithNewLine`).
- **Escape flag.** The backslash flag stays set until a quote has been
  read, however many characters come between (pbjson.c:359-376).
- **Round trip.** Not every tree the helpers build reads back, so the
  round trip is stated only for the trees that do (see `RoundTrip` under
  Left out). A single string under the empty key at the root is printed
  without the root's braces and without brackets, and `JSONLoad` rejects
  the bare string (`BareStringRejected`). An empty array of structs is
  printed as an empty string and reads back as a string property
  (`EmptyArrObjLost`). A root given a label is printed with that label
  as a key before its braces, and `JSONLoad` rejects the text
  (`LabelledRootRejected`).

The round trip (`JsonRoundTrip.RoundTrip`) holds for every document in
`DocWF`:

- the root has no printed label;
- either a struct whose properties are strings, arrays of strings,
  non-empty nested structs or non-empty arrays of non-empty structs;
  only the key of an array of structs starts with `"[]"`, and only its
  printed key may be empty;
- the children of a property are all values or all properties, never
  a mix;
- an element of an array of structs has no printed label;
- or the escaped form, one unlabelled array of at least two strings;
- in both forms, every label fits the decoder's buffer and needs no
  closing quote other than its own.

The decoder gives back `NormDoc(t)`:

- a null value label comes back as the empty string;
- an element of an array of structs comes back with a null label;
- the root's label comes back null.

## Model

| member | source | states |
|---|---|---|
| `JsonTree.StripArr` | pbjson.c:246-248 | The key with a leading `"[]"` removed: the prefix is restored by prepending `"[]"`, and a label without it is unchanged. |
| `JsonTree.SetLabelSpec` | pbjson.h:33-37 | `JSONSetLabel` gives the node the new label and keeps its subtrees. The node changes exactly when its label was different. |
| `JsonTree.AppendSpec` | pbjson.c:124 | Appending keeps the label and every earlier subtree, and adds the new one last. |
| `JsonTree.AddPropStrSpec` | pbjson.h:40-44 | `_JSONAddPropStr` appends exactly one property: labelled `key`, holding one value labelled `val`. Earlier subtrees are untouched. |
| `JsonTree.AddPropObjSpec` | pbjson.h:47-51 | `_JSONAddPropObj` appends the given subtree relabelled `key`, with its own subtrees, not a wrapper. Earlier subtrees are untouched. |
| `JsonTree.ValueNodes` | pbjson.c:100-113 | One value node per string, in order, each labelled with that string. |
| `JsonTree.ArrProp` | pbjson.c:96-122 | The property `_JSONAddPropArr` builds is labelled `key`, and every child is a value. It holds one child per string of the set, in order, or a single unlabelled placeholder when the set is empty, so it always has a child. |
| `JsonTree.ArrObjProp` | pbjson.c:132-160 | The property `_JSONAddPropArrObj` builds is labelled `"[]" + key`. Its children are the given subtrees themselves, in order, or a single placeholder when the set is empty. |
| `JsonTree.AddPropArr` | pbjson.c:76-125 | The loops append exactly one child, `ArrProp(key, set)`, after the untouched earlier children, and keep the node's label. |
| `JsonTree.AddPropArrObj` | pbjson.c:129-162 | The loops append exactly one child, `ArrObjProp(key, set)`, after the untouched earlier children, and keep the node's label. |
| `JsonTree.LookupFrom` | pbjson.c:694-707 | From position `i` on: the first child whose label, stripped of `"[]"`, equals `key`, with no match before it. None when no child matches. |
| `JsonTree.Lookup` | pbjson.c:674-711 | The first matching child in insertion order, or none, including when there are no children. |
| `JsonTree.Property` | pbjson.c:674-711 | The search loop returns `Lookup(that, key)`: the first match in insertion order, or null when nothing matches. |
| `JsonSave.IndentText` | pbjson.c:165-170 | `JSONIndent` writes `2 * depth` characters, all spaces. |
| `JsonSave.Writer.Write` | pbjson.c:252 | One write appends its text to the stream. |
| `JsonSave.Indent` | pbjson.c:165-170 | The loop appends `IndentText(depth)` to the stream. |
| `JsonSave.SaveLabel` | pbjson.c:242-254 | Appends the key, if the node has a non-empty one: indented, `"[]"` stripped, quoted, followed by `:`. Sets `flagArrObj` and the bracket characters from the `"[]"` prefix. |
| `JsonSave.SaveBracket` | pbjson.c:260-276 | Writes the opening or closing bracket only when the first child has children and the root is not elided, with the pretty mode's new line and indentation. |
| `JsonSave.SaveSubtree` | pbjson.c:284-296 | A child that is not a value is saved one level deeper, followed by a comma unless it is the last child, and the pretty mode's layout. |
| `JsonSave.SaveValue` | pbjson.c:298-318 | A value is printed quoted, a null label as `""`. Several values are comma-separated and wrapped in `[`…`]`. |
| `JsonSave.SaveChild` | pbjson.c:280-318 | One iteration of the loop over the children appends `EncodedPiece` and updates `flagComma`. |
| `JsonSave.SaveChildren` | pbjson.c:278-319 | The loop over the children appends `EncodedPieces` for all of them. |
| `JsonSave.SaveRec` | pbjson.c:233-331 | `JSONSaveRec` appends exactly `Encoded(n, compact, depth)` to the stream. |
| `JsonSave.Save` | pbjson.c:213-229 | `JSONSave` appends the depth-0 text of the tree. |
| `JsonLoad.NextChar` | pbjson.c:337-350 | `JSONGetNextChar` returns a character that is not skipped, and the stream is just past it. At end of input it fails with IOError, and the stream is at the end. |
| `JsonLoad.ScanStr` | pbjson.c:359-381 | The loop of `JSONLoadStr` keeps fewer than 500 characters, always consumes at least one, and fails only with IOError at end of input. |
| `JsonLoad.LoadStr` | pbjson.c:354-384 | `JSONLoadStr` gives a label shorter than 500 characters, or IOError at end of input. |
| `JsonLoad.LoadStruct` | pbjson.c:540-556 | The stream never moves backwards, and success always consumes input. |
| `JsonLoad.LoadProp` | pbjson.c:470-527 | The stream never moves backwards, and success always consumes input. |
| `JsonLoad.LoadArr` | pbjson.c:560-597 | The stream never moves backwards, and success always consumes input. |
| `JsonLoad.AddArr` | pbjson.c:388-422 | Success consumes input. On failure `that` is returned unchanged: the property is appended only after the closing `]`. |
| `JsonLoad.AddArrStruct` | pbjson.c:426-466 | Success consumes input. On failure `that` is returned unchanged: the property is appended only after the closing `]`. |
| `JsonLoad.Load` | pbjson.c:601-641 | The stream never moves backwards, and success always consumes input. |
| `JsonLoad.AppendEq` | pbjson.c:511 | A node whose label and earlier children are kept, and whose last child is the new one, is `Append`. |
| `JsonReader.Reader.constructor` | pbjson.c:645-669 | A stream over a text starts at position 0. |
| `JsonReader.Reader.Scan` | pbjson.c:341 | One `fscanf("%c")` returns the next character and advances, or returns nothing at end of input. |
| `JsonReader.Reader.GetNextChar` | pbjson.c:337-350 | The skipping loop returns what `NextChar` states and leaves the stream where it says. |
| `JsonReader.Reader.LoadStr` | pbjson.c:354-384 | The buffer loop, with its escape flag and the `'\0'` written over the last character read, returns what `LoadStr` states. |
| `JsonReader.Reader.LoadStruct` | pbjson.c:540-556 | Returns the status, node and stream position that `LoadStruct` states. |
| `JsonReader.Reader.LoadProp` | pbjson.c:470-527 | Returns the status, node and stream position that `LoadProp` states. The nested results are ignored. |
| `JsonReader.Reader.LoadArr` | pbjson.c:560-597 | Returns the status, node and stream position that `LoadArr` states. |
| `JsonReader.Reader.AddArr` | pbjson.c:388-422 | Returns the status, node and stream position that `AddArr` states. |
| `JsonReader.Reader.AddArrStruct` | pbjson.c:426-466 | Returns what `AddArrStruct` states. This includes the one-character rewind before each element. |
| `JsonReader.Reader.Load` | pbjson.c:601-641 | Returns the status, node and stream position that `Load` states. |
| `JsonShape.Nl` | pbjson.c:272-292 | The pretty mode's new line is a skipped character, so the decoder passes over it. |
| `JsonShape.Ind` | pbjson.c:166-168 | The pretty mode's indentation is made of skipped characters. |
| `JsonRoundTrip.NextAfter` | pbjson.c:337-350 | After a run of skipped characters, `JSONGetNextChar` returns the first other character and stops just past it. |
| `JsonProperties.NextAtEnd` | pbjson.c:341-346 | When only skipped characters remain, `JSONGetNextChar` fails with IOError at the end of input. |
| `JsonRoundTrip.ScanText` | pbjson.c:359-381 | From any escape state, `JSONLoadStr` reads a text that closes, followed by a quote, and returns exactly that text. |
| `JsonRoundTrip.ReadBack` | pbjson.c:354-384 | A label that fits and closes, followed by its quote, is read back unchanged. |
| `JsonProperties.ScanAny` | pbjson.c:359-381 | Characters at which `JSONLoadStr` does not stop (no quote read with the escape flag clear) are stored one by one, and the flag ends as `EscAfter` says, whatever it was at the start. |
| `JsonProperties.Truncated` | pbjson.c:359-381 | When none of the first 499 characters ends the string (escaped quotes and backslashes allowed), `JSONLoadStr` stops after 500 characters. It keeps the first 499 and drops the 500th, whatever that character is. |
| `JsonProperties.PlainCloses` | pbjson.c:359-376 | Plain characters leave the escape flag as it was. |
| `JsonProperties.EscapedQuoteCloses` | pbjson.c:359-376 | After a backslash the next quote does not end the string, and the flag is clear again after it. |
| `JsonProperties.EscapedQuotes` | pbjson.c:354-384 | A text wrapped in escaped quotes is read back with its backslashes and quotes. |
| `JsonProperties.DoubleQuoted` | main.c:107-108 | The unit test's label `\"double quoted\"` is read back unchanged. |
| `JsonProperties.LoadNothing` | pbjson.c:615-617 | `JSONLoad` on input holding only skipped characters fails with IOError. |
| `JsonProperties.LoadBadStart` | pbjson.c:629-638 | `JSONLoad` fails with InvalidData just past the first significant character when that character is neither `{` nor `[`. |
| `JsonProperties.PropNoColon` | pbjson.c:480-488 | `JSONLoadProp` fails with InvalidData when the key is not followed by `:`. |
| `JsonProperties.PropBadValue` | pbjson.c:515-523 | `JSONLoadProp` fails with InvalidData when the value starts with none of `"`, `[` and `{`. |
| `JsonProperties.PropArrIgnored` | pbjson.c:501-502 | A property whose value opens an array is read with status Ok, whatever `JSONLoadArr` returns. |
| `JsonProperties.PropObjIgnored` | pbjson.c:504-513 | A property whose value opens a struct appends that struct and returns Ok, whatever `JSONLoadStruct` returns. |
| `JsonProperties.ArrBadStart` | pbjson.c:585-594 | `JSONLoadArr` fails with InvalidData when the array starts with none of `"`, `]` and `{`. |
| `JsonProperties.ArrEmpty` | pbjson.c:572-577 | An empty array is read as a property holding one unlabelled placeholder. |
| `JsonProperties.AddArrBadNext` | pbjson.c:406-414 | `JSONAddArr` fails with InvalidData, leaving the node unchanged, when a string is followed by neither `"` nor `]`. |
| `JsonProperties.AddArrStructBadNext` | pbjson.c:450-458 | `JSONAddArrStruct` fails with InvalidData, leaving the node unchanged, when a struct is followed by neither `{` nor `]`. |
| `JsonProperties.EndsWithNewLine` | pbjson.c:327 | The text at depth 0 ends with a new line, in compact mode too. |
| `JsonProperties.RootElision` | pbjson.c:262-264 | A root with one child whose label is null or empty is printed as that child alone, without braces. Nothing checks what the child holds. |
| `JsonProperties.RootPieces` | pbjson.c:284-296 | The root's single non-value child is printed one level deeper, followed only by the pretty mode's new line. |
| `JsonProperties.LabelledRootRejected` | pbjson.c:241-254 | A root given a label with `JSONSetLabel` is printed with that label as a key before its braces; the tree is outside `DocWF`, and `JSONLoad` rejects the text with InvalidData. |
| `JsonProperties.BareStringRejected` | pbjson.c:262-264 | A root holding a single string under the empty key is printed as the bare quoted string, and `JSONLoad` rejects that text with InvalidData. |
| `JsonProperties.BareString` | pbjson.c:298-318 | An unlabelled node with one value prints as that value quoted, with no key and no brackets. |
| `JsonProperties.ScalarLayout` | pbjson.c:242-254 | A property with one value prints as the indented quoted key, `:`, and the quoted value, bare. A null value label prints as `""`. |
| `JsonProperties.StringsLayout` | pbjson.c:298-318 | A property with several values prints them quoted and comma-separated, in order, between `[` and `]`. |
| `JsonProperties.PlaceholderLayout` | pbjson.c:116-122 | The empty-array property built by `_JSONAddPropArr` prints as `""`. |
| `JsonProperties.StringsDocText` | pbjson.c:262-327 | The escaped document prints its strings in brackets without the root's braces, followed by the new lines. |
| `JsonProperties.ArrayDocText` | main.c:286-299 | The test's document `["8","9","10"]` under the empty key is saved in compact form as exactly `["8","9","10"]` and a new line. |
| `JsonProperties.ArrayLabels` | main.c:286-291 | The test document's values carry the labels `"8"`, `"9"`, `"10"`, in order. |
| `JsonProperties.ArrayStrTail` | pbjson.c:298-318 | The values `"8"`, `"9"`, `"10"` print as `8","9","10"]` after the first quote. |
| `JsonProperties.ArrayDocWF` | main.c:286-291 | The test's array document is one the decoder can rebuild. |
| `JsonProperties.ArrayRoundTrip` | main.c:300-343 | Saved in either form and loaded back, the array document has one child holding `"8"`, `"9"`, `"10"` in order. |
| `JsonProperties.EmptyArrObjText` | pbjson.c:153-159 | The empty array of structs that `_JSONAddPropArrObj` builds for key `k` under a root is printed compactly as exactly `{"k":""}` and a new line. |
| `JsonProperties.EmptyArrObjLost` | pbjson.c:153-159 | That tree is outside `DocWF`. `JSONLoad` reads its text back, with status OK, as a string property `k` holding `""`: the `"[]"` marker is lost. |
| `JsonProperties.StructBChildren` | main.c:74-89 | `StructBEncodeAsJSON` builds a node holding `_intVal` then `_floatVal`, each a string property. |
| `JsonProperties.RecordChildren` | main.c:91-153 | `StructAEncodeAsJSON` builds a root holding eight properties in the order it adds them. The one-value array holds the last value of `_intArr`, which is what is left in the conversion buffer. |
| `JsonProperties.TestRecordOK` | main.c:274-285 | The test's values, converted to strings, contain no quote or backslash and fit the buffer. |
| `JsonProperties.PlainOK` | pbjson.c:359-381 | A text with no quote or backslash that fits the buffer reads back unchanged. |
| `JsonProperties.QuoteOK` | pbjson.c:359-381 | A plain text between escaped quotes reads back unchanged. |
| `JsonProperties.StrPropWF` | pbjson.c:470-527 | A string property under a plain key, whose label reads back, is one the decoder rebuilds. |
| `JsonProperties.ArrPropWF` | pbjson.c:76-125 | An array of strings under a plain key, whose strings read back, is one the decoder rebuilds. This includes the empty array with its placeholder. |
| `JsonProperties.StructBElemWF` | main.c:139-145 | A structB is an element of an array of structs that the decoder rebuilds. |
| `JsonProperties.StructBPropWF` | main.c:135-136 | A structB relabelled by `_JSONAddPropObj` is a nested struct that the decoder rebuilds. |
| `JsonProperties.RecordEscapeVal` | main.c:107-108 | The `_escapeVal` property, `\"double quoted\"`, is one the decoder rebuilds. |
| `JsonProperties.RecordEmptyArr` | main.c:124-127 | The `_emptyArr` property, built from an empty set, is one the decoder rebuilds. |
| `JsonProperties.RecordStructArr` | main.c:138-145 | The `_structArr` property, two structBs, is one the decoder rebuilds. |
| `JsonProperties.RecordDocWF` | main.c:91-153 | For every record whose converted numbers read back, the tree `StructAEncodeAsJSON` builds is in `DocWF`. |
| `JsonProperties.RecordRoundTrip` | main.c:286-305 | For every such record, saving its tree in either form and loading the text succeeds and gives back `NormDoc` of the tree, its eight properties in order. |
| `JsonProperties.TestRecordRoundTrip` | main.c:274-305 | The test's own record, saved in pretty form and loaded back, succeeds and gives back its properties. |
| `JsonRoundTrip.KeyText` | pbjson.c:242-254 | A key prints as its indentation, then the key in quotes with `"[]"` stripped, then `:`. |
| `JsonRoundTrip.StructBraces` | pbjson.c:268-273 | A bracketed struct opens with `{` and a pretty new line, and closes with the indentation and `}`. |
| `JsonRoundTrip.ArrBraces` | pbjson.c:268-275 | A bracketed array of structs opens with `[`, a new line and one more indentation level, and closes with `]`. |
| `JsonRoundTrip.Unbracketed` | pbjson.c:266 | A node whose first child is a value, or an elided root, prints no brackets. |
| `JsonRoundTrip.PropLayout` | pbjson.c:242-327 | A property prints as its indentation, its quoted key and `:`, then the text of its value. |
| `JsonRoundTrip.ScalarVal` | pbjson.c:298-318 | A single value prints bare, as `"label"`. |
| `JsonRoundTrip.StringsVal` | pbjson.c:298-318 | Several values print between `[` and `]`. |
| `JsonRoundTrip.ValueTailStr` | pbjson.c:298-318 | After the first quote, the values print as their labels, each closed by a quote, joined by `,"`, and ended by `]`. |
| `JsonRoundTrip.ObjVal` | pbjson.c:262-326 | A nested struct prints as `{`, its properties, and the closing brace. |
| `JsonRoundTrip.ArrObjVal` | pbjson.c:262-326 | An array of structs prints as `[`, its elements, and `]`. |
| `JsonRoundTrip.ElemText` | pbjson.c:242-326 | An element of an array of structs has no key and prints as a bare struct. |
| `JsonRoundTrip.DocText` | pbjson.c:233-331 | A document of properties prints in braces and ends with a new line. |
| `JsonRoundTrip.DocEscText` | pbjson.c:262-327 | The escaped document prints as its array of strings alone, then the new lines. |
| `JsonRoundTrip.StructEnd` | pbjson.c:543-548 | `JSONLoadStruct` stops with Ok at the `}` after skipped characters. |
| `JsonRoundTrip.StructNext` | pbjson.c:543-553 | `JSONLoadStruct` reads one property and goes on. |
| `JsonRoundTrip.PropStr` | pbjson.c:470-499 | A property with a quoted value appends a key holding that one value. |
| `JsonRoundTrip.PropArr` | pbjson.c:501-502 | A property with an array value gives what `JSONLoadArr` loaded. |
| `JsonRoundTrip.PropObj` | pbjson.c:504-513 | A property with a struct value appends a node labelled with the key, holding what `JSONLoadStruct` read into it. |
| `JsonRoundTrip.ArrStrings` | pbjson.c:566-570 | At an opening quote, `JSONLoadArr` hands over to `JSONAddArr`. |
| `JsonRoundTrip.ArrStructs` | pbjson.c:579-583 | At a `{`, `JSONLoadArr` hands over to `JSONAddArrStruct`. |
| `JsonRoundTrip.LoadAtBrace` | pbjson.c:619-622 | `JSONLoad` at a `{` reads a struct. |
| `JsonRoundTrip.LoadAtBracket` | pbjson.c:624-627 | `JSONLoad` at a `[` reads an array under the empty key. |
| `JsonRoundTrip.AddArrLast` | pbjson.c:396-417 | A string closed by `]` ends `JSONAddArr`, which appends the property with every string read, in order. |
| `JsonRoundTrip.AddArrNext` | pbjson.c:396-415 | A string followed by another adds that string and goes on. |
| `JsonRoundTrip.ReadStrings` | pbjson.c:388-422 | `JSONAddArr` reads a printed list of strings back and appends `ArrProp(key, strings)`. |
| `JsonRoundTrip.ReadValues` | pbjson.c:388-422 | The strings of an array the encoder printed are read back as the same values, in order: each value with its printed label, a null label as the empty string. |
| `JsonRoundTrip.ElemLast` | pbjson.c:432-461 | An element followed by `]` ends `JSONAddArrStruct`, which appends `ArrObjProp` with every element read. |
| `JsonRoundTrip.ElemNext` | pbjson.c:432-459 | An element followed by `{` adds that element and goes on. |
| `JsonRoundTrip.ReadElems` | pbjson.c:426-466 | `JSONAddArrStruct` reads the printed elements back and appends the array of structs they make. |
| `JsonRoundTrip.ReadElem` | pbjson.c:434-443 | An element is read back, after the rewind, by `JSONLoad` into a fresh node. |
| `JsonRoundTrip.ReadBody` | pbjson.c:540-556 | `JSONLoadStruct` reads the printed properties of a struct back, in order, and stops after its `}`. |
| `JsonRoundTrip.ReadProp` | pbjson.c:470-527 | A printed property is read back as the normalised property. |
| `JsonRoundTrip.ReadScalarProp` | pbjson.c:493-499 | A printed string property is read back. |
| `JsonRoundTrip.ReadStringsProp` | pbjson.c:501-502 | A printed array-of-strings property is read back. |
| `JsonRoundTrip.ReadObjProp` | pbjson.c:504-513 | A printed nested struct is read back. |
| `JsonRoundTrip.ReadArrObjProp` | pbjson.c:501-502 | A printed array of structs is read back. |
| `JsonRoundTrip.StructRoundTrip` | pbjson.c:601-622 | A document of properties is read back from its printed text, and only new lines follow. |
| `JsonRoundTrip.EscRoundTrip` | pbjson.c:624-627 | The escaped document is read back as one array under the empty key. |
| `JsonRoundTrip.RoundTrip` | pbjson.c:213-229 | For every readable document, `JSONLoad` on the text `JSONSave` writes succeeds, rebuilds `NormDoc(t)`, and leaves only skipped characters unread. |

## Left out

- `JSONFree`: memory is managed by Dafny.
- `JSONSaveToStr` and `JSONLoadFromStr`: `fmemopen`/`fclose` plumbing.
  Loading from a string is `JsonLoad.Load` over the whole text, which the
  `Reader` constructor sets up.
- `JSONGetContextStream`: the text of the error message is not
  modelled. The function also moves the stream: `fseek` back by
  `PBJSON_CONTEXTSIZE` and then `fread` of twice that many characters
  (pbjson.c:531-535). `PBJSON_CONTEXTSIZE` is defined in neither
  `pbjson.c` nor `pbjson.h`, so its value is not part of this model. The
  model leaves the stream just past the offending character instead.
- The `PBErr` channel and the debug-build checks for null arguments: the
  arguments are values, so there is nothing to check for null.
- Stream write failures: writes are taken to succeed, so the encoder
  returns no status.
- `fseek` failure in `JSONAddArrStruct`: the rewind always moves back
  over the `{` just read, so the model never fails there.
- GenTree and GSet containers: modelled as `seq`.
- The `sprintf` conversions of the unit-test program's struct encoders in
  `main.c`: `StructA` and `StructB` hold the numbers already converted.
  `TestRecord` holds the strings `%d` and `%f` give for the test's values.
  The decoding side of the test (`StructADecodeAsJSON`, `atoi`, `atof`,
  the `memcmp`) is not part of this model. `RecordRoundTrip` states what
  it relies on: the loaded tree is `NormDoc` of the saved one.
- `_JSONAddPropObj` aliasing: the caller's subtree is relabelled and
  attached itself. The model works on values, so it sees a relabelled
  copy, and later changes through the caller's reference are not
  captured. `_JSONAddPropArrObj` likewise attaches the given subtrees,
  not copies.
- NUL characters: C strings end at the first `'\0'`. The model keeps
  every character of a label.
- JsonTree.AddPropArrObj: requires the key to be at most 500 characters,
  because its label buffer holds `PBJSON_MAXLENGTHLBL + 3` characters.
  A longer key overflows the buffer in C.
- JsonTree.Property: requires that no child before the first match has a
  null label, because the C code dereferences each label it inspects.
- JsonSave.SaveRec: requires at least one child, because `GSetIterGet`
  on an empty set is undefined.
- JsonLoad.LoadArr: requires a key shorter than 500 characters. Every
  caller passes one, either a key `JSONLoadStr` read or `""`.
- JsonRoundTrip.RoundTrip: stated for the documents in `DocWF` only, and
  up to `NormDoc`. These trees, which the helpers can build, are outside
  `DocWF` because their text does not read back as the same tree. Null
  labels come back as the empty string or null, as `NormDoc` says.
  - a single string, or an empty array of strings, in the root's escaped
    position: printed without brackets and rejected (`BareStringRejected`);
  - an escaped root whose single child is a struct: printed as `{…}` and
    read back with its properties flattened into the root
    (pbjson.c:262-264);
  - an empty array of structs, from `_JSONAddPropArrObj` with an empty
    set (pbjson.c:153-159): printed as `"k":""` and read back as a string
    property, losing the `"[]"` marker (`EmptyArrObjLost`);
  - a nested struct, or an element of an array of structs, with no
    properties: printed as a value;
  - a property other than an array of structs whose key is empty: printed
    with no key, and the next character read is not a key's quote;
  - a property other than an array of structs whose key starts with
    `"[]"`: the prefix is stripped when printed (pbjson.c:246-248);
  - a root with a label set by `JSONSetLabel`: printed as `"x":{…}` and
    rejected at the key's quote (`LabelledRootRejected`);
  - an element of an array of structs that carries a label: its key is
    printed inside `[`…`]`, where the decoder expects `{`;
  - a node whose children mix values and properties: the encoder
    decides from the first child alone (pbjson.c:265-268);
  - labels that do not fit the buffer, or that are not followed by a
    closing quote.
- JsonLoad.LoadProp: a failure inside the nested `JSONLoadArr` or
  `JSONLoadStruct` is ignored (pbjson.c:502, 513), but in C that failure
  has already moved the stream through `JSONGetContextStream`. The model
  goes on just past the offending character, so after such a failure its
  tree, status and position can differ from the C code's. For example, in
  `{"a":["x"y],"b":"c"}` the model goes on reading after the `y`.
- JsonLoad.LoadStruct: goes on after a nested failure that `LoadProp`
  swallowed from the model's position, not from where `fread` left the
  C stream, so the properties it reads after it can differ from C's.
- JsonLoad.Load: inherits the difference from `LoadStruct` and `LoadArr`
  after a swallowed nested failure.
- JsonReader.Reader.LoadStruct: after an InvalidData failure, states the stream
  position as just past the offending character, not where
  `JSONGetContextStream` leaves it.
- JsonReader.Reader.LoadProp: after an InvalidData failure, states the stream
  position as just past the offending character, not where
  `JSONGetContextStream` leaves it.
- JsonReader.Reader.LoadArr: after an InvalidData failure, states the stream
  position as just past the offending character, not where
  `JSONGetContextStream` leaves it.
- JsonReader.Reader.AddArr: after an InvalidData failure, states the stream
  position as just past the offending character, not where
  `JSONGetContextStream` leaves it.
- JsonReader.Reader.AddArrStruct: after an InvalidData failure, states the stream
  position as just past the offending character, not where
  `JSONGetContextStream` leaves it.
- JsonReader.Reader.Load: after an InvalidData failure, states the stream
  position as just past the offending character, not where
  `JSONGetContextStream` leaves it.
- Integer widths: `depth` is a `nat`. The source's `int` depth never
  becomes negative or overflows on the trees it is given.
