/** The shapes of the text the encoder prints and of the trees the decoder
    rebuilds from it: which trees read back, what the decoder makes of
    their labels, and the tails of the printed text that the round-trip
    proof walks through. */
module JsonShape {
  import opened Outcomes
  import opened JsonTree
  import opened JsonSave
  import opened JsonText

  /** New line in pretty mode only. */
  function Nl(compact: bool): (r: string)
    ensures AllSkip(r)
  {
    if compact then "" else "\n"
  }

  /** Indentation in pretty mode only. */
  function Ind(compact: bool, depth: nat): (r: string)
    ensures AllSkip(r)
  {
    if compact then "" else IndentText(depth)
  }

  /** Reading 't' and then a closing quote, with escape flag 'esc' at the
      start, JSONLoadStr stops at that closing quote and not before: no
      quote in 't' is read with the flag clear, and the flag is clear once
      't' is read. The flag is set by a backslash and cleared by the next
      quote read after it. */
  predicate Closes(t: string, esc: bool)
    decreases |t|
  {
    if t == [] then !esc
    else
      var c := t[0];
      !(c == '"' && !esc) && Closes(t[1..], (esc || c == '\\') && c != '"')
  }

  /** A label that JSONLoadStr reads back unchanged when it is followed by
      the closing quote: it fits the buffer and closes. */
  predicate TextOK(v: string) {
    |v| < MaxLengthLbl && Closes(v, false)
  }

  /** A value node whose label reads back. */
  predicate ValueOK(v: Node) {
    IsValue(v) && TextOK(LabelText(v.lbl))
  }

  /** A property the decoder can rebuild: a key with value nodes (a string
      or an array of strings), a key with properties (a nested struct), or
      a key "[]" + k with elements (an array of structs). Keys are printed
      without the "[]", so only an array of structs may carry it, and only
      an array of structs may have an empty printed key. */
  predicate PropWF(p: Node)
    decreases p
  {
    p.lbl.Some? && |p.children| >= 1 &&
    if IsArrKey(p.lbl.value) then
      TextOK(StripArr(p.lbl.value)) &&
      forall i :: 0 <= i < |p.children| ==> ElemWF(p.children[i])
    else
      |p.lbl.value| > 0 && TextOK(p.lbl.value) &&
      ((forall i :: 0 <= i < |p.children| ==> ValueOK(p.children[i])) ||
       (forall i :: 0 <= i < |p.children| ==> PropWF(p.children[i])))
  }

  /** An element of an array of structs: no printed label, some properties. */
  predicate ElemWF(e: Node)
    decreases e
  {
    LabelText(e.lbl) == "" && |e.children| >= 1 &&
    forall i :: 0 <= i < |e.children| ==> PropWF(e.children[i])
  }

  /** The root is printed without a key in both of its forms. */
  predicate Escaped(t: Node) {
    |t.children| == 1 && LabelText(t.children[0].lbl) == ""
  }

  /** A document the decoder rebuilds: a struct of properties, or (the
      escaped form, printed without the root's brackets) one unlabelled
      array of at least two strings. A single string or an empty array in
      that position would be printed without its square brackets. */
  predicate DocWF(t: Node) {
    LabelText(t.lbl) == "" && |t.children| >= 1 &&
    if Escaped(t) then
      |t.children[0].children| >= 2 &&
      forall j :: 0 <= j < |t.children[0].children| ==> ValueOK(t.children[0].children[j])
    else
      forall i :: 0 <= i < |t.children| ==> PropWF(t.children[i])
  }

  /** A value node rebuilt from text: a null label comes back empty. */
  function NormValue(v: Node): Node {
    Node(Some(LabelText(v.lbl)), [])
  }

  function NormValues(cs: seq<Node>): (r: seq<Node>)
    ensures |r| == |cs| && forall i :: 0 <= i < |cs| ==> r[i] == NormValue(cs[i])
  {
    seq(|cs|, i requires 0 <= i < |cs| => NormValue(cs[i]))
  }

  /** The labels of value nodes as the decoder reads them. */
  function Labels(cs: seq<Node>): (r: seq<string>)
    ensures |r| == |cs| && forall i :: 0 <= i < |cs| ==> r[i] == LabelText(cs[i].lbl)
  {
    seq(|cs|, i requires 0 <= i < |cs| => LabelText(cs[i].lbl))
  }

  function NormProp(p: Node): Node
    decreases p, 1
  {
    if p.lbl.Some? && IsArrKey(p.lbl.value) then Node(p.lbl, NormElems(p, |p.children|))
    else if |p.children| > 0 && IsValue(p.children[0]) then Node(p.lbl, NormValues(p.children))
    else Node(p.lbl, NormProps(p, |p.children|))
  }

  /** The first 'i' properties of 'n', rebuilt. */
  function NormProps(n: Node, i: nat): seq<Node>
    requires i <= |n.children|
    decreases n, 0, i
  {
    if i == 0 then [] else NormProps(n, i - 1) + [NormProp(n.children[i - 1])]
  }

  /** An element is rebuilt into a fresh node, whose label is null. */
  function NormElem(e: Node): Node
    decreases e, 1
  {
    Node(None, NormProps(e, |e.children|))
  }

  function NormElems(n: Node, i: nat): seq<Node>
    requires i <= |n.children|
    decreases n, 0, i
  {
    if i == 0 then [] else NormElems(n, i - 1) + [NormElem(n.children[i - 1])]
  }

  function NormDoc(t: Node): Node {
    if Escaped(t) then Node(None, [Node(Some(""), NormValues(t.children[0].children))])
    else Node(None, NormProps(t, |t.children|))
  }

  /** The text of an array of strings from the label of value 'i' on. */
  function ValueTail(p: Node, compact: bool, d: nat, i: nat): string
    requires i < |p.children|
  {
    LabelText(p.children[i].lbl) + "\"" + (if i == |p.children| - 1 then "]" else "") +
    EncodedPieces(p, compact, d, i + 1, true)
  }

  /** The text of the strings 'ls[i..]' as the encoder prints them inside an
      array, after the opening quote of the first: each string with its
      closing quote, separated by a comma and the next opening quote, and
      the closing bracket after the last. */
  function StrTail(ls: seq<string>, i: nat): string
    requires i < |ls|
    decreases |ls| - i
  {
    (ls[i] + "\"") + (if i == |ls| - 1 then "]" else ([','] + ['"']) + StrTail(ls, i + 1))
  }

  /** The properties of a struct body, printed between braces. */
  predicate BodyWF(n: Node) {
    |n.children| >= 1 && !ArrObj(n) &&
    forall i :: 0 <= i < |n.children| ==> PropWF(n.children[i])
  }

  /** The rest of a struct's text from property 'i' on, the closing brace included. */
  function BodyTail(n: Node, compact: bool, d: nat, i: nat): string
    requires |n.children| >= 1 && i <= |n.children|
  {
    EncodedPieces(n, compact, d, i, false) + (Ind(compact, d) + "}")
  }

  /** What the encoder prints after property 'i' of a struct. */
  function Gap(n: Node, compact: bool, i: nat): (r: string)
    ensures AllSkip(r)
  {
    (if i == |n.children| - 1 then "" else ",") + Nl(compact)
  }

  /** The rest of an array of structs from element 'j' on, the closing bracket included. */
  function ElemTail(p: Node, compact: bool, d: nat, j: nat): string
    requires |p.children| >= 1 && j <= |p.children|
  {
    EncodedPieces(p, compact, d, j, false) + (Ind(compact, d) + "]")
  }

  /** What the encoder prints after element 'j' of an array of structs. */
  function ElemGap(p: Node, compact: bool, d: nat, j: nat): (r: string)
    ensures AllSkip(r)
  {
    if j == |p.children| - 1 then Nl(compact)
    else
      SkipJoin([','], Nl(compact));
      SkipJoin([','] + Nl(compact), Ind(compact, d + 1));
      ([','] + Nl(compact)) + Ind(compact, d + 1)
  }

  /** The text after the key of a property: brackets and children. */
  function ValText(p: Node, compact: bool, d: nat): string
    requires |p.children| >= 1
  {
    OpenPart(p, compact, d) + EncodedPieces(p, compact, d, 0, false) + ClosePart(p, compact, d)
  }

  // Where the parts of the printed text lie in a text 's' the decoder
  // reads. Each names a stretch of 's' and where it ends, so that the
  // round-trip proof passes one fact along rather than several.

  /** The text printed for 'n' at depth 'd' lies in 's' from 'q' to 'e'. */
  predicate Printed(s: string, q: nat, n: Node, compact: bool, d: nat, e: nat) {
    |n.children| >= 1 && At(s, q, Encoded(n, compact, d)) && e == q + |Encoded(n, compact, d)|
  }

  /** The skipped text 'w' and the rest of a struct body from property 'i'
      on lie in 's' from 'pos' to 'end'. */
  predicate BodyAt(s: string, pos: nat, w: string, n: Node, compact: bool, d: nat, i: nat, end: nat) {
    |n.children| >= 1 && i <= |n.children| && At(s, pos, w + BodyTail(n, compact, d, i)) &&
    end == pos + |w| + |BodyTail(n, compact, d, i)|
  }

  /** The rest of an array of structs from element 'j' on lies in 's' from
      'q' to 'end'. */
  predicate ElemsAt(s: string, q: nat, p: Node, compact: bool, d: nat, j: nat, end: nat) {
    |p.children| >= 1 && j <= |p.children| && At(s, q, ElemTail(p, compact, d, j)) &&
    end == q + |ElemTail(p, compact, d, j)|
  }

  /** What the encoder prints after element 'j' of an array of structs,
      and the rest of the array, lie in 's' from 'e' to 'end'. */
  predicate GapAt(s: string, e: nat, p: Node, compact: bool, d: nat, j: nat, end: nat) {
    j < |p.children| && At(s, e, ElemGap(p, compact, d, j) + ElemTail(p, compact, d, j + 1)) &&
    end == e + |ElemGap(p, compact, d, j)| + |ElemTail(p, compact, d, j + 1)|
  }
}
