/** Properties of the codec beyond the round trip: the failures of the
    decoder, what JSONLoadStr keeps of a label, the layout rules of
    JSONSaveRec, and the two documents of the unit tests. */
module JsonProperties {
  import opened Outcomes
  import opened JsonTree
  import opened JsonSave
  import opened JsonLoad
  import opened JsonText
  import opened JsonShape
  import opened JsonRoundTrip

  // ----- JSONGetNextChar -----

  /** JSONGetNextChar fails with IOError, at the end of the input, when
      only skipped characters are left. With NextAfter this fixes its
      result on every input. */
  lemma {:induction false} NextAtEnd(s: string, pos: nat)
    requires pos <= |s| && AllSkip(s[pos..])
    ensures NextChar(s, pos) == ReadFail(IOError, |s|)
    decreases |s| - pos
  {
    if pos < |s| {
      var u, u' := s[pos..], s[pos + 1..];
      assert IsSkip(CharOf(u, 0));
      forall i | 0 <= i < |u'| ensures IsSkip(CharOf(u', i)) {
        assert IsSkip(CharOf(u, i + 1));
      }
      NextAtEnd(s, pos + 1);
    }
  }

  // ----- Failures of the decoder -----

  /** JSONLoad on an input holding nothing but skipped characters. */
  lemma LoadNothing(s: string, pos: nat, that: Node)
    requires pos <= |s| && AllSkip(s[pos..])
    ensures Load(s, pos, that) == Parsed(|s|, that, Err(IOError))
  {
    NextAtEnd(s, pos);
  }

  /** JSONLoad fails with InvalidData when the first significant character
      opens neither a struct nor an array. */
  lemma LoadBadStart(s: string, pos: nat, w: string, c: char, that: Node)
    requires AllSkip(w) && !IsSkip(c) && c != '{' && c != '[' && At(s, pos, w + [c])
    ensures Load(s, pos, that) == Parsed(pos + |w| + 1, that, Err(InvalidData))
  {
    NextAfter(s, pos, w, c);
  }

  /** JSONLoadProp fails with InvalidData when the key is not followed by a ':'. */
  lemma PropNoColon(s: string, pos: nat, key: string, w: string, c: char, that: Node)
    requires TextOK(key) && AllSkip(w) && !IsSkip(c) && c != ':'
    requires At(s, pos, (key + "\"") + (w + [c]))
    ensures LoadProp(s, pos, that) == Parsed(pos + |key| + |w| + 2, that, Err(InvalidData))
  {
    AtSplit(s, pos, key + "\"", w + [c]);
    ReadBack(s, pos, key);
    NextAfter(s, pos + |key| + 1, w, c);
  }

  /** JSONLoadProp fails with InvalidData when the value after the ':'
      starts with none of '"', '[' and '{'. */
  lemma PropBadValue(s: string, pos: nat, key: string, w: string, c: char, that: Node)
    requires TextOK(key) && AllSkip(w) && !IsSkip(c) && c != '"' && c != '[' && c != '{'
    requires At(s, pos, (key + "\"") + ([':'] + (w + [c])))
    ensures LoadProp(s, pos, that) == Parsed(pos + |key| + |w| + 3, that, Err(InvalidData))
  {
    var k := pos + |key| + 1;
    AtSplit(s, pos, key + "\"", [':'] + (w + [c]));
    ReadBack(s, pos, key);
    AtSplit(s, k, [':'], w + [c]);
    assert "" + [':'] == [':'];
    NextAfter(s, k, "", ':');
    NextAfter(s, k + 1, w, c);
  }

  /** JSONLoadProp ignores the result of JSONLoadArr: a property whose
      value opens an array is read with status Ok, whatever follows. */
  lemma PropArrIgnored(s: string, pos: nat, key: string, that: Node)
    requires TextOK(key) && At(s, pos, (key + "\"") + ([':'] + ['[']))
    ensures pos + |key| + 3 <= |s|
    ensures var a := LoadArr(s, pos + |key| + 3, that, key);
      LoadProp(s, pos, that) == Parsed(a.pos, a.that, Ok)
  {
    PropHead(s, pos, key, '[', pos + |key| + 3);
  }

  /** JSONLoadProp ignores the result of the nested JSONLoadStruct: the
      struct is appended with whatever was loaded into it, and the status
      is Ok, whatever follows. */
  lemma PropObjIgnored(s: string, pos: nat, key: string, that: Node)
    requires TextOK(key) && At(s, pos, (key + "\"") + ([':'] + ['{']))
    ensures pos + |key| + 3 <= |s|
    ensures var sub := LoadStruct(s, pos + |key| + 3, Node(Some(key), []));
      LoadProp(s, pos, that) == Parsed(sub.pos, Append(that, sub.that), Ok)
  {
    PropHead(s, pos, key, '{', pos + |key| + 3);
    assert SetLabel(Empty, key) == Node(Some(key), []);
  }

  /** JSONLoadArr fails with InvalidData when the array starts with none
      of '"', ']' and '{'. */
  lemma ArrBadStart(s: string, pos: nat, w: string, c: char, that: Node, key: string)
    requires |key| < MaxLengthLbl && AllSkip(w) && !IsSkip(c) && c != '"' && c != ']' && c != '{'
    requires At(s, pos, w + [c])
    ensures LoadArr(s, pos, that, key) == Parsed(pos + |w| + 1, that, Err(InvalidData))
  {
    NextAfter(s, pos, w, c);
  }

  /** An empty array is read as a property holding one unlabelled placeholder. */
  lemma ArrEmpty(s: string, pos: nat, w: string, that: Node, key: string)
    requires |key| < MaxLengthLbl && AllSkip(w) && At(s, pos, w + [']'])
    ensures LoadArr(s, pos, that, key) == Parsed(pos + |w| + 1, Append(that, Node(Some(key), [Empty])), Ok)
  {
    NextAfter(s, pos, w, ']');
  }

  /** JSONAddArr fails with InvalidData, leaving 'that' as it was, when a
      string is followed by neither a '"' nor a ']'. */
  lemma AddArrBadNext(s: string, pos: nat, v: string, w: string, c: char, that: Node,
                      key: string, vals: seq<string>)
    requires TextOK(v) && AllSkip(w) && !IsSkip(c) && c != '"' && c != ']'
    requires At(s, pos, (v + "\"") + (w + [c]))
    ensures AddArr(s, pos, that, key, vals) == Parsed(pos + |v| + |w| + 2, that, Err(InvalidData))
  {
    AtSplit(s, pos, v + "\"", w + [c]);
    ReadBack(s, pos, v);
    NextAfter(s, pos + |v| + 1, w, c);
  }

  /** JSONAddArrStruct fails with InvalidData, leaving 'that' as it was,
      when a struct is followed by neither a '{' nor a ']'. */
  lemma AddArrStructBadNext(s: string, pos: nat, e: nat, o: Node, w: string, c: char,
                            that: Node, key: string, objs: seq<Node>)
    requires 1 <= pos <= |s| && s[pos - 1] == '{' && |key| < MaxLengthLbl
    requires Load(s, pos - 1, Empty) == Parsed(e, o, Ok)
    requires AllSkip(w) && !IsSkip(c) && c != '{' && c != ']' && At(s, e, w + [c])
    ensures AddArrStruct(s, pos, that, key, objs) == Parsed(e + |w| + 1, that, Err(InvalidData))
  {
    NextAfter(s, e, w, c);
  }

  // ----- What JSONLoadStr keeps -----

  /** The text has neither a quote nor a backslash. */
  predicate Plain(v: string) {
    '"' !in v && '\\' !in v
  }

  /** No quote in 't' is read with the escape flag clear, starting from
      flag 'esc': JSONLoadStr does not stop at any character of 't'. */
  predicate NoStop(t: string, esc: bool)
    decreases |t|
  {
    t == [] || (!(t[0] == '"' && !esc) && NoStop(t[1..], (esc || t[0] == '\\') && t[0] != '"'))
  }

  /** The escape flag after reading 't' from flag 'esc'. */
  function EscAfter(t: string, esc: bool): bool
    decreases |t|
  {
    if t == [] then esc else EscAfter(t[1..], (esc || t[0] == '\\') && t[0] != '"')
  }

  /** JSONLoadStr reads over characters it does not stop at, storing each
      of them, and leaves the escape flag as EscAfter says. */
  lemma {:induction false} ScanAny(s: string, pos: nat, v: string, esc: bool, buf: string)
    requires NoStop(v, esc) && |buf| + |v| < MaxLengthLbl && At(s, pos, v)
    ensures ScanStr(s, pos, esc, buf) == ScanStr(s, pos + |v|, EscAfter(v, esc), buf + v)
    decreases |v|
  {
    if v == [] {
      assert buf + v == buf;
    } else {
      var c := v[0];
      AtChar(s, pos, v, 0);
      assert v == [c] + v[1..];
      AtSplit(s, pos, [c], v[1..]);
      ScanAny(s, pos + 1, v[1..], (esc || c == '\\') && c != '"', buf + [c]);
      assert (buf + [c]) + v[1..] == buf + v;
    }
  }

  /** JSONLoadStr stops once PBJSON_MAXLENGTHLBL characters are read: when
      none of the first 499 is a quote that ends the string (escaped quotes
      and backslashes included), those 499 are kept and the 500th, whatever
      it is, is dropped. */
  lemma Truncated(s: string, pos: nat, v: string, c: char)
    requires NoStop(v, false) && |v| == MaxLengthLbl - 1 && At(s, pos, v + [c])
    ensures LoadStr(s, pos) == Read(v, pos + MaxLengthLbl)
  {
    AtSplit(s, pos, v, [c]);
    ScanAny(s, pos, v, false, "");
    assert "" + v == v;
  }

  /** Plain characters leave the escape flag clear. */
  lemma {:induction false} PlainCloses(v: string, t: string)
    requires Plain(v)
    ensures Closes(v + t, false) == Closes(t, false)
    decreases |v|
  {
    if v != [] {
      var c := v[0];
      assert c in v && (v + t)[0] == c;
      assert (v + t)[1..] == v[1..] + t;
      assert Closes(v + t, false) == Closes(v[1..] + t, false);
      PlainCloses(v[1..], t);
    } else {
      assert v + t == t;
    }
  }

  /** A backslash before a quote keeps that quote in the label. */
  lemma EscapedQuoteCloses(t: string)
    ensures Closes("\\\"" + t, false) == Closes(t, false)
  {
    assert ("\\\"" + t)[1..] == "\"" + t;
    assert ("\"" + t)[1..] == t;
  }

  /** JSONLoadStr reads back a plain text quoted with escaped quotes,
      keeping the backslashes. */
  lemma EscapedQuotes(s: string, pos: nat, v: string)
    requires Plain(v) && |v| + 4 < MaxLengthLbl
    requires At(s, pos, (("\\\"" + v) + "\\\"") + "\"")
    ensures LoadStr(s, pos) == Read(("\\\"" + v) + "\\\"", pos + |v| + 5)
  {
    var x := ("\\\"" + v) + "\\\"";
    assert x == "\\\"" + (v + "\\\"");
    EscapedQuoteCloses(v + "\\\"");
    PlainCloses(v, "\\\"");
    EscapedQuoteCloses("");
    assert "\\\"" + "" == "\\\"";
    ReadBack(s, pos, x);
  }

  /** The label of the unit test, \"double quoted\", comes back unchanged. */
  lemma DoubleQuoted()
    ensures LoadStr("\\\"double quoted\\\"\"", 0) == Read("\\\"double quoted\\\"", 18)
  {
    var v := "double quoted";
    var s := "\\\"double quoted\\\"\"";
    assert s == (("\\\"" + v) + "\\\"") + "\"";
    assert At(s, 0, s);
    assert Plain(v);
    assert |v| == 13;
    assert ("\\\"" + v) + "\\\"" == "\\\"double quoted\\\"";
    EscapedQuotes(s, 0, v);
  }

  // ----- Layout of the encoder's output -----

  /** At depth 0 the text ends with a new line, in compact mode as well. */
  lemma EndsWithNewLine(n: Node, compact: bool)
    requires |n.children| >= 1
    ensures var x := Encoded(n, compact, 0); |x| >= 1 && x[|x| - 1] == '\n'
  {
    var x := Encoded(n, compact, 0);
    var a := (LabelPart(n, compact, 0) + OpenPart(n, compact, 0)) + EncodedPieces(n, compact, 0, 0, false);
    var b := ClosePart(n, compact, 0) + "\n";
    assert x == a + b;
    assert x[|x| - 1] == b[|b| - 1];
  }

  /** Root elision: a root with one child whose label is null or empty is
      printed as that child alone, without the root's brackets, whether or
      not the child holds properties. */
  lemma RootElision(t: Node, compact: bool)
    requires |t.children| == 1 && LabelText(t.children[0].lbl) == "" && |t.children[0].children| >= 1
    ensures Encoded(t, compact, 0) ==
      (LabelPart(t, compact, 0) + Encoded(t.children[0], compact, 1)) + (Nl(compact) + "\n")
  {
    Unbracketed(t, compact, 0);
    RootPieces(t, compact);
    JoinBare(Encoded(t, compact, 0), LabelPart(t, compact, 0), OpenPart(t, compact, 0),
             EncodedPieces(t, compact, 0, 0, false), ClosePart(t, compact, 0), EndPart(0),
             Encoded(t.children[0], compact, 1), Nl(compact));
  }

  lemma RootPieces(t: Node, compact: bool)
    requires |t.children| == 1 && |t.children[0].children| >= 1
    ensures EncodedPieces(t, compact, 0, 0, false) == Encoded(t.children[0], compact, 1) + Nl(compact)
  {
    assert EncodedPiece(t, compact, 0, 0, false) == Encoded(t.children[0], compact, 1) + Nl(compact);
    assert EncodedPieces(t, compact, 0, 1, false) == [];
  }

  lemma JoinBare(e: string, l: string, o: string, m: string, cl: string, en: string, x: string, nl: string)
    requires e == (l + o) + m + (cl + en) && o == [] && cl == [] && m == x + nl
    ensures e == (l + x) + (nl + en)
  {
    assert l + o == l && cl + en == en;
  }

  /** A property with one value prints that value bare, a null label as "". */
  lemma ScalarLayout(p: Node, compact: bool, d: nat)
    requires HasKey(p) && d >= 1 && |p.children| == 1 && IsValue(p.children[0])
    ensures Encoded(p, compact, d) ==
      ((Ind(compact, d) + "\"") + (StripArr(p.lbl.value) + "\":")) +
      (['"'] + (LabelText(p.children[0].lbl) + "\""))
  {
    PropLayout(p, compact, d);
    ScalarVal(p, compact, d);
  }

  /** A property with several values prints them quoted, separated by
      commas, between square brackets. */
  lemma StringsLayout(p: Node, compact: bool, d: nat)
    requires HasKey(p) && d >= 1 && |p.children| >= 2
    requires forall j :: 0 <= j < |p.children| ==> IsValue(p.children[j])
    ensures Encoded(p, compact, d) ==
      ((Ind(compact, d) + "\"") + (StripArr(p.lbl.value) + "\":")) +
      (['['] + (['"'] + StrTail(Labels(p.children), 0)))
  {
    PropLayout(p, compact, d);
    StringsVal(p, compact, d);
    ValueTailStr(p, compact, d, 0);
  }

  /** The property _JSONAddPropArr appends for an empty list is printed as
      a single empty string. */
  lemma PlaceholderLayout(key: string, compact: bool, d: nat)
    requires |key| > 0 && !IsArrKey(key) && d >= 1
    ensures Encoded(ArrProp(key, []), compact, d) == ((Ind(compact, d) + "\"") + (key + "\":")) + "\"\""
  {
    var p := ArrProp(key, []);
    ScalarLayout(p, compact, d);
    assert LabelText(p.children[0].lbl) == "";
    assert ['"'] + ("" + "\"") == "\"\"";
  }

  /** A single string under the empty key at the root is printed bare, and
      JSONLoad rejects the text: that tree does not read back. */
  lemma BareStringRejected(compact: bool)
    ensures var t := Append(Empty, Node(Some(""), [Node(Some("x"), [])]));
      Load(Encoded(t, compact, 0), 0, Empty) == Parsed(1, Empty, Err(InvalidData))
  {
    var t := Append(Empty, Node(Some(""), [Node(Some("x"), [])]));
    var ch := t.children[0];
    var s := Encoded(t, compact, 0);
    RootElision(t, compact);
    BareString(ch, compact);
    assert s == "\"x\"" + (Nl(compact) + "\n");
    assert At(s, 0, "" + ['"']);
    LoadBadStart(s, 0, "", '"', Empty);
  }

  /** A root given a label with JSONSetLabel is printed with that label as
      a key before its braces, and JSONLoad rejects the text at the key's
      opening quote: that tree does not read back. */
  lemma LabelledRootRejected(compact: bool)
    ensures var t := SetLabel(AddPropStr(Empty, "a", "b"), "x");
      !DocWF(t) && Load(Encoded(t, compact, 0), 0, Empty) == Parsed(1, Empty, Err(InvalidData))
  {
    var t := SetLabel(AddPropStr(Empty, "a", "b"), "x");
    var s := Encoded(t, compact, 0);
    var l := LabelPart(t, compact, 0);
    KeyText(t, compact, 0);
    assert Ind(compact, 0) == "";
    assert l == "\"x\":";
    assert s == l + (s[|l|..]);
    assert s[0] == '"';
    assert At(s, 0, "" + ['"']);
    LoadBadStart(s, 0, "", '"', Empty);
  }

  lemma BareString(ch: Node, compact: bool)
    requires ch == Node(Some(""), [Node(Some("x"), [])])
    ensures Encoded(ch, compact, 1) == "\"x\""
  {
    Unbracketed(ch, compact, 1);
    assert EncodedPieces(ch, compact, 1, 1, true) == [];
    assert EncodedPiece(ch, compact, 1, 0, false) == "\"x\"";
  }

  /** An empty array of structs, as _JSONAddPropArrObj builds it for an
      empty set, is printed as an empty string, and JSONLoad reads that
      text back as a string property: the "[]" marker is lost, so the tree
      is not one that reads back. */
  lemma EmptyArrObjLost()
    ensures var t := Append(Empty, ArrObjProp("k", []));
      !DocWF(t) && Encoded(t, true, 0) == "{\"k\":\"\"}\n" &&
      Load(Encoded(t, true, 0), 0, Empty) == Parsed(8, AddPropStr(Empty, "k", ""), Ok)
  {
    var t := Append(Empty, ArrObjProp("k", []));
    assert !ElemWF(t.children[0].children[0]);
    EmptyArrObjText(t);
    var s := "{\"k\":\"\"}\n";
    assert Closes("k", false) && TextOK("k") && TextOK("");
    assert At(s, 1, "" + ['"']);
    assert At(s, 2, ("k" + "\"") + ([':'] + ['"']));
    assert At(s, 6, "" + "\"");
    assert At(s, 7, "" + ['}']);
    PropStr(s, 2, Empty, "k", "", 6, 7);
    StructEnd(s, 7, "", AddPropStr(Empty, "k", ""), 8);
    StructNext(s, 1, "", 2, Empty, 7, AddPropStr(Empty, "k", ""));
    LoadAtBrace(s, 0, Empty, 1);
  }

  lemma EmptyArrObjText(t: Node)
    requires t == Append(Empty, ArrObjProp("k", []))
    ensures Encoded(t, true, 0) == "{\"k\":\"\"}\n"
  {
    var p := t.children[0];
    ScalarLayout(p, true, 1);
    assert Encoded(p, true, 1) == "\"k\":\"\"";
    assert EncodedPieces(t, true, 0, 1, false) == [];
    assert EncodedPieces(t, true, 0, 0, false) == "\"k\":\"\"";
  }

  // ----- The documents of the unit tests -----

  /** The document of the array test: the strings "8", "9", "10" added
      under the empty key. */
  function ArrayDoc(): Node {
    Append(Empty, ArrProp("", ["8", "9", "10"]))
  }

  /** Saved in compact form, the array document is printed without the
      root's braces. */
  lemma ArrayDocText()
    ensures Encoded(ArrayDoc(), true, 0) == "[\"8\",\"9\",\"10\"]\n"
  {
    var x := StrTail(Labels(ArrayDoc().children[0].children), 0);
    ArrayDocWF();
    StringsDocText(ArrayDoc(), true);
    ArrayLabels();
    ArrayStrTail();
    ArrayConcat(x);
  }

  lemma ArrayConcat(x: string)
    requires x == "8\",\"9\",\"10\"]"
    ensures (['['] + (['"'] + x)) + (Nl(true) + "\n") == "[\"8\",\"9\",\"10\"]\n"
  {
  }

  lemma ArrayLabels()
    ensures Labels(ArrayDoc().children[0].children) == ["8", "9", "10"]
  {
  }

  lemma ArrayStrTail()
    ensures StrTail(["8", "9", "10"], 0) == "8\",\"9\",\"10\"]"
  {
    var ls := ["8", "9", "10"];
    assert StrTail(ls, 2) == "10\"]";
    assert StrTail(ls, 1) == "9\",\"10\"]";
  }

  /** The escaped document: its strings quoted, separated by commas,
      between square brackets, then the new lines. */
  lemma StringsDocText(t: Node, compact: bool)
    requires DocWF(t) && Escaped(t)
    ensures Encoded(t, compact, 0) ==
      (['['] + (['"'] + StrTail(Labels(t.children[0].children), 0))) + (Nl(compact) + "\n")
  {
    DocEscText(t, compact);
    ValueTailStr(t.children[0], compact, 1, 0);
  }

  lemma ArrayDocWF()
    ensures DocWF(ArrayDoc())
  {
    var ch := ArrayDoc().children[0];
    assert ch.children == [Node(Some("8"), []), Node(Some("9"), []), Node(Some("10"), [])];
    assert Closes("", false);
    assert Closes("0", false);
    assert Closes("10", false);
    assert Closes("8", false) && Closes("9", false);
    assert forall j :: 0 <= j < 3 ==> ValueOK(ch.children[j]);
  }

  /** Saved in either form and loaded back, the array document gives the
      strings "8", "9", "10" in order under its first child. */
  lemma ArrayRoundTrip(compact: bool)
    ensures var r := Load(Encoded(ArrayDoc(), compact, 0), 0, Empty);
      r.status == Ok && |r.that.children| == 1 &&
      r.that.children[0].children == [Node(Some("8"), []), Node(Some("9"), []), Node(Some("10"), [])]
  {
    ArrayDocWF();
    RoundTrip(ArrayDoc(), compact);
    var vs := ArrayDoc().children[0].children;
    assert NormValues(vs) == [Node(Some("8"), []), Node(Some("9"), []), Node(Some("10"), [])];
  }

  /** The property _JSONAddPropStr appends (AddPropStrSpec): 'key'
      holding one value labelled 'val'. */
  function StrProp(key: string, val: string): Node {
    Node(Some(key), [Node(Some(val), [])])
  }

  /** The records of the load and save test, with each number already
      converted to the string sprintf gives for it. */
  datatype StructB = StructB(intVal: string, floatVal: string)
  datatype StructA = StructA(intVal: string, intArr: seq<string>, structVal: StructB, structArr: seq<StructB>)

  /** StructBEncodeAsJSON: the two fields of a structB. */
  function StructBDoc(b: StructB): Node {
    AddPropStr(AddPropStr(Empty, "_intVal", b.intVal), "_floatVal", b.floatVal)
  }

  /** A label wrapped in escaped quotes. */
  function Quote(v: string): string {
    ("\\\"" + v) + "\\\""
  }

  /** StructAEncodeAsJSON: the properties in the order it adds them. The
      one-value array holds the last value of '_intArr', which is what is
      left in the conversion buffer. */
  function RecordDoc(a: StructA): Node
    requires |a.intArr| == 3 && |a.structArr| == 2
  {
    var t0 := AddPropStr(Empty, "_emptyVal", "");
    var t1 := AddPropStr(t0, "_intVal", a.intVal);
    var t2 := AddPropStr(t1, "_escapeVal", Quote("double quoted"));
    var t3 := Append(t2, ArrProp("_intArr", a.intArr));
    var t4 := Append(t3, ArrProp("_emptyArr", []));
    var t5 := Append(t4, ArrProp("_oneIntArr", [a.intArr[2]]));
    var t6 := AddPropObj(t5, "_structVal", StructBDoc(a.structVal));
    Append(t6, ArrObjProp("_structArr", [StructBDoc(a.structArr[0]), StructBDoc(a.structArr[1])]))
  }

  /** The values of UnitTestJSONLoadSave. */
  const TestRecord: StructA := StructA("1", ["2", "3", "4"], StructB("5", "6.000000"),
                                         [StructB("7", "8.000000"), StructB("9", "10.000000")])

  /** A converted number reads back: no quote, no backslash, and short. */
  predicate FieldOK(v: string) {
    Plain(v) && |v| < MaxLengthLbl
  }

  predicate StructBOK(b: StructB) {
    FieldOK(b.intVal) && FieldOK(b.floatVal)
  }

  /** A record with the array sizes of structA whose converted numbers read back. */
  predicate RecordOK(a: StructA) {
    |a.intArr| == 3 && |a.structArr| == 2 && FieldOK(a.intVal) &&
    (forall i :: 0 <= i < 3 ==> FieldOK(a.intArr[i])) &&
    StructBOK(a.structVal) && StructBOK(a.structArr[0]) && StructBOK(a.structArr[1])
  }

  /** The test's values are such a record. */
  lemma TestRecordOK()
    ensures RecordOK(TestRecord)
  {
    assert TestRecord.intArr == ["2", "3", "4"];
    assert FieldOK("2") && FieldOK("3") && FieldOK("4");
  }

  /** A structB relabelled 'key' by _JSONAddPropObj. */
  function StructBProp(key: string, b: StructB): Node {
    Node(Some(key), [StrProp("_intVal", b.intVal), StrProp("_floatVal", b.floatVal)])
  }

  /** A structB holds its two fields, in order. */
  lemma StructBChildren(b: StructB)
    ensures StructBDoc(b) == Node(None, [StrProp("_intVal", b.intVal), StrProp("_floatVal", b.floatVal)])
  {
  }

  /** The record document holds its eight properties, in order. */
  lemma RecordChildren(a: StructA)
    requires |a.intArr| == 3 && |a.structArr| == 2
    ensures RecordDoc(a) == Node(None, [
      StrProp("_emptyVal", ""), StrProp("_intVal", a.intVal), StrProp("_escapeVal", Quote("double quoted")),
      ArrProp("_intArr", a.intArr), ArrProp("_emptyArr", []), ArrProp("_oneIntArr", [a.intArr[2]]),
      StructBProp("_structVal", a.structVal),
      ArrObjProp("_structArr", [StructBDoc(a.structArr[0]), StructBDoc(a.structArr[1])])])
  {
    StructBChildren(a.structVal);
  }

  /** A text with neither quotes nor backslashes reads back when it fits. */
  lemma PlainOK(v: string)
    requires FieldOK(v)
    ensures TextOK(v)
  {
    PlainCloses(v, "");
    assert v + "" == v;
  }

  /** A plain text wrapped in escaped quotes reads back when it fits. */
  lemma QuoteOK(v: string)
    requires Plain(v) && |v| + 4 < MaxLengthLbl
    ensures TextOK(Quote(v))
  {
    assert Quote(v) == "\\\"" + (v + "\\\"");
    EscapedQuoteCloses(v + "\\\"");
    PlainCloses(v, "\\\"");
    EscapedQuoteCloses("");
    assert "\\\"" + "" == "\\\"";
  }

  /** A string property under a plain key reads back. */
  lemma StrPropWF(key: string, v: string)
    requires FieldOK(key) && |key| > 0 && key[0] != '[' && TextOK(v)
    ensures PropWF(StrProp(key, v))
  {
    PlainOK(key);
    assert ValueOK(StrProp(key, v).children[0]);
  }

  /** An array of strings under a plain key reads back. */
  lemma ArrPropWF(key: string, vals: seq<string>)
    requires FieldOK(key) && |key| > 0 && key[0] != '['
    requires forall i :: 0 <= i < |vals| ==> FieldOK(vals[i])
    ensures PropWF(ArrProp(key, vals))
  {
    var p := ArrProp(key, vals);
    PlainOK(key);
    PlainOK("");
    forall i | 0 <= i < |p.children| ensures ValueOK(p.children[i]) {
      if vals != [] {
        PlainOK(vals[i]);
      }
    }
  }

  /** The two fields of a structB read back. */
  lemma StructBWF(b: StructB)
    requires StructBOK(b)
    ensures PropWF(StrProp("_intVal", b.intVal)) && PropWF(StrProp("_floatVal", b.floatVal))
  {
    PlainOK(b.intVal);
    PlainOK(b.floatVal);
    StrPropWF("_intVal", b.intVal);
    StrPropWF("_floatVal", b.floatVal);
  }

  /** A node holding two properties that read back, under a plain key. */
  lemma PairPropWF(key: string, c0: Node, c1: Node)
    requires FieldOK(key) && |key| > 0 && key[0] != '[' && PropWF(c0) && PropWF(c1)
    ensures PropWF(Node(Some(key), [c0, c1]))
  {
    PlainOK(key);
    var cs := [c0, c1];
    assert forall i :: 0 <= i < 2 ==> cs[i] in {c0, c1};
  }

  /** An unlabelled node holding two properties that read back is an
      element that reads back. */
  lemma PairElemWF(c0: Node, c1: Node)
    requires PropWF(c0) && PropWF(c1)
    ensures ElemWF(Node(None, [c0, c1]))
  {
    var cs := [c0, c1];
    assert forall i :: 0 <= i < 2 ==> cs[i] in {c0, c1};
  }

  /** Two elements that read back, under a key that reads back, make an
      array of structs that reads back. */
  lemma PairArrObjWF(key: string, e0: Node, e1: Node)
    requires TextOK(key) && ElemWF(e0) && ElemWF(e1)
    ensures PropWF(ArrObjProp(key, [e0, e1]))
  {
    var es := [e0, e1];
    assert forall i :: 0 <= i < 2 ==> es[i] in {e0, e1};
  }

  /** A string property whose label is a plain text in escaped quotes. */
  lemma QuotePropWF(key: string, v: string)
    requires FieldOK(key) && |key| > 0 && key[0] != '[' && Plain(v) && |v| + 4 < MaxLengthLbl
    ensures PropWF(StrProp(key, Quote(v)))
  {
    QuoteOK(v);
    StrPropWF(key, Quote(v));
  }

  /** The eight properties of a record, one lemma each. */
  lemma RecordEmptyVal()
    ensures PropWF(StrProp("_emptyVal", ""))
  {
    PlainOK("");
    StrPropWF("_emptyVal", "");
  }

  lemma RecordIntVal(a: StructA)
    requires RecordOK(a)
    ensures PropWF(StrProp("_intVal", a.intVal))
  {
    PlainOK(a.intVal);
    StrPropWF("_intVal", a.intVal);
  }

  lemma RecordEscapeVal()
    ensures PropWF(StrProp("_escapeVal", Quote("double quoted")))
  {
    QuotePropWF("_escapeVal", "double quoted");
  }

  lemma RecordIntArr(a: StructA)
    requires RecordOK(a)
    ensures PropWF(ArrProp("_intArr", a.intArr))
  {
    ArrPropWF("_intArr", a.intArr);
  }

  lemma RecordEmptyArr()
    ensures PropWF(ArrProp("_emptyArr", []))
  {
    ArrPropWF("_emptyArr", []);
  }

  lemma RecordOneIntArr(a: StructA)
    requires RecordOK(a)
    ensures PropWF(ArrProp("_oneIntArr", [a.intArr[2]]))
  {
    ArrPropWF("_oneIntArr", [a.intArr[2]]);
  }

  /** A structB reads back as a nested struct under a plain key. */
  lemma StructBPropWF(key: string, b: StructB)
    requires FieldOK(key) && |key| > 0 && key[0] != '[' && StructBOK(b)
    ensures PropWF(StructBProp(key, b))
  {
    StructBWF(b);
    PairPropWF(key, StrProp("_intVal", b.intVal), StrProp("_floatVal", b.floatVal));
  }

  lemma RecordStructVal(a: StructA)
    requires RecordOK(a)
    ensures PropWF(StructBProp("_structVal", a.structVal))
  {
    StructBPropWF("_structVal", a.structVal);
  }

  /** A structB reads back as an element of an array of structs. */
  lemma StructBElemWF(b: StructB)
    requires StructBOK(b)
    ensures ElemWF(StructBDoc(b))
  {
    StructBChildren(b);
    StructBWF(b);
    PairElemWF(StrProp("_intVal", b.intVal), StrProp("_floatVal", b.floatVal));
  }

  lemma RecordStructArr(a: StructA)
    requires RecordOK(a)
    ensures PropWF(ArrObjProp("_structArr", [StructBDoc(a.structArr[0]), StructBDoc(a.structArr[1])]))
  {
    StructBElemWF(a.structArr[0]);
    StructBElemWF(a.structArr[1]);
    PlainOK("_structArr");
    PairArrObjWF("_structArr", StructBDoc(a.structArr[0]), StructBDoc(a.structArr[1]));
  }

  /** A root with eight properties that all read back is a document that
      reads back. */
  lemma PropsWF(c0: Node, c1: Node, c2: Node, c3: Node, c4: Node, c5: Node, c6: Node, c7: Node)
    requires PropWF(c0) && PropWF(c1) && PropWF(c2) && PropWF(c3)
    requires PropWF(c4) && PropWF(c5) && PropWF(c6) && PropWF(c7)
    ensures DocWF(Node(None, [c0, c1, c2, c3, c4, c5, c6, c7]))
  {
    var cs := [c0, c1, c2, c3, c4, c5, c6, c7];
    assert forall i :: 0 <= i < 8 ==> cs[i] in {c0, c1, c2, c3, c4, c5, c6, c7};
  }

  /** The tree StructAEncodeAsJSON builds is one the decoder rebuilds,
      whenever the converted numbers read back. */
  lemma RecordDocWF(a: StructA)
    requires RecordOK(a)
    ensures DocWF(RecordDoc(a))
  {
    RecordChildren(a);
    RecordEmptyVal();
    RecordIntVal(a);
    RecordEscapeVal();
    RecordIntArr(a);
    RecordEmptyArr();
    RecordOneIntArr(a);
    RecordStructVal(a);
    RecordStructArr(a);
    PropsWF(StrProp("_emptyVal", ""), StrProp("_intVal", a.intVal), StrProp("_escapeVal", Quote("double quoted")),
      ArrProp("_intArr", a.intArr), ArrProp("_emptyArr", []), ArrProp("_oneIntArr", [a.intArr[2]]),
      StructBProp("_structVal", a.structVal),
      ArrObjProp("_structArr", [StructBDoc(a.structArr[0]), StructBDoc(a.structArr[1])]));
  }

  /** StructASave then StructALoad: saved in either form and loaded back,
      a record gives back its eight properties, in order, up to the
      normalisation of labels. This covers the values of the test. */
  lemma RecordRoundTrip(a: StructA, compact: bool)
    requires RecordOK(a)
    ensures var r := Load(Encoded(RecordDoc(a), compact, 0), 0, Empty);
      r.status == Ok && r.that == NormDoc(RecordDoc(a))
  {
    RecordDocWF(a);
    RoundTrip(RecordDoc(a), compact);
  }

  /** The record of UnitTestJSONLoadSave, saved in pretty form as the test
      does and loaded back, gives back its properties. */
  lemma TestRecordRoundTrip()
    ensures var r := Load(Encoded(RecordDoc(TestRecord), false, 0), 0, Empty);
      r.status == Ok && r.that == NormDoc(RecordDoc(TestRecord))
  {
    TestRecordOK();
    RecordRoundTrip(TestRecord, false);
  }
}
