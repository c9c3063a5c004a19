/** What the decoder makes of the encoder's output: for every tree the
    encoder can print in a form the decoder reads back, JSONLoad applied to
    the text JSONSave writes succeeds and rebuilds the tree, up to the
    normalisation of labels that the text cannot carry. */
module JsonRoundTrip {
  import opened Outcomes
  import opened JsonTree
  import opened JsonSave
  import opened JsonLoad
  import opened JsonText
  import opened JsonShape

  // ----- Reading from a position -----

  /** JSONGetNextChar skips 'w' and returns the character after it. */
  lemma {:induction false} NextAfter(s: string, pos: nat, w: string, c: char)
    requires AllSkip(w) && !IsSkip(c) && At(s, pos, w + [c])
    ensures NextChar(s, pos) == Read(c, pos + |w| + 1)
    decreases |w|
  {
    AtChar(s, pos, w + [c], 0);
    if w != [] {
      SkipFirst(w);
      assert w + [c] == [w[0]] + (w[1..] + [c]);
      AtSplit(s, pos, [w[0]], w[1..] + [c]);
      NextAfter(s, pos + 1, w[1..], c);
    }
  }

  // ----- Strings the decoder reads back -----

  lemma {:induction false} ScanText(s: string, pos: nat, v: string, esc: bool, buf: string)
    requires Closes(v, esc) && |buf| + |v| < MaxLengthLbl && At(s, pos, v + "\"")
    ensures ScanStr(s, pos, esc, buf) == Read(buf + v, pos + |v| + 1)
    decreases |v|
  {
    AtChar(s, pos, v + "\"", 0);
    if v == [] {
      assert buf + v == buf;
    } else {
      var c := v[0];
      assert v + "\"" == [c] + (v[1..] + "\"");
      AtSplit(s, pos, [c], v[1..] + "\"");
      ScanText(s, pos + 1, v[1..], (esc || c == '\\') && c != '"', buf + [c]);
      assert buf + [c] + v[1..] == buf + v;
    }
  }

  /** JSONLoadStr reads back a label that satisfies TextOK. */
  lemma ReadBack(s: string, pos: nat, v: string)
    requires TextOK(v) && At(s, pos, v + "\"")
    ensures LoadStr(s, pos) == Read(v, pos + |v| + 1)
  {
    ScanText(s, pos, v, false, "");
    assert "" + v == v;
  }

  // ----- Reading the encoder's output back -----

  lemma ArrPropNorm(key: string, cs: seq<Node>)
    requires |cs| >= 1
    ensures ArrProp(key, Labels(cs)) == Node(Some(key), NormValues(cs))
  {
    assert ArrProp(key, Labels(cs)).children == NormValues(cs);
  }

  /** JSONAddArr reads back the strings of an array printed by the encoder. */
  lemma ReadValues(s: string, pos: nat, p: Node, compact: bool, d: nat, that: Node, key: string)
    requires |p.children| >= 1 && forall j :: 0 <= j < |p.children| ==> ValueOK(p.children[j])
    requires At(s, pos, ValueTail(p, compact, d, 0))
    ensures AddArr(s, pos, that, key, []) ==
      Parsed(pos + |ValueTail(p, compact, d, 0)|, Append(that, Node(Some(key), NormValues(p.children))), Ok)
  {
    var ls := Labels(p.children);
    ValueTailStr(p, compact, d, 0);
    assert ls[..0] == [];
    ReadStrings(s, pos, ls, 0, that, key);
    ArrPropNorm(key, p.children);
  }

  lemma {:induction false} ValueTailStr(p: Node, compact: bool, d: nat, i: nat)
    requires i < |p.children| && forall j :: 0 <= j < |p.children| ==> IsValue(p.children[j])
    ensures ValueTail(p, compact, d, i) == StrTail(Labels(p.children), i)
    decreases |p.children| - i
  {
    var v := LabelText(p.children[i].lbl);
    if i == |p.children| - 1 {
      assert EncodedPieces(p, compact, d, i + 1, true) == [];
    } else {
      ValueTailNext(p, compact, d, i);
      ValueTailStr(p, compact, d, i + 1);
      Assoc(v + "\"", [','] + ['"'], StrTail(Labels(p.children), i + 1));
    }
  }

  /** JSONAddArr reads the strings 'ls[i..]', having read 'ls[..i]'. */
  lemma {:induction false} ReadStrings(s: string, pos: nat, ls: seq<string>, i: nat, that: Node, key: string)
    requires i < |ls| && forall j :: 0 <= j < |ls| ==> TextOK(ls[j])
    requires At(s, pos, StrTail(ls, i))
    ensures AddArr(s, pos, that, key, ls[..i]) ==
      Parsed(pos + |StrTail(ls, i)|, Append(that, ArrProp(key, ls)), Ok)
    decreases |ls| - i
  {
    if i == |ls| - 1 {
      assert ls[..i] + [ls[i]] == ls;
      AddArrLast(s, pos, that, key, ls[..i], ls[i]);
    } else {
      var q := StringsNextText(s, pos, ls, i);
      assert ls[..i] + [ls[i]] == ls[..i + 1];
      AddArrNext(s, pos, that, key, ls[..i], ls[i], ls[..i + 1], q);
      ReadStrings(s, q, ls, i + 1, that, key);
    }
  }

  lemma StringsNextText(s: string, pos: nat, ls: seq<string>, i: nat) returns (q: nat)
    requires i < |ls| - 1 && At(s, pos, StrTail(ls, i))
    ensures q == pos + |ls[i]| + 3
    ensures At(s, pos, (ls[i] + "\"") + ([','] + ['"'])) && At(s, q, StrTail(ls, i + 1))
    ensures q + |StrTail(ls, i + 1)| == pos + |StrTail(ls, i)|
  {
    var a, b, t := ls[i] + "\"", [','] + ['"'], StrTail(ls, i + 1);
    AtSplit(s, pos, a, b + t);
    AtSplit(s, pos + |a|, b, t);
    AtJoin(s, pos, a, b);
    q := pos + |a| + |b|;
  }

  /** The last iteration of JSONAddArr over a string closing the array. */
  lemma AddArrLast(s: string, pos: nat, that: Node, key: string, vals: seq<string>, v: string)
    requires TextOK(v) && At(s, pos, v + "\"" + [']'])
    ensures AddArr(s, pos, that, key, vals) ==
      Parsed(pos + |v| + 2, Append(that, ArrProp(key, vals + [v])), Ok)
  {
    AtSplit(s, pos, v + "\"", [']']);
    ReadBack(s, pos, v);
    var q := pos + |v| + 1;
    assert "" + [']'] == [']'];
    NextAfter(s, q, "", ']');
  }

  /** An iteration of JSONAddArr over a string followed by another. */
  lemma AddArrNext(s: string, pos: nat, that: Node, key: string, vals: seq<string>, v: string,
                   vals': seq<string>, q: nat)
    requires TextOK(v) && At(s, pos, (v + "\"") + ([','] + ['"'])) && vals' == vals + [v]
    requires q == pos + |v| + 3
    ensures AddArr(s, pos, that, key, vals) == AddArr(s, q, that, key, vals')
  {
    var r := pos + |v| + 1;
    AtSplit(s, pos, v + "\"", [','] + ['"']);
    ReadBack(s, pos, v);
    NextAfter(s, r, [','], '"');
    AddArrStep(s, pos, that, key, vals, v, vals', r, q);
  }

  lemma AddArrStep(s: string, pos: nat, that: Node, key: string, vals: seq<string>, v: string,
                   vals': seq<string>, r: nat, q: nat)
    requires pos <= r <= |s| && LoadStr(s, pos) == Read(v, r) && NextChar(s, r) == Read('"', q)
    requires vals' == vals + [v]
    ensures AddArr(s, pos, that, key, vals) == AddArr(s, q, that, key, vals')
  {
  }

  lemma ValueTailNext(p: Node, compact: bool, d: nat, i: nat)
    requires i < |p.children| - 1 && IsValue(p.children[i + 1])
    ensures ValueTail(p, compact, d, i) ==
      ((LabelText(p.children[i].lbl) + "\"") + ([','] + ['"'])) + ValueTail(p, compact, d, i + 1)
  {
    var v, t := LabelText(p.children[i].lbl), ValueTail(p, compact, d, i + 1);
    ValuePieceNext(p, compact, d, i + 1);
    assert ValueTail(p, compact, d, i) == (v + "\"") + (([','] + ['"']) + t);
    Assoc(v + "\"", [','] + ['"'], t);
  }

  lemma ValuePieceNext(p: Node, compact: bool, d: nat, i: nat)
    requires 0 < i < |p.children| && IsValue(p.children[i])
    ensures EncodedPieces(p, compact, d, i, true) == ([','] + ['"']) + ValueTail(p, compact, d, i)
  {
  }

  // ----- Single steps of the decoder -----
  // Positions are passed as parameters tied by equations, which keeps the
  // unfolding of the decoder functions cheap for the solver.

  /** JSONLoadStruct at the closing '}'. */
  lemma StructEnd(s: string, pos: nat, w: string, that: Node, e: nat)
    requires AllSkip(w) && At(s, pos, w + ['}']) && e == pos + |w| + 1
    ensures LoadStruct(s, pos, that) == Parsed(e, that, Ok)
  {
    NextAfter(s, pos, w, '}');
  }

  /** JSONLoadStruct reading one property and going on. */
  lemma StructNext(s: string, pos: nat, w: string, q: nat, that: Node, e: nat, that': Node)
    requires AllSkip(w) && At(s, pos, w + ['"']) && q == pos + |w| + 1
    requires LoadProp(s, q, that) == Parsed(e, that', Ok)
    ensures LoadStruct(s, pos, that) == LoadStruct(s, e, that')
  {
    NextAfter(s, pos, w, '"');
  }

  /** JSONLoadProp up to the first character of the value, read at 'q - 1'. */
  lemma PropHead(s: string, pos: nat, key: string, c: char, q: nat)
    requires TextOK(key) && !IsSkip(c) && At(s, pos, (key + "\"") + ([':'] + [c]))
    requires q == pos + |key| + 3
    ensures q <= |s|
    ensures LoadStr(s, pos) == Read(key, q - 2)
    ensures NextChar(s, q - 2) == Read(':', q - 1)
    ensures NextChar(s, q - 1) == Read(c, q)
  {
    AtSplit(s, pos, key + "\"", [':'] + [c]);
    ReadBack(s, pos, key);
    AtSplit(s, q - 2, [':'], [c]);
    assert "" + [':'] == [':'];
    NextAfter(s, q - 2, "", ':');
    assert "" + [c] == [c];
    NextAfter(s, q - 1, "", c);
  }

  /** JSONLoadProp for a string value. */
  lemma PropStr(s: string, pos: nat, that: Node, key: string, v: string, q: nat, e: nat)
    requires TextOK(key) && TextOK(v) && q == pos + |key| + 3
    requires At(s, pos, (key + "\"") + ([':'] + ['"'])) && At(s, q, v + "\"") && e == q + |v| + 1
    ensures LoadProp(s, pos, that) == Parsed(e, AddPropStr(that, key, v), Ok)
  {
    PropHead(s, pos, key, '"', q);
    ReadBack(s, q, v);
    PropStrStep(s, pos, that, key, v, q, e);
  }

  lemma PropStrStep(s: string, pos: nat, that: Node, key: string, v: string, q: nat, e: nat)
    requires 2 <= q <= |s| && pos <= |s|
    requires LoadStr(s, pos) == Read(key, q - 2) && NextChar(s, q - 2) == Read(':', q - 1)
    requires NextChar(s, q - 1) == Read('"', q) && LoadStr(s, q) == Read(v, e)
    ensures LoadProp(s, pos, that) == Parsed(e, AddPropStr(that, key, v), Ok)
  {
  }

  /** JSONLoadProp for an array value: the result of JSONLoadArr is ignored. */
  lemma PropArr(s: string, pos: nat, that: Node, key: string, q: nat, e: nat, that': Node)
    requires TextOK(key) && At(s, pos, (key + "\"") + ([':'] + ['['])) && q == pos + |key| + 3
    requires LoadArr(s, q, that, key) == Parsed(e, that', Ok)
    ensures LoadProp(s, pos, that) == Parsed(e, that', Ok)
  {
    PropHead(s, pos, key, '[', q);
    PropArrStep(s, pos, that, key, q, e, that');
  }

  lemma PropArrStep(s: string, pos: nat, that: Node, key: string, q: nat, e: nat, that': Node)
    requires 2 <= q <= |s| && pos <= |s| && |key| < MaxLengthLbl
    requires LoadStr(s, pos) == Read(key, q - 2) && NextChar(s, q - 2) == Read(':', q - 1)
    requires NextChar(s, q - 1) == Read('[', q)
    requires LoadArr(s, q, that, key) == Parsed(e, that', Ok)
    ensures LoadProp(s, pos, that) == Parsed(e, that', Ok)
  {
  }

  /** JSONLoadProp for a struct value, loaded into a new node labelled 'key'. */
  lemma PropObj(s: string, pos: nat, that: Node, key: string, q: nat, e: nat, sub: Node)
    requires TextOK(key) && At(s, pos, (key + "\"") + ([':'] + ['{'])) && q == pos + |key| + 3
    requires LoadStruct(s, q, Node(Some(key), [])) == Parsed(e, sub, Ok)
    ensures LoadProp(s, pos, that) == Parsed(e, Append(that, sub), Ok)
  {
    PropHead(s, pos, key, '{', q);
    PropObjStep(s, pos, that, key, q, e, sub);
  }

  lemma PropObjStep(s: string, pos: nat, that: Node, key: string, q: nat, e: nat, sub: Node)
    requires 2 <= q <= |s| && pos <= |s|
    requires LoadStr(s, pos) == Read(key, q - 2) && NextChar(s, q - 2) == Read(':', q - 1)
    requires NextChar(s, q - 1) == Read('{', q)
    requires LoadStruct(s, q, Node(Some(key), [])) == Parsed(e, sub, Ok)
    ensures LoadProp(s, pos, that) == Parsed(e, Append(that, sub), Ok)
  {
    assert SetLabel(Empty, key) == Node(Some(key), []);
  }

  /** JSONLoadArr at the opening quote of an array of strings. */
  lemma ArrStrings(s: string, pos: nat, that: Node, key: string, q: nat)
    requires |key| < MaxLengthLbl && At(s, pos, ['"']) && q == pos + 1
    ensures LoadArr(s, pos, that, key) == AddArr(s, q, that, key, [])
  {
    assert "" + ['"'] == ['"'];
    NextAfter(s, pos, "", '"');
  }

  /** JSONLoadArr at the '{' of the first element of an array of structs. */
  lemma ArrStructs(s: string, pos: nat, w: string, that: Node, key: string, q: nat)
    requires |key| < MaxLengthLbl && AllSkip(w) && At(s, pos, w + ['{']) && q == pos + |w| + 1
    ensures 1 <= q <= |s| && s[q - 1] == '{'
    ensures LoadArr(s, pos, that, key) == AddArrStruct(s, q, that, key, [])
  {
    NextAfter(s, pos, w, '{');
  }

  /** JSONLoad of a struct, as JSONAddArrStruct calls it after the rewind. */
  lemma LoadAtBrace(s: string, pos: nat, that: Node, q: nat)
    requires pos < |s| && s[pos] == '{' && q == pos + 1
    ensures Load(s, pos, that) == LoadStruct(s, q, that)
  {
    assert At(s, pos, "" + ['{']);
    NextAfter(s, pos, "", '{');
  }

  /** JSONAddArrStruct after the last element. */
  lemma ElemLast(s: string, pos: nat, that: Node, key: string, objs: seq<Node>,
                 e: nat, o: Node, w: string, objs': seq<Node>, f: nat)
    requires 1 <= pos <= |s| && s[pos - 1] == '{' && |key| < MaxLengthLbl
    requires Load(s, pos - 1, Empty) == Parsed(e, o, Ok)
    requires AllSkip(w) && At(s, e, w + [']']) && objs' == objs + [o] && f == e + |w| + 1
    ensures AddArrStruct(s, pos, that, key, objs) == Parsed(f, Append(that, ArrObjProp(key, objs')), Ok)
  {
    NextAfter(s, e, w, ']');
  }

  /** JSONAddArrStruct going on to the next element. */
  lemma ElemNext(s: string, pos: nat, that: Node, key: string, objs: seq<Node>,
                 e: nat, o: Node, w: string, objs': seq<Node>, f: nat)
    requires 1 <= pos <= |s| && s[pos - 1] == '{' && |key| < MaxLengthLbl
    requires Load(s, pos - 1, Empty) == Parsed(e, o, Ok)
    requires AllSkip(w) && At(s, e, w + ['{']) && objs' == objs + [o] && f == e + |w| + 1
    ensures f <= |s| && s[f - 1] == '{'
    ensures AddArrStruct(s, pos, that, key, objs) == AddArrStruct(s, f, that, key, objs')
  {
    NextAfter(s, e, w, '{');
  }

  // ----- Facts about the encoder's output -----

  lemma BodyTailNext(n: Node, compact: bool, d: nat, i: nat)
    requires BodyWF(n) && i < |n.children|
    ensures PropWF(n.children[i]) && |n.children[i].children| >= 1
    ensures BodyTail(n, compact, d, i) ==
      Encoded(n.children[i], compact, d + 1) + (Gap(n, compact, i) + BodyTail(n, compact, d, i + 1))
    ensures |BodyTail(n, compact, d, i)| ==
      |Encoded(n.children[i], compact, d + 1)| + |Gap(n, compact, i)| + |BodyTail(n, compact, d, i + 1)|
  {
    var p := n.children[i];
    var e, g, r, t := Encoded(p, compact, d + 1), Gap(n, compact, i),
      EncodedPieces(n, compact, d, i + 1, false), Ind(compact, d) + "}";
    assert EncodedPiece(n, compact, d, i, false) == e + g;
    assert BodyTail(n, compact, d, i) == ((e + g) + r) + t;
    Assoc(e + g, r, t);
    Assoc(e, g, r + t);
  }

  lemma ElemTailNext(p: Node, compact: bool, d: nat, j: nat)
    requires PropWF(p) && IsArrKey(p.lbl.value) && j < |p.children|
    ensures |p.children[j].children| >= 1
    ensures ElemTail(p, compact, d, j) ==
      Encoded(p.children[j], compact, d + 1) + (ElemGap(p, compact, d, j) + ElemTail(p, compact, d, j + 1))
  {
    var el := p.children[j];
    assert ElemWF(el);
    var e, g, r, t := Encoded(el, compact, d + 1), ElemGap(p, compact, d, j),
      EncodedPieces(p, compact, d, j + 1, false), Ind(compact, d) + "]";
    assert EncodedPiece(p, compact, d, j, false) == e + g;
    assert ElemTail(p, compact, d, j) == ((e + g) + r) + t;
    Assoc(e + g, r, t);
    Assoc(e, g, r + t);
  }

  // Concatenation steps over plain strings, kept apart from the encoder's
  // functions so that each costs the solver little.

  lemma Join0(e: string, l: string, o: string, m: string, cl: string, en: string, x: string)
    requires e == (l + o) + m + (cl + en) && en == [] && x == (o + m) + cl
    ensures e == l + x
  {
    assert cl + en == cl;
  }

  lemma Join1(x: string, o: string, m: string, cl: string, c0: char, o': string)
    requires x == (o + m) + cl && o == [c0] + o'
    ensures x == [c0] + (o' + (m + cl))
  {
  }

  lemma Join2(e: string, l: string, o: string, m: string, cl: string, en: string)
    requires e == (l + o) + m + (cl + en) && l == []
    ensures e == ((o + m) + cl) + en
  {
    assert l + o == o;
  }

  /** The key of a property, printed with its indentation. */
  lemma KeyText(p: Node, compact: bool, d: nat)
    requires HasKey(p)
    ensures LabelPart(p, compact, d) == (Ind(compact, d) + "\"") + (StripArr(p.lbl.value) + "\":")
  {
  }

  lemma StructBraces(n: Node, compact: bool, d: nat)
    requires |n.children| >= 1 && Bracketed(n, d) && !ArrObj(n)
    ensures OpenPart(n, compact, d) == ['{'] + Nl(compact)
    ensures ClosePart(n, compact, d) == Ind(compact, d) + "}"
  {
  }

  lemma ArrBraces(n: Node, compact: bool, d: nat)
    requires |n.children| >= 1 && Bracketed(n, d) && ArrObj(n)
    ensures OpenPart(n, compact, d) == ['['] + (Nl(compact) + Ind(compact, d + 1))
    ensures ClosePart(n, compact, d) == Ind(compact, d) + "]"
  {
  }

  lemma Unbracketed(n: Node, compact: bool, d: nat)
    requires |n.children| >= 1 && !Bracketed(n, d)
    ensures OpenPart(n, compact, d) == [] && ClosePart(n, compact, d) == []
  {
  }

  /** A property is printed as its indentation, its quoted key, a colon and
      the text of its value. */
  lemma PropLayout(p: Node, compact: bool, d: nat)
    requires |p.children| >= 1 && HasKey(p) && d >= 1
    ensures Encoded(p, compact, d) ==
      ((Ind(compact, d) + "\"") + (StripArr(p.lbl.value) + "\":")) + ValText(p, compact, d)
  {
    KeyText(p, compact, d);
    Join0(Encoded(p, compact, d), LabelPart(p, compact, d), OpenPart(p, compact, d),
          EncodedPieces(p, compact, d, 0, false), ClosePart(p, compact, d), EndPart(d),
          ValText(p, compact, d));
  }

  lemma ScalarVal(p: Node, compact: bool, d: nat)
    requires d >= 1 && |p.children| == 1 && IsValue(p.children[0])
    ensures ValText(p, compact, d) == ['"'] + (LabelText(p.children[0].lbl) + "\"")
  {
    var v := LabelText(p.children[0].lbl);
    Unbracketed(p, compact, d);
    assert EncodedPieces(p, compact, d, 1, true) == [];
    assert EncodedPiece(p, compact, d, 0, false) == "\"" + v + "\"";
    assert EncodedPieces(p, compact, d, 0, false) == "\"" + v + "\"";
  }

  lemma StringsPieces(p: Node, compact: bool, d: nat)
    requires |p.children| >= 2 && IsValue(p.children[0])
    ensures EncodedPieces(p, compact, d, 0, false) == ['['] + (['"'] + ValueTail(p, compact, d, 0))
  {
    var v := LabelText(p.children[0].lbl);
    var r := EncodedPieces(p, compact, d, 1, true);
    assert EncodedPiece(p, compact, d, 0, false) == "[" + "\"" + v + "\"";
    assert ValueTail(p, compact, d, 0) == v + "\"" + r;
  }

  lemma StringsVal(p: Node, compact: bool, d: nat)
    requires |p.children| >= 2 && IsValue(p.children[0])
    ensures ValText(p, compact, d) == ['['] + (['"'] + ValueTail(p, compact, d, 0))
  {
    StringsPieces(p, compact, d);
    Unbracketed(p, compact, d);
  }

  lemma ObjVal(p: Node, compact: bool, d: nat)
    requires p.lbl.Some? && !IsArrKey(p.lbl.value) && d >= 1
    requires |p.children| >= 1 && !IsValue(p.children[0])
    ensures ValText(p, compact, d) == ['{'] + (Nl(compact) + BodyTail(p, compact, d, 0))
  {
    StructBraces(p, compact, d);
    Join1(ValText(p, compact, d), OpenPart(p, compact, d), EncodedPieces(p, compact, d, 0, false),
          ClosePart(p, compact, d), '{', Nl(compact));
  }

  lemma ArrObjVal(p: Node, compact: bool, d: nat)
    requires HasKey(p) && IsArrKey(p.lbl.value) && d >= 1
    requires |p.children| >= 1 && !IsValue(p.children[0])
    ensures ValText(p, compact, d) ==
      ['['] + ((Nl(compact) + Ind(compact, d + 1)) + ElemTail(p, compact, d, 0))
  {
    ArrBraces(p, compact, d);
    Join1(ValText(p, compact, d), OpenPart(p, compact, d), EncodedPieces(p, compact, d, 0, false),
          ClosePart(p, compact, d), '[', Nl(compact) + Ind(compact, d + 1));
  }

  /** An element of an array of structs is printed as a bare struct. */
  lemma ElemText(e: Node, compact: bool, d: nat)
    requires ElemWF(e) && d >= 1
    ensures BodyWF(e)
    ensures Encoded(e, compact, d) == ['{'] + (Nl(compact) + BodyTail(e, compact, d, 0))
  {
    assert PropWF(e.children[0]);
    StructBraces(e, compact, d);
    var x, o, m, cl := Encoded(e, compact, d), OpenPart(e, compact, d),
      EncodedPieces(e, compact, d, 0, false), ClosePart(e, compact, d);
    Join2(x, LabelPart(e, compact, d), o, m, cl, EndPart(d));
    assert x == (o + m) + cl;
    Join1(x, o, m, cl, '{', Nl(compact));
  }

  /** A document of properties is printed in braces and ends with a new line. */
  lemma DocText(t: Node, compact: bool)
    requires DocWF(t) && !Escaped(t)
    ensures BodyWF(t)
    ensures Encoded(t, compact, 0) == (['{'] + (Nl(compact) + BodyTail(t, compact, 0, 0))) + "\n"
  {
    assert PropWF(t.children[0]);
    StructBraces(t, compact, 0);
    var x, o, m, cl := Encoded(t, compact, 0), OpenPart(t, compact, 0),
      EncodedPieces(t, compact, 0, 0, false), ClosePart(t, compact, 0);
    Join2(x, LabelPart(t, compact, 0), o, m, cl, EndPart(0));
    Join1((o + m) + cl, o, m, cl, '{', Nl(compact));
  }

  /** The escaped document: the array of strings without the root's braces. */
  lemma DocEscText(t: Node, compact: bool)
    requires DocWF(t) && Escaped(t)
    ensures Encoded(t, compact, 0) ==
      (['['] + (['"'] + ValueTail(t.children[0], compact, 1, 0))) + (Nl(compact) + "\n")
  {
    var ch := t.children[0];
    var a := EncodedPieces(ch, compact, 1, 0, false);
    StringsPieces(ch, compact, 1);
    EscInner(ch, compact);
    EscOuter(t, compact);
  }

  lemma EscInner(ch: Node, compact: bool)
    requires |ch.children| >= 2 && IsValue(ch.children[0]) && LabelText(ch.lbl) == ""
    ensures Encoded(ch, compact, 1) == EncodedPieces(ch, compact, 1, 0, false)
  {
    Unbracketed(ch, compact, 1);
    var x, o, m, cl := Encoded(ch, compact, 1), OpenPart(ch, compact, 1),
      EncodedPieces(ch, compact, 1, 0, false), ClosePart(ch, compact, 1);
    Join2(x, LabelPart(ch, compact, 1), o, m, cl, EndPart(1));
    assert o + m == m && m + cl == m;
  }

  lemma EscOuter(t: Node, compact: bool)
    requires DocWF(t) && Escaped(t)
    ensures Encoded(t, compact, 0) == Encoded(t.children[0], compact, 1) + (Nl(compact) + "\n")
  {
    var ch := t.children[0];
    Unbracketed(t, compact, 0);
    var x, o, m, cl := Encoded(t, compact, 0), OpenPart(t, compact, 0),
      EncodedPieces(t, compact, 0, 0, false), ClosePart(t, compact, 0);
    Join2(x, LabelPart(t, compact, 0), o, m, cl, EndPart(0));
    assert EncodedPiece(t, compact, 0, 0, false) == Encoded(ch, compact, 1) + Nl(compact);
    assert EncodedPieces(t, compact, 0, 1, false) == [];
    assert m == Encoded(ch, compact, 1) + Nl(compact);
    assert o + m == m && m + cl == m;
  }
  // ----- Where the decoder finds each part -----

  /** The key's opening quote of a property printed at 'q' ends the text
      'w' before it. */
  lemma KeyQuote(s: string, pos: nat, w: string, p: Node, compact: bool, d: nat, q: nat)
    requires At(s, pos, w) && q == pos + |w| && |p.children| >= 1 && HasKey(p) && d >= 1
    requires At(s, q, Encoded(p, compact, d))
    ensures At(s, pos, (w + Ind(compact, d)) + ['"'])
  {
    PropLayout(p, compact, d);
    KeyStart(s, q, Encoded(p, compact, d), Ind(compact, d), StripArr(p.lbl.value), ValText(p, compact, d));
    AtJoin(s, pos, w, Ind(compact, d) + ['"']);
    assert (w + Ind(compact, d)) + ['"'] == w + (Ind(compact, d) + ['"']);
  }

  /** Where property 'i' of a struct body starts ('q'), where its key
      starts ('k') and where it ends ('e'). */
  lemma BodyStepText(s: string, pos: nat, w: string, n: Node, compact: bool, d: nat, i: nat, end: nat)
      returns (q: nat, k: nat, e: nat)
    requires BodyWF(n) && i < |n.children| && BodyAt(s, pos, w, n, compact, d, i, end)
    ensures PropWF(n.children[i]) && Printed(s, q, n.children[i], compact, d + 1, e) && e <= |s|
    ensures k == q + |Ind(compact, d + 1)| + 1 && k == pos + |w + Ind(compact, d + 1)| + 1
    ensures At(s, pos, (w + Ind(compact, d + 1)) + ['"'])
    ensures BodyAt(s, e, Gap(n, compact, i), n, compact, d, i + 1, end)
  {
    q, e := BodyTailAt(s, pos, w, n, compact, d, i, end);
    k := q + |Ind(compact, d + 1)| + 1;
    KeyQuote(s, pos, w, n.children[i], compact, d + 1, q);
  }

  /** The text from property 'i' of a struct on is that property, from 'q'
      to 'e', and the rest. */
  lemma BodyTailAt(s: string, pos: nat, w: string, n: Node, compact: bool, d: nat, i: nat, end: nat)
      returns (q: nat, e: nat)
    requires BodyWF(n) && i < |n.children| && BodyAt(s, pos, w, n, compact, d, i, end)
    ensures q == pos + |w| && At(s, pos, w) && At(s, q, Encoded(n.children[i], compact, d + 1))
    ensures PropWF(n.children[i]) && Printed(s, q, n.children[i], compact, d + 1, e) && e <= |s|
    ensures BodyAt(s, e, Gap(n, compact, i), n, compact, d, i + 1, end)
  {
    var x := Encoded(n.children[i], compact, d + 1);
    q := pos + |w|;
    e := q + |x|;
    AtSplit(s, pos, w, BodyTail(n, compact, d, i));
    BodyTailNext(n, compact, d, i);
    AtParts(s, q, BodyTail(n, compact, d, i), x, Gap(n, compact, i) + BodyTail(n, compact, d, i + 1));
  }

  lemma BodyEndText(s: string, pos: nat, w: string, n: Node, compact: bool, d: nat, end: nat)
    requires BodyAt(s, pos, w, n, compact, d, |n.children|, end)
    ensures At(s, pos, (w + Ind(compact, d)) + ['}'])
    ensures end == pos + |w + Ind(compact, d)| + 1
  {
    assert BodyTail(n, compact, d, |n.children|) == Ind(compact, d) + "}";
    assert w + (Ind(compact, d) + "}") == (w + Ind(compact, d)) + ['}'];
  }

  /** Element 'j' of an array of structs starts with its opening brace. */
  lemma ElemStart(s: string, q: nat, p: Node, compact: bool, d: nat, j: nat)
    requires PropWF(p) && IsArrKey(p.lbl.value) && j < |p.children|
    requires At(s, q, ElemTail(p, compact, d, j))
    ensures At(s, q, ['{'])
  {
    ElemTailHead(p, compact, d, j);
    AtChar(s, q, ElemTail(p, compact, d, j), 0);
  }

  lemma ElemTailHead(p: Node, compact: bool, d: nat, j: nat)
    requires PropWF(p) && IsArrKey(p.lbl.value) && j < |p.children|
    ensures |ElemTail(p, compact, d, j)| >= 1 && ElemTail(p, compact, d, j)[0] == '{'
  {
    var el := p.children[j];
    ElemTailNext(p, compact, d, j);
    ElemText(el, compact, d + 1);
    var x, y := Encoded(el, compact, d + 1), ElemGap(p, compact, d, j) + ElemTail(p, compact, d, j + 1);
    assert (x + y)[0] == x[0];
  }

  lemma ElemStepText(s: string, q: nat, p: Node, compact: bool, d: nat, j: nat, end: nat) returns (e: nat)
    requires PropWF(p) && IsArrKey(p.lbl.value) && j < |p.children|
    requires ElemsAt(s, q, p, compact, d, j, end)
    ensures ElemWF(p.children[j]) && Printed(s, q, p.children[j], compact, d + 1, e)
    ensures GapAt(s, e, p, compact, d, j, end)
  {
    e := q + |Encoded(p.children[j], compact, d + 1)|;
    ElemTailNext(p, compact, d, j);
    AtParts(s, q, ElemTail(p, compact, d, j), Encoded(p.children[j], compact, d + 1),
            ElemGap(p, compact, d, j) + ElemTail(p, compact, d, j + 1));
  }

  lemma ElemLastText(s: string, e: nat, p: Node, compact: bool, d: nat, j: nat, end: nat)
    requires |p.children| >= 1 && j == |p.children| - 1
    requires GapAt(s, e, p, compact, d, j, end)
    ensures At(s, e, (ElemGap(p, compact, d, j) + Ind(compact, d)) + [']'])
    ensures end == e + |ElemGap(p, compact, d, j) + Ind(compact, d)| + 1
  {
    var g := ElemGap(p, compact, d, j);
    assert ElemTail(p, compact, d, j + 1) == Ind(compact, d) + "]";
    assert g + (Ind(compact, d) + "]") == (g + Ind(compact, d)) + [']'];
  }

  lemma ElemNextText(s: string, e: nat, p: Node, compact: bool, d: nat, j: nat, end: nat)
    requires PropWF(p) && IsArrKey(p.lbl.value) && j < |p.children| - 1
    requires GapAt(s, e, p, compact, d, j, end)
    ensures At(s, e, ElemGap(p, compact, d, j) + ['{'])
    ensures ElemsAt(s, e + |ElemGap(p, compact, d, j)|, p, compact, d, j + 1, end)
  {
    ElemTailHead(p, compact, d, j + 1);
    AtFirst(s, e, ElemGap(p, compact, d, j), ElemTail(p, compact, d, j + 1), '{');
  }

  /** The opening of an array of structs, up to the first element's text. */
  lemma ArrOpenText(s: string, r: nat, p: Node, compact: bool, d: nat, e: nat)
    requires PropWF(p) && IsArrKey(p.lbl.value)
    requires At(s, r, (Nl(compact) + Ind(compact, d + 1)) + ElemTail(p, compact, d, 0))
    requires e == r + |Nl(compact) + Ind(compact, d + 1)| + |ElemTail(p, compact, d, 0)|
    ensures At(s, r, (Nl(compact) + Ind(compact, d + 1)) + ['{'])
    ensures ElemsAt(s, r + |Nl(compact) + Ind(compact, d + 1)|, p, compact, d, 0, e)
  {
    ElemTailHead(p, compact, d, 0);
    AtFirst(s, r, Nl(compact) + Ind(compact, d + 1), ElemTail(p, compact, d, 0), '{');
  }

  // ----- Reading back trees -----
  // Each lemma below combines facts about the text, proved above, with
  // single steps of the decoder, proved in lemmas of their own.

  /** JSONLoadStruct reads back the properties of a struct body from 'i'
      on, appending each one, rebuilt, to 'that'. */
  lemma {:induction false} ReadBody(s: string, pos: nat, w: string, n: Node, compact: bool, d: nat,
                                    i: nat, that: Node, end: nat)
    requires BodyWF(n) && i <= |n.children| && AllSkip(w)
    requires BodyAt(s, pos, w, n, compact, d, i, end) && that.children == NormProps(n, i)
    ensures LoadStruct(s, pos, that) == Parsed(end, Node(that.lbl, NormProps(n, |n.children|)), Ok)
    decreases n, 1, |n.children| - i, 2
  {
    if i == |n.children| {
      BodyEnd(s, pos, w, n, compact, d, that, end);
    } else {
      var e, that' := BodyStep(s, pos, w, n, compact, d, i, that, end);
      ReadBody(s, e, Gap(n, compact, i), n, compact, d, i + 1, that', end);
    }
  }

  /** JSONLoadStruct at the closing brace of a struct body. */
  lemma BodyEnd(s: string, pos: nat, w: string, n: Node, compact: bool, d: nat, that: Node, end: nat)
    requires AllSkip(w) && BodyAt(s, pos, w, n, compact, d, |n.children|, end)
    requires that.children == NormProps(n, |n.children|)
    ensures LoadStruct(s, pos, that) == Parsed(end, Node(that.lbl, NormProps(n, |n.children|)), Ok)
  {
    BodyEndText(s, pos, w, n, compact, d, end);
    SkipJoin(w, Ind(compact, d));
    StructEnd(s, pos, w + Ind(compact, d), that, end);
  }

  /** JSONLoadStruct reading property 'i' of a struct body. */
  lemma {:induction false} BodyStep(s: string, pos: nat, w: string, n: Node, compact: bool, d: nat,
                                    i: nat, that: Node, end: nat) returns (e: nat, that': Node)
    requires BodyWF(n) && i < |n.children| && AllSkip(w)
    requires BodyAt(s, pos, w, n, compact, d, i, end) && that.children == NormProps(n, i)
    ensures e <= |s| && LoadStruct(s, pos, that) == LoadStruct(s, e, that')
    ensures that'.lbl == that.lbl && that'.children == NormProps(n, i + 1)
    ensures BodyAt(s, e, Gap(n, compact, i), n, compact, d, i + 1, end)
    decreases n, 1, |n.children| - i, 1
  {
    var q, k;
    q, k, e := BodyStepText(s, pos, w, n, compact, d, i, end);
    SkipJoin(w, Ind(compact, d + 1));
    PropInStruct(s, pos, w + Ind(compact, d + 1), q, k, e, n.children[i], compact, d + 1, that);
    that' := Append(that, NormProp(n.children[i]));
    NormPropsNext(n, i, that);
  }

  lemma NormPropsNext(n: Node, i: nat, that: Node)
    requires i < |n.children| && that.children == NormProps(n, i)
    ensures Append(that, NormProp(n.children[i])).children == NormProps(n, i + 1)
  {
  }

  /** JSONLoadStruct reading property 'p', printed from 'q' to 'e', whose
      key's opening quote ends the skipped text 'w' at 'k' - 1. */
  lemma {:induction false} PropInStruct(s: string, pos: nat, w: string, q: nat, k: nat, e: nat,
                                        p: Node, compact: bool, d: nat, that: Node)
    requires AllSkip(w) && At(s, pos, w + ['"']) && k == pos + |w| + 1
    requires PropWF(p) && d >= 1 && Printed(s, q, p, compact, d, e) && k == q + |Ind(compact, d)| + 1
    ensures LoadStruct(s, pos, that) == LoadStruct(s, e, Append(that, NormProp(p)))
    decreases p, 4
  {
    ReadProp(s, q, k, p, compact, d, that, e);
    StructNext(s, pos, w, k, that, e, Append(that, NormProp(p)));
  }

  /** JSONLoadProp reads back a property printed at depth 'd' >= 1, 'k'
      being the position after the key's opening quote. */
  lemma {:induction false} ReadProp(s: string, q: nat, k: nat, p: Node, compact: bool, d: nat, that: Node, e: nat)
    requires PropWF(p) && d >= 1 && Printed(s, q, p, compact, d, e) && k == q + |Ind(compact, d)| + 1
    ensures LoadProp(s, k, that) == Parsed(e, Append(that, NormProp(p)), Ok)
    decreases p, 3
  {
    if IsArrKey(p.lbl.value) {
      ReadArrObjProp(s, q, k, p, compact, d, that, e);
    } else if !IsValue(p.children[0]) {
      ReadObjProp(s, q, k, p, compact, d, that, e);
    } else {
      assert !PropWF(p.children[0]);
      if |p.children| == 1 {
        ReadScalarProp(s, q, k, p, compact, d, that, e);
      } else {
        ReadStringsProp(s, q, k, p, compact, d, that, e);
      }
    }
  }

  /** A property holding one string. */
  lemma ReadScalarProp(s: string, q: nat, k: nat, p: Node, compact: bool, d: nat, that: Node, e: nat)
    requires PropWF(p) && d >= 1 && Printed(s, q, p, compact, d, e) && k == q + |Ind(compact, d)| + 1
    requires !IsArrKey(p.lbl.value) && |p.children| == 1 && ValueOK(p.children[0])
    ensures LoadProp(s, k, that) == Parsed(e, Append(that, NormProp(p)), Ok)
  {
    var key, v := p.lbl.value, LabelText(p.children[0].lbl);
    var r := k + |key| + 3;
    ScalarText(s, q, k, r, e, p, compact, d);
    PropStr(s, k, that, key, v, r, e);
    ScalarNorm(p, that, key, v);
  }

  lemma ScalarText(s: string, q: nat, k: nat, r: nat, e: nat, p: Node, compact: bool, d: nat)
    requires p.lbl.Some? && |p.lbl.value| > 0 && !IsArrKey(p.lbl.value) && d >= 1
    requires |p.children| == 1 && IsValue(p.children[0])
    requires Printed(s, q, p, compact, d, e) && k == q + |Ind(compact, d)| + 1
    requires r == k + |p.lbl.value| + 3
    ensures At(s, k, (p.lbl.value + "\"") + ([':'] + ['"']))
    ensures At(s, r, LabelText(p.children[0].lbl) + "\"")
    ensures e == r + |LabelText(p.children[0].lbl)| + 1
  {
    var key := p.lbl.value;
    PropLayout(p, compact, d);
    ScalarVal(p, compact, d);
    assert StripArr(key) == key;
    KeyAt(s, q, Encoded(p, compact, d), Ind(compact, d), key, '"', LabelText(p.children[0].lbl) + "\"", k, r);
  }

  lemma ScalarNorm(p: Node, that: Node, key: string, v: string)
    requires p.lbl == Some(key) && !IsArrKey(key) && |p.children| == 1 && IsValue(p.children[0])
    requires v == LabelText(p.children[0].lbl)
    ensures AddPropStr(that, key, v) == Append(that, NormProp(p))
  {
    assert NormProp(p) == Node(Some(key), [Node(Some(v), [])]);
  }

  /** A property holding an array of at least two strings. */
  lemma ReadStringsProp(s: string, q: nat, k: nat, p: Node, compact: bool, d: nat, that: Node, e: nat)
    requires PropWF(p) && d >= 1 && Printed(s, q, p, compact, d, e) && k == q + |Ind(compact, d)| + 1
    requires !IsArrKey(p.lbl.value) && |p.children| >= 2
    requires forall j :: 0 <= j < |p.children| ==> ValueOK(p.children[j])
    ensures LoadProp(s, k, that) == Parsed(e, Append(that, NormProp(p)), Ok)
  {
    var key := p.lbl.value;
    var r := k + |key| + 3;
    assert ValueOK(p.children[0]);
    StringsText(s, q, k, r, e, p, compact, d);
    StringsRead(s, k, r, that, key, p, compact, d, e);
  }

  lemma StringsText(s: string, q: nat, k: nat, r: nat, e: nat, p: Node, compact: bool, d: nat)
    requires p.lbl.Some? && |p.lbl.value| > 0 && !IsArrKey(p.lbl.value) && d >= 1
    requires |p.children| >= 2 && IsValue(p.children[0])
    requires Printed(s, q, p, compact, d, e) && k == q + |Ind(compact, d)| + 1
    requires r == k + |p.lbl.value| + 3
    ensures At(s, k, (p.lbl.value + "\"") + ([':'] + ['[']))
    ensures At(s, r, ['"']) && At(s, r + 1, ValueTail(p, compact, d, 0))
    ensures e == r + 1 + |ValueTail(p, compact, d, 0)|
  {
    var key, t := p.lbl.value, ValueTail(p, compact, d, 0);
    PropLayout(p, compact, d);
    StringsVal(p, compact, d);
    assert StripArr(key) == key;
    KeyAt(s, q, Encoded(p, compact, d), Ind(compact, d), key, '[', ['"'] + t, k, r);
    AtCons(s, r, '"', t, r + 1);
  }

  lemma StringsRead(s: string, k: nat, r: nat, that: Node, key: string, p: Node, compact: bool, d: nat, e: nat)
    requires TextOK(key) && p.lbl == Some(key) && !IsArrKey(key) && |p.children| >= 2
    requires forall j :: 0 <= j < |p.children| ==> ValueOK(p.children[j])
    requires At(s, k, (key + "\"") + ([':'] + ['['])) && r == k + |key| + 3
    requires At(s, r, ['"']) && At(s, r + 1, ValueTail(p, compact, d, 0))
    requires e == r + 1 + |ValueTail(p, compact, d, 0)|
    ensures LoadProp(s, k, that) == Parsed(e, Append(that, NormProp(p)), Ok)
  {
    ArrStrings(s, r, that, key, r + 1);
    ReadValues(s, r + 1, p, compact, d, that, key);
    assert NormProp(p) == Node(Some(key), NormValues(p.children));
    PropArr(s, k, that, key, r, e, Append(that, NormProp(p)));
  }

  /** A property holding a struct. */
  lemma {:induction false} ReadObjProp(s: string, q: nat, k: nat, p: Node, compact: bool, d: nat, that: Node, e: nat)
    requires PropWF(p) && d >= 1 && Printed(s, q, p, compact, d, e) && k == q + |Ind(compact, d)| + 1
    requires !IsArrKey(p.lbl.value) && !IsValue(p.children[0])
    ensures LoadProp(s, k, that) == Parsed(e, Append(that, NormProp(p)), Ok)
    decreases p, 2
  {
    var key := p.lbl.value;
    var r := k + |key| + 3;
    assert !ValueOK(p.children[0]);
    assert BodyWF(p);
    ObjText(s, q, k, r, e, p, compact, d);
    ReadBody(s, r, Nl(compact), p, compact, d, 0, Node(Some(key), []), e);
    ObjNorm(p, key);
    PropObj(s, k, that, key, r, e, NormProp(p));
  }

  lemma ObjText(s: string, q: nat, k: nat, r: nat, e: nat, p: Node, compact: bool, d: nat)
    requires p.lbl.Some? && |p.lbl.value| > 0 && !IsArrKey(p.lbl.value) && d >= 1
    requires |p.children| >= 1 && !IsValue(p.children[0])
    requires Printed(s, q, p, compact, d, e) && k == q + |Ind(compact, d)| + 1
    requires r == k + |p.lbl.value| + 3
    ensures At(s, k, (p.lbl.value + "\"") + ([':'] + ['{']))
    ensures BodyAt(s, r, Nl(compact), p, compact, d, 0, e)
  {
    var key := p.lbl.value;
    PropLayout(p, compact, d);
    ObjVal(p, compact, d);
    assert StripArr(key) == key;
    KeyAt(s, q, Encoded(p, compact, d), Ind(compact, d), key, '{', Nl(compact) + BodyTail(p, compact, d, 0), k, r);
  }

  lemma ObjNorm(p: Node, key: string)
    requires p.lbl == Some(key) && !IsArrKey(key) && |p.children| >= 1 && !IsValue(p.children[0])
    ensures NormProp(p) == Node(Some(key), NormProps(p, |p.children|))
  {
  }

  /** A property holding an array of structs. */
  lemma {:induction false} ReadArrObjProp(s: string, q: nat, k: nat, p: Node, compact: bool, d: nat, that: Node, e: nat)
    requires PropWF(p) && d >= 1 && Printed(s, q, p, compact, d, e) && k == q + |Ind(compact, d)| + 1
    requires IsArrKey(p.lbl.value)
    ensures LoadProp(s, k, that) == Parsed(e, Append(that, NormProp(p)), Ok)
    decreases p, 2
  {
    var key := StripArr(p.lbl.value);
    var r := k + |key| + 3;
    assert ElemWF(p.children[0]);
    ArrObjText(s, q, k, r, e, p, compact, d);
    ArrOpenText(s, r, p, compact, d, e);
    ArrObjRead(s, k, r, that, key, p, compact, d, e);
  }

  lemma ArrObjText(s: string, q: nat, k: nat, r: nat, e: nat, p: Node, compact: bool, d: nat)
    requires HasKey(p) && IsArrKey(p.lbl.value) && d >= 1
    requires |p.children| >= 1 && !IsValue(p.children[0])
    requires Printed(s, q, p, compact, d, e) && k == q + |Ind(compact, d)| + 1
    requires r == k + |StripArr(p.lbl.value)| + 3
    ensures At(s, k, (StripArr(p.lbl.value) + "\"") + ([':'] + ['[']))
    ensures At(s, r, (Nl(compact) + Ind(compact, d + 1)) + ElemTail(p, compact, d, 0))
    ensures e == r + |Nl(compact) + Ind(compact, d + 1)| + |ElemTail(p, compact, d, 0)|
  {
    var w := Nl(compact) + Ind(compact, d + 1);
    PropLayout(p, compact, d);
    ArrObjVal(p, compact, d);
    KeyAt(s, q, Encoded(p, compact, d), Ind(compact, d), StripArr(p.lbl.value), '[',
          w + ElemTail(p, compact, d, 0), k, r);
  }

  lemma {:induction false} ArrObjRead(s: string, k: nat, r: nat, that: Node, key: string, p: Node,
                                      compact: bool, d: nat, e: nat)
    requires PropWF(p) && IsArrKey(p.lbl.value) && key == StripArr(p.lbl.value) && TextOK(key)
    requires At(s, k, (key + "\"") + ([':'] + ['['])) && r == k + |key| + 3
    requires At(s, r, (Nl(compact) + Ind(compact, d + 1)) + ['{'])
    requires ElemsAt(s, r + |Nl(compact) + Ind(compact, d + 1)|, p, compact, d, 0, e)
    ensures LoadProp(s, k, that) == Parsed(e, Append(that, NormProp(p)), Ok)
    decreases p, 1, |p.children| + 1
  {
    var w := Nl(compact) + Ind(compact, d + 1);
    var f := r + |w| + 1;
    SkipJoin(Nl(compact), Ind(compact, d + 1));
    ArrStructs(s, r, w, that, key, f);
    ReadElems(s, f, p, compact, d, 0, that, key, [], e);
    ArrObjNorm(p, key);
    PropArr(s, k, that, key, r, e, Append(that, NormProp(p)));
  }

  lemma ArrObjNorm(p: Node, key: string)
    requires p.lbl.Some? && IsArrKey(p.lbl.value) && key == StripArr(p.lbl.value) && |p.children| >= 1
    ensures ArrObjProp(key, NormElems(p, |p.children|)) == NormProp(p)
  {
    assert |NormElems(p, |p.children|)| >= 1;
  }

  /** JSONAddArrStruct reads back the elements of an array of structs from
      'j' on, 'pos' being just after the '{' of element 'j'. */
  lemma {:induction false} ReadElems(s: string, pos: nat, p: Node, compact: bool, d: nat, j: nat,
                                     that: Node, key: string, objs: seq<Node>, end: nat)
    requires PropWF(p) && IsArrKey(p.lbl.value) && key == StripArr(p.lbl.value) && j < |p.children|
    requires 1 <= pos <= |s| && s[pos - 1] == '{'
    requires ElemsAt(s, pos - 1, p, compact, d, j, end) && objs == NormElems(p, j)
    ensures AddArrStruct(s, pos, that, key, objs) ==
      Parsed(end, Append(that, ArrObjProp(key, NormElems(p, |p.children|))), Ok)
    decreases p, 1, |p.children| - j, 2
  {
    if j == |p.children| - 1 {
      ElemLastRead(s, pos, p, compact, d, j, that, key, objs, end);
    } else {
      var f, objs' := ElemStep(s, pos, p, compact, d, j, that, key, objs, end);
      ReadElems(s, f, p, compact, d, j + 1, that, key, objs', end);
    }
  }

  /** JSONAddArrStruct reading element 'j', which is followed by another. */
  lemma {:induction false} ElemStep(s: string, pos: nat, p: Node, compact: bool, d: nat, j: nat,
                                    that: Node, key: string, objs: seq<Node>, end: nat)
      returns (f: nat, objs': seq<Node>)
    requires PropWF(p) && IsArrKey(p.lbl.value) && key == StripArr(p.lbl.value) && j < |p.children| - 1
    requires 1 <= pos <= |s| && s[pos - 1] == '{'
    requires ElemsAt(s, pos - 1, p, compact, d, j, end) && objs == NormElems(p, j)
    ensures 1 <= f <= |s| && s[f - 1] == '{' && objs' == NormElems(p, j + 1)
    ensures AddArrStruct(s, pos, that, key, objs) == AddArrStruct(s, f, that, key, objs')
    ensures ElemsAt(s, f - 1, p, compact, d, j + 1, end)
    decreases p, 1, |p.children| - j, 1
  {
    var e := ElemRead(s, pos, p, compact, d, j, end);
    objs' := objs + [NormElem(p.children[j])];
    var g := ElemGap(p, compact, d, j);
    ElemNextText(s, e, p, compact, d, j, end);
    f := e + |g| + 1;
    ElemNext(s, pos, that, key, objs, e, NormElem(p.children[j]), g, objs', f);
  }

  /** JSONAddArrStruct reading the last element and the closing bracket. */
  lemma {:induction false} ElemLastRead(s: string, pos: nat, p: Node, compact: bool, d: nat, j: nat,
                                        that: Node, key: string, objs: seq<Node>, end: nat)
    requires PropWF(p) && IsArrKey(p.lbl.value) && key == StripArr(p.lbl.value) && j == |p.children| - 1
    requires 1 <= pos <= |s| && s[pos - 1] == '{'
    requires ElemsAt(s, pos - 1, p, compact, d, j, end) && objs == NormElems(p, j)
    ensures AddArrStruct(s, pos, that, key, objs) ==
      Parsed(end, Append(that, ArrObjProp(key, NormElems(p, |p.children|))), Ok)
    decreases p, 1, |p.children| - j, 1
  {
    var e := ElemRead(s, pos, p, compact, d, j, end);
    var g := ElemGap(p, compact, d, j);
    ElemLastText(s, e, p, compact, d, j, end);
    SkipJoin(g, Ind(compact, d));
    NormElemsNext(p, j, objs);
    assert |key| < MaxLengthLbl;
    ElemLast(s, pos, that, key, objs, e, NormElem(p.children[j]), g + Ind(compact, d),
             NormElems(p, |p.children|), end);
  }

  lemma NormElemsNext(p: Node, j: nat, objs: seq<Node>)
    requires j < |p.children| && objs == NormElems(p, j)
    ensures NormElems(p, j + 1) == objs + [NormElem(p.children[j])]
  {
  }

  /** JSONLoad, called by JSONAddArrStruct after its rewind, reads element 'j'. */
  lemma {:induction false} ElemRead(s: string, pos: nat, p: Node, compact: bool, d: nat, j: nat, end: nat)
      returns (e: nat)
    requires PropWF(p) && IsArrKey(p.lbl.value) && j < |p.children|
    requires 1 <= pos && ElemsAt(s, pos - 1, p, compact, d, j, end)
    ensures Load(s, pos - 1, Empty) == Parsed(e, NormElem(p.children[j]), Ok)
    ensures GapAt(s, e, p, compact, d, j, end)
    decreases p, 1, |p.children| - j, 0
  {
    e := ElemStepText(s, pos - 1, p, compact, d, j, end);
    ReadElem(s, pos - 1, p.children[j], compact, d + 1, e);
  }

  /** JSONLoad reads back an element of an array of structs as a fresh node. */
  lemma {:induction false} ReadElem(s: string, q: nat, el: Node, compact: bool, d: nat, e: nat)
    requires ElemWF(el) && d >= 1 && Printed(s, q, el, compact, d, e)
    ensures Load(s, q, Empty) == Parsed(e, NormElem(el), Ok)
    decreases el, 2
  {
    ElemOpenText(s, q, el, compact, d, e);
    LoadAtBrace(s, q, Empty, q + 1);
    assert Empty.children == NormProps(el, 0);
    ReadBody(s, q + 1, Nl(compact), el, compact, d, 0, Empty, e);
    assert Node(Empty.lbl, NormProps(el, |el.children|)) == NormElem(el);
  }

  lemma ElemOpenText(s: string, q: nat, el: Node, compact: bool, d: nat, e: nat)
    requires ElemWF(el) && d >= 1 && Printed(s, q, el, compact, d, e)
    ensures BodyWF(el) && q < |s| && s[q] == '{'
    ensures BodyAt(s, q + 1, Nl(compact), el, compact, d, 0, e)
  {
    ElemText(el, compact, d);
    AtParts(s, q, Encoded(el, compact, d), ['{'], Nl(compact) + BodyTail(el, compact, d, 0));
    AtChar(s, q, ['{'], 0);
  }

  // ----- The round trip -----

  /** JSONLoad reads back what JSONSave writes for a document it can read:
      it succeeds, rebuilds the document up to the normalisation of labels,
      and stops before the final new line(s), which are skipped characters. */
  lemma RoundTrip(t: Node, compact: bool)
    requires DocWF(t)
    ensures var s := Encoded(t, compact, 0);
      var r := Load(s, 0, Empty);
      r.status == Ok && r.that == NormDoc(t) && r.pos <= |s| && AllSkip(s[r.pos..])
  {
    var s := Encoded(t, compact, 0);
    var e;
    if Escaped(t) {
      e := EscRoundTrip(s, t, compact);
    } else {
      e := StructRoundTrip(s, t, compact);
    }
  }

  /** The document of properties: one struct followed by a new line. */
  lemma StructRoundTrip(s: string, t: Node, compact: bool) returns (e: nat)
    requires DocWF(t) && !Escaped(t) && s == Encoded(t, compact, 0)
    ensures e <= |s| && Load(s, 0, Empty) == Parsed(e, NormDoc(t), Ok) && AllSkip(s[e..])
  {
    var x := Nl(compact) + BodyTail(t, compact, 0, 0);
    DocText(t, compact);
    OpensWith(s, '{', x, "\n");
    LoadAtBrace(s, 0, Empty, 1);
    e := 1 + |x|;
    ReadBody(s, 1, Nl(compact), t, compact, 0, 0, Empty, e);
  }

  /** The escaped document: one array of strings followed by new lines. */
  lemma EscRoundTrip(s: string, t: Node, compact: bool) returns (e: nat)
    requires DocWF(t) && Escaped(t) && s == Encoded(t, compact, 0)
    ensures e <= |s| && Load(s, 0, Empty) == Parsed(e, NormDoc(t), Ok) && AllSkip(s[e..])
  {
    var ch := t.children[0];
    var v := ValueTail(ch, compact, 1, 0);
    DocEscText(t, compact);
    SkipJoin(Nl(compact), "\n");
    OpensWith(s, '[', ['"'] + v, Nl(compact) + "\n");
    AtParts(s, 1, ['"'] + v, ['"'], v);
    LoadAtBracket(s, 0, Empty, 1);
    ArrStrings(s, 1, Empty, "", 2);
    ReadValues(s, 2, ch, compact, 1, Empty, "");
    e := 2 + |v|;
    assert Append(Empty, Node(Some(""), NormValues(ch.children))) == NormDoc(t);
  }

  lemma LoadAtBracket(s: string, pos: nat, that: Node, q: nat)
    requires pos < |s| && s[pos] == '[' && q == pos + 1
    ensures Load(s, pos, that) == LoadArr(s, q, that, "")
  {
    assert At(s, pos, "" + ['[']);
    NextAfter(s, pos, "", '[');
  }
}
