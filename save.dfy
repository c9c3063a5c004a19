/** The encoder: JSONSave and its recursive worker JSONSaveRec, writing a
    tree as JSON text in compact or pretty form. */
module JsonSave {
  import opened Outcomes
  import opened JsonTree

  /** The text of a label, a null label reading as the empty string. */
  function LabelText(l: Option<string>): string {
    if l.Some? then l.value else ""
  }

  /** What JSONIndent writes: PBJSON_INDENT repeated 'depth' times. */
  function IndentText(depth: nat): (r: string)
    ensures |r| == 2 * depth
    ensures forall i {:trigger CharOf(r, i)} :: 0 <= i < |r| ==> CharOf(r, i) == ' '
  {
    if depth == 0 then ""
    else
      var t := IndentText(depth - 1);
      assert forall i {:trigger CharOf(IndentUnit + t, i)} :: 2 <= i < |IndentUnit + t| ==>
        CharOf(IndentUnit + t, i) == CharOf(t, i - 2);
      IndentUnit + t
  }

  /** The node has a non-null, non-empty label, which is printed as a key. */
  predicate HasKey(n: Node) {
    n.lbl.Some? && |n.lbl.value| > 0
  }

  /** The node is the key of an array of objects (flagArrObj). */
  predicate ArrObj(n: Node) {
    HasKey(n) && IsArrKey(n.lbl.value)
  }

  /** flagEscapeBracket: at depth 0, a single child with a null or empty
      label is printed without the enclosing brackets. */
  predicate EscapeBracket(n: Node, depth: nat)
    requires |n.children| >= 1
  {
    depth == 0 && |n.children| == 1 && LabelText(n.children[0].lbl) == ""
  }

  /** The wrapping brackets are printed: the first child is not a value and
      the brackets are not elided. */
  predicate Bracketed(n: Node, depth: nat)
    requires |n.children| >= 1
  {
    !IsValue(n.children[0]) && !EscapeBracket(n, depth)
  }

  function LabelPart(n: Node, compact: bool, depth: nat): string {
    if HasKey(n) then
      (if compact then "" else IndentText(depth)) + "\"" + StripArr(n.lbl.value) + "\":"
    else ""
  }

  function OpenPart(n: Node, compact: bool, depth: nat): string
    requires |n.children| >= 1
  {
    if Bracketed(n, depth) then
      (if ArrObj(n) then "[" else "{") + (if compact then "" else "\n") +
      (if !compact && ArrObj(n) then IndentText(depth + 1) else "")
    else ""
  }

  function ClosePart(n: Node, compact: bool, depth: nat): string
    requires |n.children| >= 1
  {
    if Bracketed(n, depth) then
      (if compact then "" else IndentText(depth)) + (if ArrObj(n) then "]" else "}")
    else ""
  }

  function EndPart(depth: nat): string {
    if depth == 0 then "\n" else ""
  }

  /** The text JSONSaveRec writes for 'n' at 'depth'. */
  function Encoded(n: Node, compact: bool, depth: nat): string
    requires |n.children| >= 1
    decreases n, 2
  {
    (LabelPart(n, compact, depth) + OpenPart(n, compact, depth)) +
    EncodedPieces(n, compact, depth, 0, false) + (ClosePart(n, compact, depth) + EndPart(depth))
  }

  /** The text the loop over the children writes from child 'i' on, given
      the current value of flagComma. */
  function EncodedPieces(n: Node, compact: bool, depth: nat, i: nat, flagComma: bool): string
    requires |n.children| >= 1 && i <= |n.children|
    decreases n, 1, |n.children| - i
  {
    if i == |n.children| then ""
    else
      EncodedPiece(n, compact, depth, i, flagComma) +
      EncodedPieces(n, compact, depth, i + 1, flagComma || IsValue(n.children[i]))
  }

  /** The text one iteration of the loop writes for child 'i'. */
  function EncodedPiece(n: Node, compact: bool, depth: nat, i: nat, flagComma: bool): string
    requires i < |n.children|
    decreases n, 0
  {
    var prop := n.children[i];
    var last := i == |n.children| - 1;
    if !IsValue(prop) then
      Encoded(prop, compact, depth + 1) + (if last then "" else ",") +
      (if compact then "" else "\n") +
      (if !compact && ArrObj(n) && !last then IndentText(depth + 1) else "")
    else
      (if |n.children| > 1 && i == 0 then "[" else "") + (if flagComma then "," else "") +
      "\"" + LabelText(prop.lbl) + "\"" + (if |n.children| > 1 && last then "]" else "")
  }

  /** The output stream. Writes are taken to succeed. */
  class Writer {
    var out: string

    constructor ()
      ensures out == []
    {
      out := [];
    }

    method Write(t: string)
      modifies this
      ensures out == old(out) + t
    {
      out := out + t;
    }
  }

  /** JSONIndent: writes PBJSON_INDENT 'depth' times. */
  method Indent(w: Writer, depth: nat)
    modifies w
    ensures w.out == old(w.out) + IndentText(depth)
  {
    var i := depth;
    while i > 0
      invariant 0 <= i <= depth
      invariant w.out + IndentText(i) == old(w.out) + IndentText(depth)
    {
      w.Write(IndentUnit);
      i := i - 1;
    }
  }

  /** JSONSaveRec. GSetIterGet on an empty set of subtrees is undefined, so
      the node must have at least one child. */
  method SaveRec(w: Writer, n: Node, compact: bool, depth: nat)
    requires |n.children| >= 1
    modifies w
    ensures w.out == old(w.out) + Encoded(n, compact, depth)
    decreases n, 4
  {
    ghost var start := w.out;
    ghost var l, o, p := LabelPart(n, compact, depth), OpenPart(n, compact, depth), EncodedPieces(n, compact, depth, 0, false);
    ghost var c, e := ClosePart(n, compact, depth), EndPart(depth);
    assert Encoded(n, compact, depth) == (l + o) + p + (c + e);
    var flagArrObj, openChar, closeChar := SaveLabel(w, n, compact, depth);
    var cs := n.children;
    var firstProp := cs[0];
    var flagEscapeBracket := depth == 0 && |cs| == 1 && (firstProp.lbl.None? || |firstProp.lbl.value| == 0);
    SaveBracket(w, n, compact, depth, !IsValue(firstProp) && !flagEscapeBracket, flagArrObj, openChar, true);
    Assoc(start, l, o);
    SaveChildren(w, n, compact, depth, flagArrObj);
    Assoc(start, l + o, p);
    SaveBracket(w, n, compact, depth, !IsValue(firstProp) && !flagEscapeBracket, flagArrObj, closeChar, false);
    ghost var body := start + ((l + o) + p);
    assert w.out == body + c;
    if depth == 0 {
      w.Write("\n");
    }
    Assoc(body, c, e);
    Assoc(start, (l + o) + p, c + e);
  }

  /** The loop of JSONSaveRec over the children, with flagComma starting false. */
  method SaveChildren(w: Writer, n: Node, compact: bool, depth: nat, flagArrObj: bool)
    requires |n.children| >= 1 && flagArrObj == ArrObj(n)
    modifies w
    ensures w.out == old(w.out) + EncodedPieces(n, compact, depth, 0, false)
    decreases n, 3
  {
    var cs := n.children;
    ghost var done := "";
    var flagComma := false;
    var i := 0;
    while i < |cs|
      invariant 0 <= i <= |cs|
      invariant w.out == old(w.out) + done
      invariant done + EncodedPieces(n, compact, depth, i, flagComma) == EncodedPieces(n, compact, depth, 0, false)
    {
      ghost var piece := EncodedPiece(n, compact, depth, i, flagComma);
      ghost var rest := EncodedPieces(n, compact, depth, i + 1, flagComma || IsValue(cs[i]));
      assert EncodedPieces(n, compact, depth, i, flagComma) == piece + rest;
      flagComma := SaveChild(w, n, compact, depth, i, flagComma, flagArrObj);
      Assoc(old(w.out), done, piece);
      Assoc(done, piece, rest);
      done := done + piece;
      i := i + 1;
    }
  }

  /** The first step of JSONSaveRec: prints a non-empty label as a key,
      stripping a leading "[]", which also switches the brackets to [ ]. */
  method SaveLabel(w: Writer, n: Node, compact: bool, depth: nat)
    returns (flagArrObj: bool, openChar: string, closeChar: string)
    modifies w
    ensures w.out == old(w.out) + LabelPart(n, compact, depth)
    ensures flagArrObj == ArrObj(n)
    ensures openChar == (if flagArrObj then "[" else "{")
    ensures closeChar == (if flagArrObj then "]" else "}")
  {
    flagArrObj := false;
    openChar, closeChar := "{", "}";
    if n.lbl.Some? && |n.lbl.value| > 0 {
      if !compact {
        Indent(w, depth);
      }
      var lbl := n.lbl.value;
      if |lbl| >= 2 && lbl[0] == '[' && lbl[1] == ']' {
        flagArrObj := true;
        lbl := lbl[2..];
        openChar, closeChar := "[", "]";
      }
      w.Write("\"" + lbl + "\":");
    }
  }

  /** The opening (or closing) bracket of JSONSaveRec, printed only when the
      first child is not a value and the brackets are not elided. */
  method SaveBracket(w: Writer, n: Node, compact: bool, depth: nat, bracketed: bool,
                     flagArrObj: bool, bracket: string, opening: bool)
    requires |n.children| >= 1 && bracketed == Bracketed(n, depth) && flagArrObj == ArrObj(n)
    requires bracket == if opening then (if flagArrObj then "[" else "{") else (if flagArrObj then "]" else "}")
    modifies w
    ensures w.out == old(w.out) + if opening then OpenPart(n, compact, depth) else ClosePart(n, compact, depth)
  {
    if bracketed {
      if opening {
        w.Write(bracket);
        if !compact {
          w.Write("\n");
        }
        if !compact && flagArrObj {
          Indent(w, depth + 1);
        }
      } else {
        if !compact {
          Indent(w, depth);
        }
        w.Write(bracket);
      }
    }
  }

  /** One iteration of the loop of JSONSaveRec over the children: a child
      with children is saved recursively, a value child is printed quoted.
      Returns the new flagComma. */
  method SaveChild(w: Writer, n: Node, compact: bool, depth: nat, i: nat, flagComma: bool, flagArrObj: bool)
    returns (flagComma': bool)
    requires i < |n.children| && flagArrObj == ArrObj(n)
    modifies w
    ensures w.out == old(w.out) + EncodedPiece(n, compact, depth, i, flagComma)
    ensures flagComma' == (flagComma || IsValue(n.children[i]))
    decreases n, 2
  {
    if !IsValue(n.children[i]) {
      SaveSubtree(w, n, compact, depth, i, flagArrObj);
      flagComma' := flagComma;
    } else {
      SaveValue(w, n, compact, depth, i, flagComma);
      flagComma' := true;
    }
  }

  /** A child with children: saved one level deeper, followed by a comma
      unless it is the last, and in pretty mode by a new line and, between
      elements of an array of objects, the indentation. */
  method SaveSubtree(w: Writer, n: Node, compact: bool, depth: nat, i: nat, flagArrObj: bool)
    requires i < |n.children| && !IsValue(n.children[i]) && flagArrObj == ArrObj(n)
    modifies w
    ensures w.out == old(w.out) + EncodedPiece(n, compact, depth, i, false)
    decreases n, 1
  {
    var cs := n.children;
    var isLast := i == |cs| - 1;
    ghost var start := w.out;
    ghost var a := Encoded(cs[i], compact, depth + 1);
    ghost var b := if isLast then "" else ",";
    ghost var c := if compact then "" else "\n";
    ghost var d := if !compact && ArrObj(n) && !isLast then IndentText(depth + 1) else "";
    assert EncodedPiece(n, compact, depth, i, false) == a + b + c + d;
    SaveRec(w, cs[i], compact, depth + 1);
    if !isLast {
      w.Write(",");
    }
    assert w.out == start + a + b;
    Assoc(start, a, b);
    if !compact {
      w.Write("\n");
    }
    assert w.out == start + (a + b) + c;
    Assoc(start, a + b, c);
    if !compact && flagArrObj && !isLast {
      Indent(w, depth + 1);
    }
    assert w.out == start + (a + b + c) + d;
    Assoc(start, a + b + c, d);
  }

  /** A value child: an opening "[" before the first of several, a comma
      after an earlier value, the label quoted (a null label as ""), and a
      closing "]" after the last of several. */
  method SaveValue(w: Writer, n: Node, compact: bool, depth: nat, i: nat, flagComma: bool)
    requires i < |n.children| && IsValue(n.children[i])
    modifies w
    ensures w.out == old(w.out) + EncodedPiece(n, compact, depth, i, flagComma)
  {
    var cs := n.children;
    var prop := cs[i];
    var isLast := i == |cs| - 1;
    ghost var start := w.out;
    ghost var a := if |cs| > 1 && i == 0 then "[" else "";
    ghost var b := if flagComma then "," else "";
    ghost var c := "\"" + LabelText(prop.lbl) + "\"";
    ghost var d := if |cs| > 1 && isLast then "]" else "";
    assert EncodedPiece(n, compact, depth, i, flagComma) == a + b + c + d;
    if |cs| > 1 && i == 0 {
      w.Write("[");
    }
    assert w.out == start + a;
    if flagComma {
      w.Write(",");
    }
    assert w.out == start + a + b;
    Assoc(start, a, b);
    if prop.lbl.Some? {
      w.Write("\"" + prop.lbl.value + "\"");
    } else {
      w.Write("\"\"");
    }
    assert w.out == start + (a + b) + c;
    Assoc(start, a + b, c);
    if |cs| > 1 && isLast {
      w.Write("]");
    }
    assert w.out == start + (a + b + c) + d;
    Assoc(start, a + b + c, d);
  }

  lemma Assoc(a: string, b: string, c: string)
    ensures a + b + c == a + (b + c)
  {
  }

  /** JSONSave: the recursion starts at depth 0. */
  method Save(w: Writer, n: Node, compact: bool)
    requires |n.children| >= 1
    modifies w
    ensures w.out == old(w.out) + Encoded(n, compact, 0)
  {
    SaveRec(w, n, compact, 0);
  }
}
