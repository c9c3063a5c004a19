/** The labelled ordered tree used as a JSON document (JSONNode, a GenTree of
    strings), its construction helpers and the property accessor. */
module JsonTree {
  import opened Outcomes

  /** A node: an optional label and the ordered list of its subtrees. */
  datatype Node = Node(lbl: Option<string>, children: seq<Node>)

  /** JSONCreate(): a node with a null label and no subtree. */
  const Empty: Node := Node(None, [])

  /** JSONIsValue: a node is a value when its set of subtrees is empty. */
  predicate IsValue(n: Node) {
    |n.children| == 0
  }

  /** The label starts with the two characters "[]" marking an array of objects. */
  predicate IsArrKey(l: string) {
    |l| >= 2 && l[0] == '[' && l[1] == ']'
  }

  /** The label with a leading "[]" removed. */
  function StripArr(l: string): (r: string)
    ensures IsArrKey(l) ==> l == "[]" + r
    ensures !IsArrKey(l) ==> r == l
  {
    if IsArrKey(l) then l[2..] else l
  }

  /** JSONSetLabel: the label becomes a copy of 'text'; the subtrees stay. */
  function SetLabel(n: Node, text: string): Node {
    n.(lbl := Some(text))
  }

  /** JSONAppendVal: 'child' becomes the last subtree of 'that'. */
  function Append(that: Node, child: Node): Node {
    that.(children := that.children + [child])
  }

  // The constructors' contracts live in lemmas: as ensures clauses of the
  // functions they would be instantiated at every use in the decoder's proofs.

  /** SetLabel changes the label and nothing else. */
  lemma SetLabelSpec(n: Node, text: string)
    ensures SetLabel(n, text).lbl == Some(text) && SetLabel(n, text).children == n.children
    ensures SetLabel(n, text) != n <==> n.lbl != Some(text)
  {
  }

  /** Append keeps the label and the old subtrees, and adds 'child' last. */
  lemma AppendSpec(that: Node, child: Node)
    ensures var r := Append(that, child);
      r.lbl == that.lbl && |r.children| == |that.children| + 1 &&
      r.children[..|that.children|] == that.children && r.children[|that.children|] == child
  {
    var r := Append(that, child);
    assert r.children[..|that.children|] == that.children;
  }

  /** _JSONAddPropStr: a new property labelled 'key' holding one value node
      labelled 'val' is appended to 'that'. */
  function AddPropStr(that: Node, key: string, val: string): Node
  {
    Append(that, SetLabel(Empty, key).(children := [SetLabel(Empty, val)]))
  }

  /** _JSONAddPropObj: the subtree 'val' itself is relabelled 'key' and
      appended to 'that'; it is not wrapped in a new node. */
  function AddPropObj(that: Node, key: string, val: Node): Node
  {
    Append(that, SetLabel(val, key))
  }

  lemma AddPropStrSpec(that: Node, key: string, val: string)
    ensures var r := AddPropStr(that, key, val);
      r.lbl == that.lbl && |r.children| == |that.children| + 1 &&
      r.children[..|that.children|] == that.children &&
      var p := r.children[|that.children|];
      p.lbl == Some(key) && |p.children| == 1 &&
      p.children[0].lbl == Some(val) && IsValue(p.children[0])
  {
    AppendSpec(that, SetLabel(Empty, key).(children := [SetLabel(Empty, val)]));
  }

  lemma AddPropObjSpec(that: Node, key: string, val: Node)
    ensures var r := AddPropObj(that, key, val);
      r.lbl == that.lbl && |r.children| == |that.children| + 1 &&
      r.children[..|that.children|] == that.children &&
      r.children[|that.children|].lbl == Some(key) &&
      r.children[|that.children|].children == val.children
  {
    AppendSpec(that, SetLabel(val, key));
  }

  /** One value node per string, in order. */
  function ValueNodes(vals: seq<string>): (r: seq<Node>)
    ensures |r| == |vals|
    ensures forall i :: 0 <= i < |vals| ==> r[i] == Node(Some(vals[i]), [])
  {
    if vals == [] then [] else [SetLabel(Empty, vals[0])] + ValueNodes(vals[1..])
  }

  /** The property node _JSONAddPropArr appends: labelled 'key', one value
      node per string of 'vals', or one unlabelled placeholder when 'vals'
      is empty. */
  function ArrProp(key: string, vals: seq<string>): (r: Node)
    ensures r.lbl == Some(key) && |r.children| >= 1
    ensures forall i :: 0 <= i < |r.children| ==> IsValue(r.children[i])
    ensures vals == [] ==> r.children == [Empty]
    ensures vals != [] ==> (|r.children| == |vals| &&
      forall i :: 0 <= i < |vals| ==> r.children[i].lbl == Some(vals[i]))
  {
    Node(Some(key), if vals == [] then [Empty] else ValueNodes(vals))
  }

  /** The property node _JSONAddPropArrObj appends: labelled "[]" + 'key',
      whose subtrees are the given objects themselves, or one unlabelled
      placeholder when there is none. */
  function ArrObjProp(key: string, objs: seq<Node>): (r: Node)
    ensures r.lbl == Some("[]" + key) && IsArrKey(r.lbl.value)
    ensures StripArr(r.lbl.value) == key
    ensures |r.children| >= 1
    ensures objs == [] ==> r.children == [Empty]
    ensures objs != [] ==> r.children == objs
  {
    Node(Some("[]" + key), if objs == [] then [Empty] else objs)
  }

  /** _JSONAddPropArr: loops over 'vals' appending a copy of each string as
      a value node under a new property node, pads an empty list with one
      placeholder, then appends the property to 'that'. */
  method AddPropArr(that: Node, key: string, vals: seq<string>) returns (r: Node)
    ensures r.lbl == that.lbl
    ensures |r.children| == |that.children| + 1
    ensures r.children[..|that.children|] == that.children
    ensures r.children[|that.children|] == ArrProp(key, vals)
  {
    var nodeKey := SetLabel(Empty, key);
    var nbElem := |vals|;
    if nbElem > 0 {
      var i := 0;
      while i < |vals|
        invariant 0 <= i <= |vals|
        invariant nodeKey == Node(Some(key), ValueNodes(vals[..i]))
      {
        nodeKey := Append(nodeKey, SetLabel(Empty, vals[i]));
        i := i + 1;
        ValueNodesSnoc(vals, i);
      }
      assert vals[..|vals|] == vals;
    }
    while nbElem < 1
      invariant vals == [] ==> 0 <= nbElem <= 1
      invariant vals == [] ==> nodeKey == Node(Some(key), if nbElem == 1 then [Empty] else [])
      invariant vals != [] ==> nodeKey == ArrProp(key, vals) && nbElem == |vals|
      decreases 1 - nbElem
    {
      nodeKey := Append(nodeKey, Empty);
      nbElem := nbElem + 1;
    }
    r := Append(that, nodeKey);
  }

  /** ValueNodes of one more string is the old list with one more node. */
  lemma {:induction false} ValueNodesSnoc(vals: seq<string>, i: nat)
    requires 0 < i <= |vals|
    ensures ValueNodes(vals[..i]) == ValueNodes(vals[..i - 1]) + [Node(Some(vals[i - 1]), [])]
  {
    var a, b := ValueNodes(vals[..i]), ValueNodes(vals[..i - 1]) + [Node(Some(vals[i - 1]), [])];
    assert |a| == |b|;
    forall k | 0 <= k < |a| ensures a[k] == b[k] {
      if k < i - 1 {
        assert vals[..i][k] == vals[..i - 1][k];
      }
    }
  }

  /** _JSONAddPropArrObj: the key buffer holds PBJSON_MAXLENGTHLBL + 3
      characters, so the key must fit; the objects are attached, not copied. */
  method AddPropArrObj(that: Node, key: string, objs: seq<Node>) returns (r: Node)
    requires |key| <= MaxLengthLbl
    ensures r.lbl == that.lbl
    ensures |r.children| == |that.children| + 1
    ensures r.children[..|that.children|] == that.children
    ensures r.children[|that.children|] == ArrObjProp(key, objs)
  {
    var nodeKey := SetLabel(Empty, "[]" + key);
    var nbElem := |objs|;
    if nbElem > 0 {
      var i := 0;
      while i < |objs|
        invariant 0 <= i <= |objs|
        invariant nodeKey == Node(Some("[]" + key), objs[..i])
      {
        nodeKey := Append(nodeKey, objs[i]);
        i := i + 1;
        assert objs[..i] == objs[..i - 1] + [objs[i - 1]];
      }
      assert objs[..|objs|] == objs;
    }
    while nbElem < 1
      invariant objs == [] ==> 0 <= nbElem <= 1
      invariant objs == [] ==> nodeKey == Node(Some("[]" + key), if nbElem == 1 then [Empty] else [])
      invariant objs != [] ==> nodeKey == ArrObjProp(key, objs) && nbElem == |objs|
      decreases 1 - nbElem
    {
      nodeKey := Append(nodeKey, Empty);
      nbElem := nbElem + 1;
    }
    r := Append(that, nodeKey);
  }

  /** A child matches 'key' when its label, stripped of a leading "[]", is 'key'. */
  predicate KeyMatches(n: Node, key: string) {
    n.lbl.Some? && StripArr(n.lbl.value) == key
  }

  /** JSONProperty dereferences the label of every child it inspects, so a
      null label may only appear after the first match. */
  predicate ScanSafe(cs: seq<Node>, key: string) {
    cs == [] || (cs[0].lbl.Some? && (KeyMatches(cs[0], key) || ScanSafe(cs[1..], key)))
  }

  /** Index of the first child of 'cs' from position 'i' on matching 'key'. */
  function LookupFrom(cs: seq<Node>, key: string, i: nat): (r: Option<nat>)
    requires i <= |cs|
    ensures r.Some? ==> (i <= r.value < |cs| && KeyMatches(cs[r.value], key) &&
      forall j :: i <= j < r.value ==> !KeyMatches(cs[j], key))
    ensures r.None? ==> forall j :: i <= j < |cs| ==> !KeyMatches(cs[j], key)
    decreases |cs| - i
  {
    if i == |cs| then None
    else if KeyMatches(cs[i], key) then Some(i)
    else LookupFrom(cs, key, i + 1)
  }

  /** The property JSONProperty returns, as its index among the children of 'that'. */
  function Lookup(that: Node, key: string): (r: Option<nat>)
    ensures r.Some? ==> (r.value < |that.children| && KeyMatches(that.children[r.value], key) &&
      forall j :: 0 <= j < r.value ==> !KeyMatches(that.children[j], key))
    ensures r.None? ==> forall j :: 0 <= j < |that.children| ==> !KeyMatches(that.children[j], key)
  {
    LookupFrom(that.children, key, 0)
  }

  /** JSONProperty: scans the children in insertion order and returns the
      first whose lbl, without a leading "[]", equals 'key' (here: its
      index), or null (None) when there is none. */
  method Property(that: Node, key: string) returns (r: Option<nat>)
    requires ScanSafe(that.children, key)
    ensures r == Lookup(that, key)
    ensures r.Some? ==> (r.value < |that.children| && KeyMatches(that.children[r.value], key) &&
      forall j :: 0 <= j < r.value ==> !KeyMatches(that.children[j], key))
    ensures r.None? ==> forall j :: 0 <= j < |that.children| ==> !KeyMatches(that.children[j], key)
  {
    var cs := that.children;
    if |cs| > 0 {
      var i := 0;
      while i < |cs|
        invariant 0 <= i <= |cs|
        invariant ScanSafe(cs[i..], key)
        invariant LookupFrom(cs, key, 0) == LookupFrom(cs, key, i)
      {
        var propLbl := cs[i].lbl.value;
        if IsArrKey(propLbl) {
          propLbl := propLbl[2..];
        }
        if propLbl == key {
          return Some(i);
        }
        assert cs[i..][1..] == cs[i + 1..];
        i := i + 1;
      }
    }
    return None;
  }
}
