/** The decoder: a recursive-descent reader over a character stream with
    one character of look-back (JSONLoad and the routines it calls). The
    functions below state what each routine computes; the class Reader at
    the end runs the same routines step by step on a stream position. */
module JsonLoad {
  import opened Outcomes
  import opened JsonTree

  /** Characters JSONGetNextChar skips: space, new line, tab and comma. */
  predicate IsSkip(c: char) {
    c == ' ' || c == '\n' || c == '\t' || c == ','
  }

  /** The result of a load routine: the stream position afterwards, the
      node loaded into, and the status it returns. */
  datatype Parsed = Parsed(pos: nat, that: Node, status: Status)

  /** JSONGetNextChar: the first character from 'pos' on that is not
      skipped, or IOError when the input ends first. */
  function NextChar(s: string, pos: nat): (r: Read<char>)
    requires pos <= |s|
    ensures pos <= r.pos <= |s|
    ensures r.Read? ==> pos < r.pos && r.value == s[r.pos - 1] && !IsSkip(r.value)
    ensures r.ReadFail? ==> r == ReadFail(IOError, |s|)
    decreases |s| - pos
  {
    if pos == |s| then ReadFail(IOError, pos)
    else if IsSkip(s[pos]) then NextChar(s, pos + 1)
    else Read(s[pos], pos + 1)
  }

  /** The loop of JSONLoadStr from 'pos' on, 'buf' holding the characters
      stored so far and 'esc' the escape flag as it stands at the start of
      the next iteration (set by a backslash, cleared once a quote has been
      read after it). The final character read is not kept: it is the
      closing quote, or the character overwritten by '\0' when the buffer
      of PBJSON_MAXLENGTHLBL characters is full. */
  function ScanStr(s: string, pos: nat, esc: bool, buf: string): (r: Read<string>)
    requires pos <= |s| && |buf| < MaxLengthLbl
    ensures pos <= r.pos <= |s|
    ensures r.Read? ==> pos < r.pos && |r.value| < MaxLengthLbl
    ensures r.ReadFail? ==> r == ReadFail(IOError, |s|)
    decreases |s| - pos
  {
    if pos == |s| then ReadFail(IOError, |s|)
    else
      var c := s[pos];
      if (c == '"' && !esc) || |buf| + 1 == MaxLengthLbl then Read(buf, pos + 1)
      else ScanStr(s, pos + 1, (esc || c == '\\') && c != '"', buf + [c])
  }

  /** JSONLoadStr, called just after the opening quote has been read. */
  function LoadStr(s: string, pos: nat): (r: Read<string>)
    requires pos <= |s|
    ensures pos <= r.pos <= |s|
    ensures r.Read? ==> pos < r.pos && |r.value| < MaxLengthLbl
    ensures r.ReadFail? ==> r == ReadFail(IOError, |s|)
  {
    ScanStr(s, pos, false, "")
  }

  /** JSONLoadStruct: reads properties into 'that' until a '}'. The
      character read before each property is taken as its opening quote. */
  function LoadStruct(s: string, pos: nat, that: Node): (r: Parsed)
    requires pos <= |s|
    ensures pos <= r.pos <= |s|
    ensures r.status.Ok? ==> pos < r.pos
    decreases |s| - pos
  {
    var c := NextChar(s, pos);
    if c.ReadFail? then Parsed(c.pos, that, Err(c.error))
    else if c.value == '}' then Parsed(c.pos, that, Ok)
    else
      var p := LoadProp(s, c.pos, that);
      if p.status.Err? then p
      else LoadStruct(s, p.pos, p.that)
  }

  /** JSONLoadProp: a key, a ':' and a value, which is a quoted string, an
      array or a nested struct. The results of loading an array or a nested
      struct are ignored: a failure there still returns Ok, and a nested
      struct keeps whatever was loaded into it. */
  function LoadProp(s: string, pos: nat, that: Node): (r: Parsed)
    requires pos <= |s|
    ensures pos <= r.pos <= |s|
    ensures r.status.Ok? ==> pos < r.pos
    decreases |s| - pos
  {
    var key := LoadStr(s, pos);
    if key.ReadFail? then Parsed(key.pos, that, Err(key.error))
    else
      var c := NextChar(s, key.pos);
      if c.ReadFail? then Parsed(c.pos, that, Err(c.error))
      else if c.value != ':' then Parsed(c.pos, that, Err(InvalidData))
      else
        var v := NextChar(s, c.pos);
        if v.ReadFail? then Parsed(v.pos, that, Err(v.error))
        else if v.value == '"' then
          var val := LoadStr(s, v.pos);
          if val.ReadFail? then Parsed(val.pos, that, Err(val.error))
          else Parsed(val.pos, AddPropStr(that, key.value, val.value), Ok)
        else if v.value == '[' then
          var a := LoadArr(s, v.pos, that, key.value);
          Parsed(a.pos, a.that, Ok)
        else if v.value == '{' then
          var sub := LoadStruct(s, v.pos, SetLabel(Empty, key.value));
          Parsed(sub.pos, Append(that, sub.that), Ok)
        else Parsed(v.pos, that, Err(InvalidData))
  }

  /** JSONLoadArr, called just after the '[': an array of strings, an empty
      array or an array of structs, chosen by the next significant char. */
  function LoadArr(s: string, pos: nat, that: Node, key: string): (r: Parsed)
    requires pos <= |s| && |key| < MaxLengthLbl
    ensures pos <= r.pos <= |s|
    ensures r.status.Ok? ==> pos < r.pos
    decreases |s| - pos + 2
  {
    var c := NextChar(s, pos);
    if c.ReadFail? then Parsed(c.pos, that, Err(c.error))
    else if c.value == '"' then AddArr(s, c.pos, that, key, [])
    else if c.value == ']' then Parsed(c.pos, Append(that, ArrProp(key, [])), Ok)
    else if c.value == '{' then AddArrStruct(s, c.pos, that, key, [])
    else Parsed(c.pos, that, Err(InvalidData))
  }

  /** JSONAddArr, called just after the opening quote of the first string:
      the strings read so far are 'vals'; the property is appended only once
      the closing ']' has been read. */
  function AddArr(s: string, pos: nat, that: Node, key: string, vals: seq<string>): (r: Parsed)
    requires pos <= |s|
    ensures pos <= r.pos <= |s|
    ensures r.status.Ok? ==> pos < r.pos
    ensures r.status.Err? ==> r.that == that
    decreases |s| - pos
  {
    var v := LoadStr(s, pos);
    if v.ReadFail? then Parsed(v.pos, that, Err(v.error))
    else
      var c := NextChar(s, v.pos);
      if c.ReadFail? then Parsed(c.pos, that, Err(c.error))
      else if c.value != '"' && c.value != ']' then Parsed(c.pos, that, Err(InvalidData))
      else if c.value == ']' then Parsed(c.pos, Append(that, ArrProp(key, vals + [v.value])), Ok)
      else AddArr(s, c.pos, that, key, vals + [v.value])
  }

  /** JSONAddArrStruct, called just after the '{' of an element: the stream
      is rewound one character (to that '{', so the seek cannot fail) and
      the element is loaded with JSONLoad into a fresh node; the objects
      loaded so far are 'objs'; the property is appended only once the
      closing ']' has been read. */
  function AddArrStruct(s: string, pos: nat, that: Node, key: string, objs: seq<Node>): (r: Parsed)
    requires 1 <= pos <= |s| && s[pos - 1] == '{' && |key| < MaxLengthLbl
    ensures pos <= r.pos <= |s|
    ensures r.status.Ok? ==> pos < r.pos
    ensures r.status.Err? ==> r.that == that
    decreases |s| - pos + 2
  {
    var o := Load(s, pos - 1, Empty);
    if o.status.Err? then Parsed(o.pos, that, o.status)
    else
      var c := NextChar(s, o.pos);
      if c.ReadFail? then Parsed(c.pos, that, Err(c.error))
      else if c.value != '{' && c.value != ']' then Parsed(c.pos, that, Err(InvalidData))
      else if c.value == ']' then Parsed(c.pos, Append(that, ArrObjProp(key, objs + [o.that])), Ok)
      else AddArrStruct(s, c.pos, that, key, objs + [o.that])
  }

  /** JSONLoad: a document is a struct or an array (under the empty key). */
  function Load(s: string, pos: nat, that: Node): (r: Parsed)
    requires pos <= |s|
    ensures pos <= r.pos <= |s|
    ensures r.status.Ok? ==> pos < r.pos
    decreases |s| - pos + (if pos < |s| && s[pos] == '{' then 0 else 3)
  {
    var c := NextChar(s, pos);
    if c.ReadFail? then Parsed(c.pos, that, Err(c.error))
    else if c.value == '{' then LoadStruct(s, c.pos, that)
    else if c.value == '[' then LoadArr(s, c.pos, that, "")
    else Parsed(c.pos, that, Err(InvalidData))
  }

  /** A node built by the in-place helpers of JsonTree equals Append. */
  lemma AppendEq(that: Node, r: Node, child: Node)
    requires r.lbl == that.lbl && |r.children| == |that.children| + 1
    requires r.children[..|that.children|] == that.children
    requires r.children[|that.children|] == child
    ensures r == Append(that, child)
  {
    assert r.children == r.children[..|that.children|] + [child];
  }
}
