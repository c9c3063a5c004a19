/** The decoder as the C code runs it: routines reading one character at a
    time from a stream, each proved to compute what the function of the
    same name in JsonLoad states. */
module JsonReader {
  import opened Outcomes
  import opened JsonTree
  import JsonLoad

  /** The input stream: the characters of the document and the position of
      the next character fscanf would read. The routines below follow the
      C code statement by statement; each is proved to compute what the
      function of the same name above states. */
  class Reader {
    const text: string
    var pos: nat

    constructor(text: string)
      ensures this.text == text && pos == 0
    {
      this.text := text;
      pos := 0;
    }

    /** One fscanf("%c"): the next character, or None at end of input. */
    method Scan() returns (r: Option<char>)
      requires pos <= |text|
      modifies this
      ensures old(pos) < |text| ==> r == Some(text[old(pos)]) && pos == old(pos) + 1
      ensures old(pos) == |text| ==> r == None && pos == old(pos)
    {
      if pos == |text| {
        r := None;
      } else {
        r := Some(text[pos]);
        pos := pos + 1;
      }
    }

    method GetNextChar() returns (st: Status, c: char)
      requires pos <= |text|
      modifies this
      ensures var r := JsonLoad.NextChar(text, old(pos));
        pos == r.pos && (r.Read? ==> st == Ok && c == r.value) &&
        (r.ReadFail? ==> st == Err(r.error))
    {
      ghost var start := pos;
      while true
        invariant start <= pos <= |text|
        invariant JsonLoad.NextChar(text, pos) == JsonLoad.NextChar(text, start)
        decreases |text| - pos
      {
        var read := Scan();
        if read.None? {
          return Err(IOError), '\0';
        }
        c := read.value;
        if !JsonLoad.IsSkip(c) {
          return Ok, c;
        }
      }
    }

    method LoadStr() returns (st: Status, str: string)
      requires pos <= |text|
      modifies this
      ensures var r := JsonLoad.LoadStr(text, old(pos));
        pos == r.pos && (r.Read? ==> st == Ok && str == r.value) &&
        (r.ReadFail? ==> st == Err(r.error))
    {
      var buf := new char[MaxLengthLbl + 1];
      var i := 0;
      var flagEsc := false;
      ghost var start := pos;
      ghost var stored: string := [];
      while true
        invariant start <= pos <= |text| && i == pos - start < MaxLengthLbl
        invariant stored == buf[..i] && |stored| == i
        invariant i > 0 ==> stored[i - 1] == buf[i - 1]
        invariant JsonLoad.ScanStr(text, pos, flagEsc && !(i > 0 && stored[i - 1] == '"'), stored)
          == JsonLoad.LoadStr(text, start)
        decreases |text| - pos
      {
        if flagEsc && i > 0 && buf[i - 1] == '"' {
          flagEsc := false;
        }
        ghost var esc := flagEsc;
        var read := Scan();
        if read.None? {
          return Err(IOError), "";
        }
        var c := read.value;
        buf[i] := c;
        assert buf[..i + 1] == stored + [c];
        if buf[i] == '\\' {
          flagEsc := true;
        }
        i := i + 1;
        if !((flagEsc || buf[i - 1] != '"') && i < MaxLengthLbl) {
          assert JsonLoad.ScanStr(text, pos - 1, esc, stored) == Read(stored, pos);
          break;
        }
        stored := stored + [c];
      }
      buf[i - 1] := '\0';
      assert buf[..i - 1] == stored;
      st, str := Ok, buf[..i - 1];
    }

    method LoadStruct(that: Node) returns (st: Status, res: Node)
      requires pos <= |text|
      modifies this
      ensures pos <= |text| && JsonLoad.Parsed(pos, res, st) == JsonLoad.LoadStruct(text, old(pos), that)
      decreases |text| - pos
    {
      res := that;
      var c := '\0';
      while c != '}'
        invariant old(pos) <= pos <= |text|
        invariant c != '}' ==> JsonLoad.LoadStruct(text, pos, res) == JsonLoad.LoadStruct(text, old(pos), that)
        invariant c == '}' ==> JsonLoad.Parsed(pos, res, Ok) == JsonLoad.LoadStruct(text, old(pos), that)
        invariant c != '}' && pos == old(pos) ==> res == that
        decreases |text| - pos, if c == '}' then 0 else 1
      {
        var s1;
        s1, c := GetNextChar();
        if s1.Err? {
          return s1, res;
        }
        if c != '}' {
          var s2;
          s2, res := LoadProp(res);
          if s2.Err? {
            return s2, res;
          }
        }
      }
      st := Ok;
    }

    method LoadProp(that: Node) returns (st: Status, res: Node)
      requires pos <= |text|
      modifies this
      ensures pos <= |text| && JsonLoad.Parsed(pos, res, st) == JsonLoad.LoadProp(text, old(pos), that)
      decreases |text| - pos
    {
      var s1, key := LoadStr();
      if s1.Err? {
        return s1, that;
      }
      var s2, c := GetNextChar();
      if s2.Err? {
        return s2, that;
      }
      if c != ':' {
        return Err(InvalidData), that;
      }
      s2, c := GetNextChar();
      if s2.Err? {
        return s2, that;
      }
      if c == '"' {
        var s3, val := LoadStr();
        if s3.Err? {
          return s3, that;
        }
        res := AddPropStr(that, key, val);
      } else if c == '[' {
        var ignored;
        ignored, res := LoadArr(that, key);
      } else if c == '{' {
        var ignored, prop := LoadStruct(SetLabel(Empty, key));
        res := Append(that, prop);
      } else {
        return Err(InvalidData), that;
      }
      st := Ok;
    }

    method LoadArr(that: Node, key: string) returns (st: Status, res: Node)
      requires pos <= |text| && |key| < MaxLengthLbl
      modifies this
      ensures pos <= |text| && JsonLoad.Parsed(pos, res, st) == JsonLoad.LoadArr(text, old(pos), that, key)
      decreases |text| - pos + 2
    {
      var s1, c := GetNextChar();
      if s1.Err? {
        return s1, that;
      }
      if c == '"' {
        st, res := AddArr(that, key);
      } else if c == ']' {
        res := AddPropArr(that, key, []);
        JsonLoad.AppendEq(that, res, ArrProp(key, []));
        st := Ok;
      } else if c == '{' {
        st, res := AddArrStruct(that, key);
      } else {
        st, res := Err(InvalidData), that;
      }
    }

    method AddArr(that: Node, key: string) returns (st: Status, res: Node)
      requires pos <= |text|
      modifies this
      ensures pos <= |text| && JsonLoad.Parsed(pos, res, st) == JsonLoad.AddArr(text, old(pos), that, key, [])
    {
      var vals: seq<string> := [];
      var c := '\0';
      while true
        invariant old(pos) <= pos <= |text|
        invariant JsonLoad.AddArr(text, pos, that, key, vals) == JsonLoad.AddArr(text, old(pos), that, key, [])
        decreases |text| - pos
      {
        var s1, v := LoadStr();
        if s1.Err? {
          return s1, that;
        }
        vals := vals + [v];
        var s2;
        s2, c := GetNextChar();
        if s2.Err? {
          return s2, that;
        }
        if c != '"' && c != ']' {
          return Err(InvalidData), that;
        }
        if c == ']' {
          break;
        }
      }
      res := AddPropArr(that, key, vals);
      JsonLoad.AppendEq(that, res, ArrProp(key, vals));
      st := Ok;
    }

    method AddArrStruct(that: Node, key: string) returns (st: Status, res: Node)
      requires 1 <= pos <= |text| && text[pos - 1] == '{' && |key| < MaxLengthLbl
      modifies this
      ensures pos <= |text| && JsonLoad.Parsed(pos, res, st) == JsonLoad.AddArrStruct(text, old(pos), that, key, [])
      decreases |text| - pos + 2
    {
      var objs: seq<Node> := [];
      var c := '\0';
      while true
        invariant old(pos) <= pos <= |text| && 1 <= pos && text[pos - 1] == '{'
        invariant JsonLoad.AddArrStruct(text, pos, that, key, objs) == JsonLoad.AddArrStruct(text, old(pos), that, key, [])
        decreases |text| - pos
      {
        // the rewind by one character, back onto the '{' just read
        pos := pos - 1;
        var s1, obj := Load(Empty);
        if s1.Err? {
          return s1, that;
        }
        objs := objs + [obj];
        var s2;
        s2, c := GetNextChar();
        if s2.Err? {
          return s2, that;
        }
        if c != '{' && c != ']' {
          return Err(InvalidData), that;
        }
        if c == ']' {
          break;
        }
      }
      res := AddPropArrObj(that, key, objs);
      JsonLoad.AppendEq(that, res, ArrObjProp(key, objs));
      st := Ok;
    }

    method Load(that: Node) returns (st: Status, res: Node)
      requires pos <= |text|
      modifies this
      ensures pos <= |text| && JsonLoad.Parsed(pos, res, st) == JsonLoad.Load(text, old(pos), that)
      decreases |text| - pos + (if pos < |text| && text[pos] == '{' then 0 else 3)
    {
      var s1, c := GetNextChar();
      if s1.Err? {
        return s1, that;
      }
      if c == '{' {
        st, res := LoadStruct(that);
      } else if c == '[' {
        st, res := LoadArr(that, "");
      } else {
        st, res := Err(InvalidData), that;
      }
    }
  }

}
