module JsonText {
  import opened Outcomes
  import opened JsonLoad

  /** JSONGetNextChar skips every character of 'w'. */
  predicate AllSkip(w: string) {
    forall i {:trigger CharOf(w, i)} :: 0 <= i < |w| ==> IsSkip(CharOf(w, i))
  }

  lemma SkipJoin(a: string, b: string)
    requires AllSkip(a) && AllSkip(b)
    ensures AllSkip(a + b)
  {
    forall i | 0 <= i < |a + b| ensures IsSkip(CharOf(a + b, i)) {
      if i < |a| {
        assert IsSkip(CharOf(a, i));
      } else {
        assert IsSkip(CharOf(b, i - |a|));
      }
    }
  }

  lemma SkipFirst(w: string)
    requires AllSkip(w) && |w| >= 1
    ensures IsSkip(w[0]) && AllSkip(w[1..])
  {
    assert IsSkip(CharOf(w, 0));
    forall i | 0 <= i < |w[1..]| ensures IsSkip(CharOf(w[1..], i)) {
      assert IsSkip(CharOf(w, i + 1));
    }
  }

  /** The input 's' holds 'x' from position 'pos' on. */
  predicate At(s: string, pos: nat, x: string) {
    pos + |x| <= |s| && forall k {:trigger CharOf(x, k)} :: 0 <= k < |x| ==> CharOf(x, k) == s[pos + k]
  }

  /** Reading one character of a text that 's' holds. */
  lemma AtChar(s: string, pos: nat, x: string, k: nat)
    requires At(s, pos, x) && k < |x|
    ensures s[pos + k] == x[k]
  {
    assert CharOf(x, k) == s[pos + k];
  }

  lemma AtSplit(s: string, pos: nat, x: string, y: string)
    requires At(s, pos, x + y)
    ensures At(s, pos, x) && At(s, pos + |x|, y)
  {
    forall k | 0 <= k < |x| ensures CharOf(x, k) == s[pos + k] {
      assert CharOf(x + y, k) == s[pos + k];
    }
    forall k | 0 <= k < |y| ensures CharOf(y, k) == s[pos + |x| + k] {
      assert CharOf(x + y, |x| + k) == s[pos + (|x| + k)];
    }
  }

  lemma AtJoin(s: string, pos: nat, a: string, b: string)
    requires At(s, pos, a) && At(s, pos + |a|, b)
    ensures At(s, pos, a + b)
  {
    forall k | 0 <= k < |a + b| ensures CharOf(a + b, k) == s[pos + k] {
      if k < |a| {
        assert CharOf(a, k) == s[pos + k];
      } else {
        assert CharOf(b, k - |a|) == s[pos + |a| + (k - |a|)];
      }
    }
  }

  lemma AtParts(s: string, pos: nat, x: string, a: string, b: string)
    requires At(s, pos, x) && x == a + b
    ensures At(s, pos, a) && At(s, pos + |a|, b)
  {
    AtSplit(s, pos, a, b);
  }

  /** Splitting off the first character 'c' of the second part of a text. */
  lemma AtFirst(s: string, pos: nat, g: string, t: string, c: char)
    requires At(s, pos, g + t) && |t| >= 1 && t[0] == c
    ensures At(s, pos, g + [c]) && At(s, pos + |g|, t)
  {
    AtSplit(s, pos, g, t);
    AtChar(s, pos + |g|, t, 0);
    assert CharOf([c], 0) == s[pos + |g| + 0];
    AtJoin(s, pos, g, [c]);
  }

  /** A text made of the character 'a', the part 'v' and a tail 'z' the
      decoder skips. */
  lemma OpensWith(s: string, a: char, v: string, z: string)
    requires s == ([a] + v) + z && AllSkip(z)
    ensures 1 <= |s| && s[0] == a && At(s, 1, v) && 1 + |v| <= |s| && AllSkip(s[1 + |v|..])
  {
    assert s[0] == ([a] + v)[0];
    assert At(s, 0, s) by {
      forall k | 0 <= k < |s| ensures CharOf(s, k) == s[0 + k] {
      }
    }
    AtSplit(s, 0, [a] + v, z);
    AtSplit(s, 0, [a], v);
    assert s[1 + |v|..] == z;
  }

  /** A text that starts with character 'c'. */
  lemma AtCons(s: string, pos: nat, c: char, t: string, pos1: nat)
    requires At(s, pos, [c] + t) && pos1 == pos + 1
    ensures At(s, pos, [c]) && At(s, pos1, t)
  {
    AtSplit(s, pos, [c], t);
  }

  /** A text made of an indentation 'ind', a quoted key and a colon, then
      the rest 'v': the key's opening quote ends the indentation. */
  lemma KeyStart(s: string, q: nat, x: string, ind: string, key: string, v: string)
    requires At(s, q, x) && x == ((ind + "\"") + (key + "\":")) + v
    ensures At(s, q, ind + ['"'])
  {
    AtParts(s, q, x, (ind + "\"") + (key + "\":"), v);
    AtParts(s, q, (ind + "\"") + (key + "\":"), ind + "\"", key + "\":");
  }

  /** The same text seen from the key at 'k': the key, its closing quote,
      the colon and the first character 'c0' of the rest, which goes on
      with 'v1' at 'r'. */
  lemma KeyAt(s: string, q: nat, x: string, ind: string, key: string, c0: char, v1: string, k: nat, r: nat)
    requires At(s, q, x) && x == ((ind + "\"") + (key + "\":")) + ([c0] + v1)
    requires k == q + |ind| + 1 && r == k + |key| + 3
    ensures At(s, k, (key + "\"") + ([':'] + [c0])) && At(s, r, v1) && q + |x| == r + |v1|
  {
    var l := (ind + "\"") + (key + "\":");
    AtParts(s, q, x, l, [c0] + v1);
    AtParts(s, q, l, ind + "\"", key + "\":");
    AtParts(s, q + |l|, [c0] + v1, [c0], v1);
    AtJoin(s, k, key + "\":", [c0]);
    assert (key + "\":") + [c0] == (key + "\"") + ([':'] + [c0]);
  }
}
