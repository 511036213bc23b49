/**
 * ECMAScript white space (the class matched by `\s` in a JavaScript regular
 * expression, and the characters `String.prototype.trim` removes) and `trim`.
 */
module JsText {
  import opened Strings

  /** WhiteSpace and LineTerminator code points of ECMAScript. */
  predicate IsJsSpace(c: char) {
    || c == '\t' || c == '\n' || c == '\U{B}' || c == '\U{C}' || c == '\r' || c == ' '
    || c == '\U{A0}' || c == '\U{1680}' || ('\U{2000}' <= c <= '\U{200A}')
    || c == '\U{2028}' || c == '\U{2029}' || c == '\U{202F}' || c == '\U{205F}'
    || c == '\U{3000}' || c == '\U{FEFF}'
  }

  /** Neither the first nor the last character is white space. */
  predicate NoEdgeSpace(s: string) {
    s == [] || (!IsJsSpace(s[0]) && !IsJsSpace(s[|s| - 1]))
  }

  /** The end of the run of white space that starts at `k`. */
  function SpaceRunEnd(s: string, k: nat): (a: nat)
    requires k <= |s|
    ensures k <= a <= |s| && AllInRange(s, k, a, IsJsSpace)
    ensures a == |s| || !IsJsSpace(s[a])
    decreases |s| - k
  {
    if k < |s| && IsJsSpace(s[k]) then SpaceRunEnd(s, k + 1) else k
  }

  /** The start of the run of white space that ends at `m`, looking no further back than `a`. */
  function SpaceRunStart(s: string, a: nat, m: nat): (b: nat)
    requires a <= m <= |s|
    ensures a <= b <= m && AllInRange(s, b, m, IsJsSpace)
    ensures b == a || !IsJsSpace(s[b - 1])
    decreases m - a
  {
    if a < m && IsJsSpace(s[m - 1]) then SpaceRunStart(s, a, m - 1) else m
  }

  /**
   * `String.prototype.trim`: the slice of `s` left once white space is
   * removed from both ends; it starts where the leading white space ends.
   */
  function Trim(s: string): (r: string)
    ensures NoEdgeSpace(r)
    ensures var a := SpaceRunEnd(s, 0);
      && a + |r| <= |s| && r == s[a..a + |r|]
      && AllInRange(s, 0, a, IsJsSpace) && AllInRange(s, a + |r|, |s|, IsJsSpace)
  {
    var a := SpaceRunEnd(s, 0);
    var b := SpaceRunStart(s, a, |s|);
    s[a..b]
  }

  /** A string without white space at its ends is left as it is by `trim`. */
  lemma TrimOfTrimmed(s: string)
    requires NoEdgeSpace(s)
    ensures Trim(s) == s
  {
  }

  /** Trimming twice is trimming once. */
  lemma TrimIdempotent(s: string)
    ensures Trim(Trim(s)) == Trim(s)
  {
    TrimOfTrimmed(Trim(s));
  }

  /** `trim` yields the empty string exactly when `s` is all white space (the empty string included). */
  lemma TrimEmptyIffAllSpace(s: string)
    ensures Trim(s) == [] <==> AllIn(s, IsJsSpace)
  {
  }

  /** The characters of `s` that are not white space, in order. */
  function NonSpace(s: string): string
    decreases |s|
  {
    if s == [] then [] else (if IsJsSpace(s[0]) then [] else [s[0]]) + NonSpace(s[1..])
  }

  lemma {:induction false} NonSpaceAppend(a: string, b: string)
    ensures NonSpace(a + b) == NonSpace(a) + NonSpace(b)
    decreases |a|
  {
    if a != [] {
      assert (a + b)[0] == a[0];
      assert (a + b)[1..] == a[1..] + b;
      NonSpaceAppend(a[1..], b);
    } else {
      assert a + b == b;
    }
  }

  lemma {:induction false} NonSpaceOfSpaces(s: string)
    requires AllIn(s, IsJsSpace)
    ensures NonSpace(s) == []
    decreases |s|
  {
    if s != [] {
      NonSpaceOfSpaces(s[1..]);
    }
  }

  /** Surrounding `r` with white space does not change its non-space characters. */
  lemma NonSpaceOfPadded(lead: string, r: string, trail: string)
    requires AllIn(lead, IsJsSpace) && AllIn(trail, IsJsSpace)
    ensures NonSpace(lead + r + trail) == NonSpace(r)
  {
    NonSpaceAppend(lead + r, trail);
    NonSpaceAppend(lead, r);
    NonSpaceOfSpaces(lead);
    NonSpaceOfSpaces(trail);
    assert NonSpace(r) + [] == NonSpace(r);
  }

  /** `trim` removes white space only. */
  lemma TrimKeepsNonSpace(s: string)
    ensures NonSpace(Trim(s)) == NonSpace(s)
  {
    var r := Trim(s);
    var a := SpaceRunEnd(s, 0);
    var b := a + |r|;
    AllInRangeSlice(s, 0, a, IsJsSpace);
    AllInRangeSlice(s, b, |s|, IsJsSpace);
    assert s == s[..a] + r + s[b..];
    NonSpaceOfPadded(s[..a], r, s[b..]);
  }

  /** A word: a non-empty string without white space. */
  predicate IsWord(w: string) {
    w != [] && forall i :: 0 <= i < |w| ==> !IsJsSpace(w[i])
  }

  /** The word being read, if any, as a list of zero or one words. */
  function Flush(word: string): seq<string> {
    if word == [] then [] else [word]
  }

  /**
   * The words of `s`, when `word` is the part of a word already read just
   * before it: the maximal runs of characters that are not white space, in
   * order.
   */
  function WordsFrom(word: string, s: string): (ws: seq<string>)
    requires word == [] || IsWord(word)
    ensures forall n :: 0 <= n < |ws| ==> IsWord(ws[n])
    decreases |s|
  {
    if s == [] then Flush(word)
    else if IsJsSpace(s[0]) then Flush(word) + WordsFrom([], s[1..])
    else WordsFrom(word + [s[0]], s[1..])
  }

  /** The words of `s`, as `s.split(/\s+/)` with the empty pieces dropped. */
  function Words(s: string): (ws: seq<string>)
    ensures forall n :: 0 <= n < |ws| ==> IsWord(ws[n])
  {
    WordsFrom([], s)
  }

  /** White space before `x` ends the word being read and adds no word. */
  lemma {:induction false} WordsAfterSpaces(word: string, sp: string, x: string)
    requires word == [] || IsWord(word)
    requires sp != [] && AllIn(sp, IsJsSpace)
    ensures WordsFrom(word, sp + x) == Flush(word) + WordsFrom([], x)
    decreases |sp|
  {
    assert (sp + x)[0] == sp[0];
    assert (sp + x)[1..] == sp[1..] + x;
    if sp[1..] != [] {
      WordsAfterSpaces([], sp[1..], x);
    } else {
      assert sp[1..] + x == x;
    }
  }

  /** White space after `x` adds no word. */
  lemma {:induction false} WordsBeforeSpaces(word: string, x: string, sp: string)
    requires word == [] || IsWord(word)
    requires AllIn(sp, IsJsSpace)
    ensures WordsFrom(word, x + sp) == WordsFrom(word, x)
    decreases |x|
  {
    if x == [] {
      assert x + sp == sp;
      if sp != [] {
        WordsAfterSpaces(word, sp, []);
        assert sp + [] == sp;
      }
    } else {
      assert (x + sp)[0] == x[0];
      assert (x + sp)[1..] == x[1..] + sp;
      if IsJsSpace(x[0]) {
        WordsBeforeSpaces([], x[1..], sp);
      } else {
        WordsBeforeSpaces(word + [x[0]], x[1..], sp);
      }
    }
  }

  /** `trim` keeps every word, in order. */
  lemma TrimKeepsWords(s: string)
    ensures Words(Trim(s)) == Words(s)
  {
    var r := Trim(s);
    var a := SpaceRunEnd(s, 0);
    var b := a + |r|;
    var pre, post := s[..a], s[b..];
    AllInRangeSlice(s, 0, a, IsJsSpace);
    AllInRangeSlice(s, b, |s|, IsJsSpace);
    assert s[a..] == r + post;
    assert s == pre + (r + post) by {
      assert s == s[..a] + s[a..];
    }
    WordsBeforeSpaces([], r, post);
    if a > 0 {
      WordsAfterSpaces([], pre, r + post);
      assert Flush([]) == [];
    } else {
      assert pre == [];
    }
  }
}
