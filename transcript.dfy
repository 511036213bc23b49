/**
 * Normalisation of a speech-recognition transcript before it is sent to the
 * text parser: every newline becomes a blank, every run of white space
 * becomes one blank, and the ends are trimmed
 * (`transcript.replace(/\n/g, " ").replace(/\s+/g, " ").trim()`).
 */
module Transcript {
  import opened Strings
  import opened JsText

  /** `.replace(/\n/g, " ")`: each newline becomes a blank in place; nothing else moves or changes. */
  function ReplaceNewlines(s: string): (r: string)
    ensures |r| == |s| && forall i :: 0 <= i < |r| ==> r[i] != '\n'
    ensures forall i :: 0 <= i < |s| && s[i] == '\n' ==> r[i] == ' '
    ensures forall i :: 0 <= i < |s| && s[i] != '\n' ==> r[i] == s[i]
  {
    seq(|s|, i requires 0 <= i < |s| => if s[i] == '\n' then ' ' else s[i])
  }

  /** All white space is the ordinary blank, and no two white-space characters are adjacent. */
  predicate SingleBlanks(s: string) {
    && (forall i :: 0 <= i < |s| && IsJsSpace(s[i]) ==> s[i] == ' ')
    && (forall i :: 0 <= i < |s| - 1 ==> !(IsJsSpace(s[i]) && IsJsSpace(s[i + 1])))
  }

  /** `.replace(/\s+/g, " ")`: every maximal run of white space becomes a single blank. */
  function CollapseSpace(s: string): (r: string)
    ensures r == [] <==> s == []
    ensures r != [] ==> (IsJsSpace(r[0]) <==> IsJsSpace(s[0]))
    ensures SingleBlanks(r)
    decreases |s|
  {
    if s == [] then []
    else if IsJsSpace(s[0]) then
      var e := RunEnd(s, 0, IsJsSpace);
      " " + CollapseSpace(s[e..])
    else
      [s[0]] + CollapseSpace(s[1..])
  }

  /**
   * A trailing run of white space is kept as one blank: the collapsed text
   * ends in white space exactly when the input does.
   */
  lemma {:induction false} CollapseKeepsLastSpace(s: string)
    ensures CollapseSpace(s) != [] ==>
      (IsJsSpace(CollapseSpace(s)[|CollapseSpace(s)| - 1]) <==> IsJsSpace(s[|s| - 1]))
    decreases |s|
  {
    if s != [] {
      var c := CollapseSpace(s);
      var k := if IsJsSpace(s[0]) then RunEnd(s, 0, IsJsSpace) else 1;
      var head := if IsJsSpace(s[0]) then " " else [s[0]];
      var rest := CollapseSpace(s[k..]);
      assert c == head + rest;
      CollapseKeepsLastSpace(s[k..]);
      if rest == [] {
        assert s[k..] == [];
        assert c[|c| - 1] == head[0];
      } else {
        assert c[|c| - 1] == rest[|rest| - 1];
        assert s[k..][|s[k..]| - 1] == s[|s| - 1];
      }
    }
  }

  /** The normalised form: single blanks only, none at either end. */
  predicate Normalised(s: string) {
    SingleBlanks(s) && NoEdgeSpace(s)
  }

  /** A slice of a string with single blanks has single blanks. */
  lemma SingleBlanksSlice(s: string, a: nat, b: nat)
    requires SingleBlanks(s) && a <= b <= |s|
    ensures SingleBlanks(s[a..b])
  {
    var t := s[a..b];
    forall i | 0 <= i < |t| - 1
      ensures !(IsJsSpace(t[i]) && IsJsSpace(t[i + 1]))
    {
      assert t[i] == s[a + i] && t[i + 1] == s[a + i + 1];
    }
  }

  /** The transcript exactly as the recognition handler sends it to the parser. */
  function Normalise(s: string): (r: string)
    ensures Normalised(r)
    ensures forall i :: 0 <= i < |r| ==> r[i] != '\n'
  {
    var c := CollapseSpace(ReplaceNewlines(s));
    TrimKeepsSingleBlanks(c);
    Trim(c)
  }

  lemma TrimKeepsSingleBlanks(c: string)
    requires SingleBlanks(c)
    ensures SingleBlanks(Trim(c))
  {
    var a := SpaceRunEnd(c, 0);
    SingleBlanksSlice(c, a, a + |Trim(c)|);
  }

  /** A string that already has single blanks is left unchanged by collapsing. */
  lemma {:induction false} CollapseOfSingleBlanks(s: string)
    requires SingleBlanks(s)
    ensures CollapseSpace(s) == s
    decreases |s|
  {
    if s != [] {
      SingleBlanksSlice(s, 1, |s|);
      CollapseOfSingleBlanks(s[1..]);
      if IsJsSpace(s[0]) {
        assert |s| > 1 ==> !IsJsSpace(s[1]);
        assert RunEnd(s, 0, IsJsSpace) == 1;
        assert s == " " + s[1..];
      } else {
        assert s == [s[0]] + s[1..];
      }
    }
  }

  /** A normalised transcript is its own normal form. */
  lemma NormaliseOfNormalised(s: string)
    requires Normalised(s)
    ensures Normalise(s) == s
  {
    assert ReplaceNewlines(s) == s;
    CollapseOfSingleBlanks(s);
    TrimOfTrimmed(s);
  }

  /** Normalising twice equals normalising once. */
  lemma NormaliseIdempotent(s: string)
    ensures Normalise(Normalise(s)) == Normalise(s)
  {
    NormaliseOfNormalised(Normalise(s));
  }

  lemma {:induction false} NonSpaceOfReplaceNewlines(s: string)
    ensures NonSpace(ReplaceNewlines(s)) == NonSpace(s)
    decreases |s|
  {
    if s != [] {
      assert ReplaceNewlines(s)[1..] == ReplaceNewlines(s[1..]);
      NonSpaceOfReplaceNewlines(s[1..]);
    }
  }

  lemma {:induction false} NonSpaceOfCollapse(s: string)
    ensures NonSpace(CollapseSpace(s)) == NonSpace(s)
    decreases |s|
  {
    if s != [] {
      if IsJsSpace(s[0]) {
        var e := RunEnd(s, 0, IsJsSpace);
        var rest := CollapseSpace(s[e..]);
        assert CollapseSpace(s) == " " + rest;
        NonSpaceOfCollapse(s[e..]);
        assert s == s[..e] + s[e..];
        NonSpaceAppend(s[..e], s[e..]);
        NonSpaceOfSpaces(s[..e]);
        NonSpaceAppend(" ", rest);
        assert NonSpace(" ") == [];
      } else {
        var rest := CollapseSpace(s[1..]);
        assert CollapseSpace(s) == [s[0]] + rest;
        NonSpaceOfCollapse(s[1..]);
        NonSpaceAppend([s[0]], rest);
        NonSpaceAppend([s[0]], s[1..]);
        assert s == [s[0]] + s[1..];
      }
    }
  }

  /** Normalisation changes white space only: the other characters survive in order. */
  lemma NormaliseKeepsNonSpace(s: string)
    ensures NonSpace(Normalise(s)) == NonSpace(s)
  {
    var c := CollapseSpace(ReplaceNewlines(s));
    NonSpaceOfReplaceNewlines(s);
    NonSpaceOfCollapse(ReplaceNewlines(s));
    TrimKeepsNonSpace(c);
  }

  lemma {:induction false} ReplaceNewlinesKeepsWordsFrom(word: string, s: string)
    requires word == [] || IsWord(word)
    ensures WordsFrom(word, ReplaceNewlines(s)) == WordsFrom(word, s)
    decreases |s|
  {
    if s != [] {
      var t := ReplaceNewlines(s);
      assert t[0] == (if s[0] == '\n' then ' ' else s[0]);
      assert t[1..] == ReplaceNewlines(s[1..]);
      if IsJsSpace(s[0]) {
        ReplaceNewlinesKeepsWordsFrom([], s[1..]);
      } else {
        ReplaceNewlinesKeepsWordsFrom(word + [s[0]], s[1..]);
      }
    }
  }

  lemma {:induction false} CollapseKeepsWordsFrom(word: string, s: string)
    requires word == [] || IsWord(word)
    ensures WordsFrom(word, CollapseSpace(s)) == WordsFrom(word, s)
    decreases |s|
  {
    if s != [] {
      if IsJsSpace(s[0]) {
        var e := RunEnd(s, 0, IsJsSpace);
        var rest := CollapseSpace(s[e..]);
        assert (" " + rest)[0] == ' ' && (" " + rest)[1..] == rest;
        CollapseKeepsWordsFrom([], s[e..]);
        assert s == s[..e] + s[e..];
        WordsAfterSpaces(word, s[..e], s[e..]);
      } else {
        var rest := CollapseSpace(s[1..]);
        assert ([s[0]] + rest)[0] == s[0] && ([s[0]] + rest)[1..] == rest;
        CollapseKeepsWordsFrom(word + [s[0]], s[1..]);
      }
    }
  }

  /** Collapsing white space keeps every word, in order: a run between two words becomes one blank, not none. */
  lemma CollapseKeepsWords(s: string)
    ensures Words(CollapseSpace(s)) == Words(s)
  {
    CollapseKeepsWordsFrom([], s);
  }

  /** Normalisation keeps every word of the transcript, in order. */
  lemma NormaliseKeepsWords(s: string)
    ensures Words(Normalise(s)) == Words(s)
  {
    var n := ReplaceNewlines(s);
    ReplaceNewlinesKeepsWordsFrom([], s);
    CollapseKeepsWords(n);
    TrimKeepsWords(CollapseSpace(n));
  }

  /** The words joined with one blank between each two (`words.join(" ")`). */
  function Join(ws: seq<string>): string {
    if ws == [] then []
    else if |ws| == 1 then ws[0]
    else ws[0] + " " + Join(ws[1..])
  }

  /** Reading a string with single blanks and no trailing white space, after the partial word `word`, and joining the words gives back `word + s`. */
  lemma {:induction false} JoinWordsFrom(word: string, s: string)
    requires word == [] || IsWord(word)
    requires SingleBlanks(s)
    requires s != [] ==> !IsJsSpace(s[|s| - 1])
    requires word == [] && s != [] ==> !IsJsSpace(s[0])
    ensures Join(WordsFrom(word, s)) == word + s
    decreases |s|
  {
    if s == [] {
      assert word + s == word;
    } else {
      SingleBlanksSlice(s, 1, |s|);
      if IsJsSpace(s[0]) {
        assert |s| >= 2 && !IsJsSpace(s[1]) && s[0] == ' ';
        JoinWordsFrom([], s[1..]);
        var rest := WordsFrom([], s[1..]);
        assert rest != [];
        assert Join([word] + rest) == word + " " + Join(rest) by {
          assert ([word] + rest)[1..] == rest;
        }
        assert word + s == word + " " + s[1..];
      } else {
        JoinWordsFrom(word + [s[0]], s[1..]);
        assert word + [s[0]] + s[1..] == word + s;
      }
    }
  }

  /** A normalised string is its words joined by single blanks. */
  lemma NormalisedIsJoinedWords(s: string)
    requires Normalised(s)
    ensures s == Join(Words(s))
  {
    JoinWordsFrom([], s);
  }

  /**
   * The sent transcript is the words of the spoken text joined by single
   * blanks: the only normalised string with the same words.
   */
  lemma NormaliseIsJoinedWords(s: string)
    ensures Normalise(s) == Join(Words(s))
  {
    NormaliseKeepsWords(s);
    NormalisedIsJoinedWords(Normalise(s));
  }
}
