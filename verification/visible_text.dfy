/**
 * Whitespace handling of the job-extraction route
 * (app/api/extract-job-info/route.ts): `extractJobText` turns every run
 * of whitespace in the page's body text into one space and trims the
 * ends. The body text itself, as cheerio extracts it from the HTML, is an
 * input here.
 */
module VisibleText {

  /**
   * The characters JavaScript's `\s` matches, which are also the ones
   * `String.prototype.trim` removes: the ECMAScript WhiteSpace and
   * LineTerminator characters.
   */
  predicate IsSpace(c: char)
  {
    || c == '\t' || c == '\n' || c == '\U{000B}' || c == '\U{000C}' || c == '\r'
    || c == ' ' || c == '\U{00A0}' || c == '\U{1680}'
    || ('\U{2000}' <= c <= '\U{200A}')
    || c == '\U{2028}' || c == '\U{2029}' || c == '\U{202F}' || c == '\U{205F}'
    || c == '\U{3000}' || c == '\U{FEFF}'
  }

  /**
   * `replace(/\s+/g, " ")`, scanning left to right; `inRun` says that the
   * character before `s` was whitespace already replaced by the one space.
   * The only whitespace left is single plain spaces, and none comes first
   * while a run is under way.
   */
  function CollapseRuns(s: string, inRun: bool): (r: string)
    ensures OnlyPlainSpaces(r) && NoDoubleSpace(r)
    ensures inRun && r != [] ==> !IsSpace(r[0])
  {
    if s == [] then []
    else if IsSpace(s[0]) then
      if inRun then CollapseRuns(s[1..], true) else " " + CollapseRuns(s[1..], true)
    else [s[0]] + CollapseRuns(s[1..], false)
  }

  function CollapseWhitespace(s: string): string
  {
    CollapseRuns(s, false)
  }

  /** Leading whitespace removed: what is left is a suffix of `s`. */
  function TrimStart(s: string): (r: string)
    ensures |r| <= |s| && r == s[|s| - |r|..]
    ensures r == [] || !IsSpace(r[0])
    ensures forall i :: 0 <= i < |s| - |r| ==> IsSpace(s[i])
  {
    if s != [] && IsSpace(s[0]) then TrimStart(s[1..]) else s
  }

  /** Trailing whitespace removed: what is left is a prefix of `s`. */
  function TrimEnd(s: string): (r: string)
    ensures |r| <= |s| && r == s[..|r|]
    ensures r == [] || !IsSpace(r[|r| - 1])
    ensures forall i :: |r| <= i < |s| ==> IsSpace(s[i])
  {
    if s != [] && IsSpace(s[|s| - 1]) then TrimEnd(s[..|s| - 1]) else s
  }

  /** `r` occurs in `s` starting at index `lo`. */
  predicate SliceAt(s: string, r: string, lo: nat)
  {
    lo + |r| <= |s| && r == s[lo..lo + |r|]
  }

  /**
   * `String.prototype.trim`: what is left is a contiguous slice of `s` with
   * no whitespace at either end, only whitespace is removed, and a text
   * already without edge whitespace is returned as it is.
   */
  function Trim(s: string): (r: string)
    ensures NoEdgeSpace(r)
    ensures |r| <= |s|
    ensures NonSpace(r) == NonSpace(s)
    ensures NoEdgeSpace(s) ==> r == s
    ensures exists lo: nat :: SliceAt(s, r, lo)
  {
    var a := TrimStart(s);
    var lo := |s| - |a|;
    assert SliceAt(s, TrimEnd(a), lo);
    NonSpaceTrimStart(s);
    NonSpaceTrimEnd(a);
    assert TrimEnd(a) != [] ==> TrimEnd(a)[0] == a[0];
    TrimEnd(a)
  }

  /**
   * `extractJobText` applied to the page's body text: the words of the
   * text, each a maximal run of non-whitespace characters, joined by
   * single spaces.
   */
  function ExtractJobText(bodyText: string): (r: string)
    ensures IsNormalized(r)
    ensures Words(r) == Words(bodyText)
    ensures r == JoinWords(Words(bodyText))
  {
    var collapsed := CollapseWhitespace(bodyText);
    TrimKeepsShape(collapsed);
    WordsCollapse(bodyText, false, []);
    WordsTrimStart(collapsed);
    WordsTrimEnd(TrimStart(collapsed));
    NormalizedIsJoined(Trim(collapsed));
    Trim(collapsed)
  }

  /** Neither end of `t` is whitespace. */
  predicate NoEdgeSpace(t: string)
  {
    t == [] || (!IsSpace(t[0]) && !IsSpace(t[|t| - 1]))
  }

  /** The only whitespace character in `t` is the plain space. */
  predicate OnlyPlainSpaces(t: string)
  {
    forall i :: 0 <= i < |t| && IsSpace(t[i]) ==> t[i] == ' '
  }

  /** No two adjacent characters of `t` are both whitespace. */
  predicate NoDoubleSpace(t: string)
  {
    forall i :: 0 < i < |t| && IsSpace(t[i]) ==> !IsSpace(t[i - 1])
  }

  /** The shape `extractJobText` promises of its output. */
  predicate IsNormalized(t: string)
  {
    NoEdgeSpace(t) && OnlyPlainSpaces(t) && NoDoubleSpace(t)
  }

  /** The non-whitespace characters of `s`, in order. */
  function NonSpace(s: string): string
  {
    if s == [] then []
    else if IsSpace(s[0]) then NonSpace(s[1..])
    else [s[0]] + NonSpace(s[1..])
  }

  /** A slice of a text free of non-plain and doubled whitespace is free of them too. */
  lemma SliceKeepsShape(t: string, lo: nat, hi: nat)
    requires lo <= hi <= |t|
    requires OnlyPlainSpaces(t) && NoDoubleSpace(t)
    ensures OnlyPlainSpaces(t[lo..hi]) && NoDoubleSpace(t[lo..hi])
  {
    var u := t[lo..hi];
    assert forall i :: 0 <= i < |u| ==> u[i] == t[lo + i];
  }

  /** Trimming keeps a text free of non-plain and doubled whitespace. */
  lemma TrimKeepsShape(t: string)
    requires OnlyPlainSpaces(t) && NoDoubleSpace(t)
    ensures IsNormalized(Trim(t))
  {
    var a := TrimStart(t);
    var lo := |t| - |a|;
    SliceKeepsShape(t, lo, |t|);
    SliceKeepsShape(a, 0, |TrimEnd(a)|);
  }

  /** A word: a non-empty run of non-whitespace characters. */
  predicate IsWord(w: string)
  {
    w != [] && forall i :: 0 <= i < |w| ==> !IsSpace(w[i])
  }

  /** The word under way, if any, as a list of at most one word. */
  function Flush(cur: string): seq<string>
  {
    if cur == [] then [] else [cur]
  }

  /**
   * The maximal runs of non-whitespace characters of `s`, in order, the
   * first one continuing the run `cur` already under way.
   */
  function WordsFrom(s: string, cur: string): seq<string>
  {
    if s == [] then Flush(cur)
    else if IsSpace(s[0]) then Flush(cur) + WordsFrom(s[1..], [])
    else WordsFrom(s[1..], cur + [s[0]])
  }

  /** Every piece the scan yields is a word. */
  lemma {:induction false} WordsFromAreWords(s: string, cur: string)
    requires cur == [] || IsWord(cur)
    ensures forall i :: 0 <= i < |WordsFrom(s, cur)| ==> IsWord(WordsFrom(s, cur)[i])
  {
    if s != [] {
      if IsSpace(s[0]) {
        WordsFromAreWords(s[1..], []);
      } else {
        WordsFromAreWords(s[1..], cur + [s[0]]);
      }
    }
  }

  /** The words of `s`: `s.split(/\s+/)` without its empty pieces. */
  function Words(s: string): (r: seq<string>)
    ensures forall i :: 0 <= i < |r| ==> IsWord(r[i])
  {
    WordsFromAreWords(s, []);
    WordsFrom(s, [])
  }

  /** `words.join(" ")`. */
  function JoinWords(ws: seq<string>): string
  {
    if ws == [] then [] else if |ws| == 1 then ws[0] else ws[0] + " " + JoinWords(ws[1..])
  }

  /** Collapsing whitespace runs keeps the words. */
  lemma {:induction false} WordsCollapse(s: string, inRun: bool, cur: string)
    requires inRun ==> cur == []
    ensures WordsFrom(CollapseRuns(s, inRun), cur) == WordsFrom(s, cur)
  {
    if s != [] {
      if IsSpace(s[0]) {
        WordsCollapse(s[1..], true, []);
        if !inRun {
          var rest := CollapseRuns(s[1..], true);
          assert (" " + rest)[1..] == rest;
        }
      } else {
        WordsCollapse(s[1..], false, cur + [s[0]]);
        var rest := CollapseRuns(s[1..], false);
        assert ([s[0]] + rest)[1..] == rest;
      }
    }
  }

  /** Leading whitespace carries no word. */
  lemma {:induction false} WordsTrimStart(s: string)
    ensures Words(TrimStart(s)) == Words(s)
  {
    if s != [] && IsSpace(s[0]) {
      WordsTrimStart(s[1..]);
    }
  }

  /** One whitespace character at the end ends the last word and adds none. */
  lemma {:induction false} WordsSpaceEnd(s: string, c: char, cur: string)
    requires IsSpace(c)
    ensures WordsFrom(s + [c], cur) == WordsFrom(s, cur)
  {
    if s == [] {
      assert [] + [c] == [c] && [c][1..] == [];
    } else {
      assert (s + [c])[0] == s[0] && (s + [c])[1..] == s[1..] + [c];
      if IsSpace(s[0]) {
        WordsSpaceEnd(s[1..], c, []);
      } else {
        WordsSpaceEnd(s[1..], c, cur + [s[0]]);
      }
    }
  }

  /** Trailing whitespace carries no word. */
  lemma {:induction false} WordsTrimEnd(s: string)
    ensures Words(TrimEnd(s)) == Words(s)
  {
    if s != [] && IsSpace(s[|s| - 1]) {
      var init := s[..|s| - 1];
      WordsTrimEnd(init);
      assert s == init + [s[|s| - 1]];
      WordsSpaceEnd(init, s[|s| - 1], []);
    }
  }

  /** Joining a word in front of a non-empty list puts one space after it. */
  lemma JoinWordsCons(w: string, ws: seq<string>)
    requires ws != []
    ensures JoinWords([w] + ws) == w + " " + JoinWords(ws)
  {
    assert ([w] + ws)[1..] == ws;
  }

  /** A text with single plain spaces only between words is its words joined by spaces. */
  lemma {:induction false} NormalizedIsJoinedFrom(t: string, cur: string)
    requires OnlyPlainSpaces(t) && NoDoubleSpace(t)
    requires t == [] || !IsSpace(t[|t| - 1])
    requires cur == [] && t != [] ==> !IsSpace(t[0])
    ensures cur + t == JoinWords(WordsFrom(t, cur))
  {
    if t != [] {
      var tail := t[1..];
      SliceKeepsShape(t, 1, |t|);
      assert tail == [] || tail[|tail| - 1] == t[|t| - 1];
      if IsSpace(t[0]) {
        assert |t| > 1 && tail[0] == t[1];
        NormalizedIsJoinedFrom(tail, []);
        var ws := WordsFrom(tail, []);
        assert WordsFrom(t, cur) == [cur] + ws;
        JoinWordsCons(cur, ws);
        assert t == [t[0]] + tail && t[0] == ' ';
      } else {
        NormalizedIsJoinedFrom(tail, cur + [t[0]]);
        assert cur + t == (cur + [t[0]]) + tail;
      }
    }
  }

  /** A normalised text is its words joined by single spaces. */
  lemma NormalizedIsJoined(t: string)
    requires IsNormalized(t)
    ensures t == JoinWords(Words(t))
  {
    NormalizedIsJoinedFrom(t, []);
  }

  /** Collapsing changes nothing in a text that has only single plain spaces. */
  lemma {:induction false} CollapseRunsFixed(t: string, inRun: bool)
    requires OnlyPlainSpaces(t) && NoDoubleSpace(t)
    requires inRun && t != [] ==> !IsSpace(t[0])
    ensures CollapseRuns(t, inRun) == t
  {
    if t != [] {
      var tail := t[1..];
      assert OnlyPlainSpaces(tail) by {
        assert forall i :: 0 <= i < |tail| ==> tail[i] == t[i + 1];
      }
      assert NoDoubleSpace(tail) by {
        assert forall i :: 0 <= i < |tail| ==> tail[i] == t[i + 1];
      }
      if |t| > 1 && IsSpace(t[0]) {
        assert !IsSpace(t[1]);
      }
      CollapseRunsFixed(tail, IsSpace(t[0]));
      if IsSpace(t[0]) {
        assert t[0] == ' ';
        assert t == " " + tail;
      } else {
        assert t == [t[0]] + tail;
      }
    }
  }

  /** Normalising a normalised text gives it back unchanged. */
  lemma NormalizedIsFixed(t: string)
    requires IsNormalized(t)
    ensures ExtractJobText(t) == t
  {
    CollapseRunsFixed(t, false);
  }

  /** `extractJobText` is idempotent. */
  lemma ExtractJobTextIdempotent(bodyText: string)
    ensures ExtractJobText(ExtractJobText(bodyText)) == ExtractJobText(bodyText)
  {
    NormalizedIsFixed(ExtractJobText(bodyText));
  }

  lemma {:induction false} NonSpaceAppend(a: string, b: string)
    ensures NonSpace(a + b) == NonSpace(a) + NonSpace(b)
  {
    if a == [] {
      assert a + b == b;
    } else {
      assert (a + b)[0] == a[0];
      assert (a + b)[1..] == a[1..] + b;
      NonSpaceAppend(a[1..], b);
    }
  }

  lemma {:induction false} NonSpaceCollapse(s: string, inRun: bool)
    ensures NonSpace(CollapseRuns(s, inRun)) == NonSpace(s)
  {
    if s != [] {
      NonSpaceCollapse(s[1..], IsSpace(s[0]));
      var rest := CollapseRuns(s[1..], IsSpace(s[0]));
      if IsSpace(s[0]) && !inRun {
        assert (" " + rest)[1..] == rest;
      } else if !IsSpace(s[0]) {
        assert ([s[0]] + rest)[1..] == rest;
      }
    }
  }

  lemma {:induction false} NonSpaceTrimStart(s: string)
    ensures NonSpace(TrimStart(s)) == NonSpace(s)
  {
    if s != [] && IsSpace(s[0]) {
      NonSpaceTrimStart(s[1..]);
    }
  }

  lemma {:induction false} NonSpaceTrimEnd(s: string)
    ensures NonSpace(TrimEnd(s)) == NonSpace(s)
  {
    if s != [] && IsSpace(s[|s| - 1]) {
      var init := s[..|s| - 1];
      NonSpaceTrimEnd(init);
      assert s == init + [s[|s| - 1]];
      NonSpaceAppend(init, [s[|s| - 1]]);
    }
  }

  /** Normalisation keeps every non-whitespace character, in order. */
  lemma ExtractJobTextKeepsContent(bodyText: string)
    ensures NonSpace(ExtractJobText(bodyText)) == NonSpace(bodyText)
  {
    NonSpaceCollapse(bodyText, false);
  }

  /** A run of non-whitespace characters extends the word under way. */
  lemma {:induction false} WordsFromRun(w: string, rest: string, cur: string)
    requires forall i :: 0 <= i < |w| ==> !IsSpace(w[i])
    ensures WordsFrom(w + rest, cur) == WordsFrom(rest, cur + w)
  {
    if w == [] {
      assert w + rest == rest && cur + w == cur;
    } else {
      assert (w + rest)[0] == w[0] && (w + rest)[1..] == w[1..] + rest;
      WordsFromRun(w[1..], rest, cur + [w[0]]);
      assert cur + [w[0]] + w[1..] == cur + w;
    }
  }

  /** A non-empty whitespace run ends the word under way. */
  lemma {:induction false} WordsFromGap(gap: string, rest: string, cur: string)
    requires gap != [] && forall i :: 0 <= i < |gap| ==> IsSpace(gap[i])
    ensures WordsFrom(gap + rest, cur) == Flush(cur) + WordsFrom(rest, [])
  {
    assert (gap + rest)[0] == gap[0] && (gap + rest)[1..] == gap[1..] + rest;
    if |gap| > 1 {
      WordsFromGap(gap[1..], rest, []);
    } else {
      assert gap[1..] + rest == rest;
    }
  }

  /** Any whitespace run between two words becomes exactly one space. */
  lemma OneSpaceBetweenWords(a: string, gap: string, b: string)
    requires IsWord(a) && IsWord(b)
    requires gap != [] && forall i :: 0 <= i < |gap| ==> IsSpace(gap[i])
    ensures ExtractJobText(a + gap + b) == a + " " + b
  {
    assert a + gap + b == a + (gap + b);
    WordsFromRun(a, gap + b, []);
    assert [] + a == a;
    WordsFromGap(gap, b, a);
    WordsFromRun(b, [], []);
    assert b + [] == b && [] + b == b;
    assert Words(a + gap + b) == [a, b];
    assert [a, b] == [a] + [b];
    JoinWordsCons(a, [b]);
  }

  /** Newlines, tabs and space runs each become one space. */
  lemma ExtractJobTextExample()
    ensures ExtractJobText("a\n\n  b\t c") == "a b c"
  {
    var s := "a\n\n  b\t c";
    assert CollapseRuns(s[8..], true) == "c";
    assert CollapseRuns(s[7..], true) == "c";
    assert CollapseRuns(s[6..], false) == " c";
    assert CollapseRuns(s[5..], true) == "b c";
    assert CollapseRuns(s[4..], true) == "b c";
    assert CollapseRuns(s[3..], true) == "b c";
    assert CollapseRuns(s[2..], true) == "b c";
    assert CollapseRuns(s[1..], false) == " b c";
    assert CollapseWhitespace(s) == "a b c";
    NormalizedIsFixed("a b c");
  }
}
