/**
 * The ECMAScript string primitives the chat client leans on: `split('\n')`,
 * `trim()`, `split(/\s+/)` and `join`, written out over `seq<char>`.
 */
module Text {

  /** The characters ECMAScript's `trim` removes and its `\s` class matches. */
  predicate IsSpace(c: char) {
    || c == ' ' || c == '\t' || c == '\n' || c == '\r' || c == '\U{B}' || c == '\U{C}'
    || c == '\U{A0}' || c == '\U{1680}' || ('\U{2000}' <= c <= '\U{200A}')
    || c == '\U{2028}' || c == '\U{2029}' || c == '\U{202F}' || c == '\U{205F}'
    || c == '\U{3000}' || c == '\U{FEFF}'
  }

  predicate AllSpace(s: string) {
    forall i :: 0 <= i < |s| ==> IsSpace(s[i])
  }

  predicate NoSpace(s: string) {
    forall i :: 0 <= i < |s| ==> !IsSpace(s[i])
  }

  function Last<T>(s: seq<T>): T
    requires |s| > 0
  {
    s[|s| - 1]
  }

  /** Everything but the last element: what `lines.pop()` leaves behind. */
  function Front<T>(s: seq<T>): seq<T>
    requires |s| > 0
  {
    s[..|s| - 1]
  }

  /** `parts.join(sep)`. */
  function Join(parts: seq<string>, sep: string): string {
    if |parts| == 0 then ""
    else if |parts| == 1 then parts[0]
    else parts[0] + sep + Join(parts[1..], sep)
  }

  /**
   * `s.split('\n')`: the pieces between line feeds. There is always at least
   * one piece and no piece holds a line feed.
   */
  function Split(s: string): (r: seq<string>)
    ensures |r| >= 1
    ensures forall k :: 0 <= k < |r| ==> '\n' !in r[k]
  {
    if |s| == 0 then [""]
    else if s[0] == '\n' then [""] + Split(s[1..])
    else
      var rest := Split(s[1..]);
      [[s[0]] + rest[0]] + rest[1..]
  }

  lemma JoinCons(c: string, parts: seq<string>, sep: string)
    requires |parts| >= 1
    ensures Join([c + parts[0]] + parts[1..], sep) == c + Join(parts, sep)
  {
    var q := [c + parts[0]] + parts[1..];
    if |parts| > 1 {
      assert q[1..] == parts[1..];
    }
  }

  /** Joining the pieces of a split with line feeds gives back the original text. */
  lemma {:induction false} SplitJoin(s: string)
    ensures Join(Split(s), "\n") == s
  {
    if |s| == 0 {
    } else if s[0] == '\n' {
      SplitJoin(s[1..]);
      var rest := Split(s[1..]);
      assert ([""] + rest)[1..] == rest;
    } else {
      SplitJoin(s[1..]);
      var rest := Split(s[1..]);
      JoinCons([s[0]], rest, "\n");
      assert [s[0]] + s[1..] == s;
    }
  }

  /** Splitting line-feed-free pieces joined with line feeds gives back the pieces. */
  lemma {:induction false} JoinSplit(parts: seq<string>)
    requires |parts| >= 1
    requires forall k :: 0 <= k < |parts| ==> '\n' !in parts[k]
    ensures Split(Join(parts, "\n")) == parts
  {
    if |parts| == 1 {
      PieceSplit(parts[0], "");
      assert parts[0] + "" == parts[0];
      assert Split("") == [""];
    } else {
      JoinSplit(parts[1..]);
      var t := Join(parts[1..], "\n");
      assert Join(parts, "\n") == parts[0] + ("\n" + t);
      PieceSplit(parts[0], "\n" + t);
      assert ("\n" + t)[1..] == t;
      assert Split("\n" + t) == [""] + parts[1..];
      assert parts[0] + "" == parts[0];
      assert parts == [parts[0]] + parts[1..];
    }
  }

  /** A line-feed-free piece in front of a text extends that text's first piece. */
  lemma {:induction false} PieceSplit(w: string, t: string)
    requires '\n' !in w
    ensures Split(w + t) == [w + Split(t)[0]] + Split(t)[1..]
  {
    if |w| > 0 {
      PieceSplit(w[1..], t);
      assert w[0] in w && w == [w[0]] + w[1..];
      PieceStep(w[0], w[1..], t);
    } else {
      assert w + t == t;
      assert w + Split(t)[0] == Split(t)[0];
      assert Split(t) == [Split(t)[0]] + Split(t)[1..];
    }
  }

  /** The step of `PieceSplit`: a character other than a line feed goes in front of the rest. */
  lemma PieceStep(c: char, v: string, t: string)
    requires c != '\n'
    requires Split(v + t) == [v + Split(t)[0]] + Split(t)[1..]
    ensures Split(([c] + v) + t) == [([c] + v) + Split(t)[0]] + Split(t)[1..]
  {
    Regroup(c, v, t);
    SplitChar(c, v + t);
    Prepend(c, v, Split(t));
  }

  /** Moving a first character out of a concatenation. */
  lemma Regroup(c: char, v: string, t: string)
    ensures ([c] + v) + t == [c] + (v + t)
  {
  }

  /**
   * Splitting a concatenation: the complete pieces of `x` stay as they are, and
   * the last piece of `x` is continued by `y`. This is what lets a carry-over
   * buffer hold back the last piece between chunks.
   */
  lemma {:induction false} SplitAppend(x: string, y: string)
    ensures Split(x + y) == Front(Split(x)) + Split(Last(Split(x)) + y)
  {
    if |x| == 0 {
      assert x + y == y;
    } else {
      SplitAppend(x[1..], y);
      if x[0] == '\n' {
        SplitAppendBreak(x, y);
      } else {
        SplitAppendChar(x, y);
      }
    }
  }

  /** The step of `SplitAppend` for a text that starts with a line break. */
  lemma SplitAppendBreak(x: string, y: string)
    requires |x| > 0 && x[0] == '\n'
    requires Split(x[1..] + y) == Front(Split(x[1..])) + Split(Last(Split(x[1..])) + y)
    ensures Split(x + y) == Front(Split(x)) + Split(Last(Split(x)) + y)
  {
    BreakSplits(x, y);
    BreakPieces(Split(x[1..]), Split(x[1..] + y), Split(x), Split(x + y), y);
  }

  /** Both `x` and `x + y` start with a line break, so each splits into an empty piece and the rest. */
  lemma BreakSplits(x: string, y: string)
    requires |x| > 0 && x[0] == '\n'
    ensures Split(x) == [""] + Split(x[1..])
    ensures Split(x + y) == [""] + Split(x[1..] + y)
  {
    SplitBreak(x[1..]);
    assert x == "\n" + x[1..];
    SplitBreak(x[1..] + y);
    assert x + y == "\n" + (x[1..] + y);
  }

  /** The step of `SplitAppend` for a text that starts with any other character. */
  lemma SplitAppendChar(x: string, y: string)
    requires |x| > 0 && x[0] != '\n'
    requires Split(x[1..] + y) == Front(Split(x[1..])) + Split(Last(Split(x[1..])) + y)
    ensures Split(x + y) == Front(Split(x)) + Split(Last(Split(x)) + y)
  {
    var d := Split(x[1..]);
    CharSplits(x, y);
    if |d| == 1 {
      OnePiece(x[0], d, Split(x[1..] + y), Split(x), Split(x + y), y);
    } else {
      CharPieces([x[0]], d, Split(Last(d) + y));
    }
  }

  /** Both `x` and `x + y` start with the same character, which opens their first piece. */
  lemma CharSplits(x: string, y: string)
    requires |x| > 0 && x[0] != '\n'
    ensures Split(x) == [[x[0]] + Split(x[1..])[0]] + Split(x[1..])[1..]
    ensures Split(x + y) == [[x[0]] + Split(x[1..] + y)[0]] + Split(x[1..] + y)[1..]
  {
    SplitChar(x[0], x[1..]);
    assert x == [x[0]] + x[1..];
    SplitChar(x[0], x[1..] + y);
    assert x + y == [x[0]] + (x[1..] + y);
  }

  /** `SplitAppendChar` when the rest of the text is a single piece. */
  lemma OnePiece(c: char, d: seq<string>, b: seq<string>, sx: seq<string>, sxy: seq<string>, y: string)
    requires c != '\n' && |d| == 1
    requires b == Front(d) + Split(Last(d) + y)
    requires sx == [[c] + d[0]] + d[1..] && sxy == [[c] + b[0]] + b[1..]
    ensures sxy == Front(sx) + Split(Last(sx) + y)
  {
    assert sx == [[c] + d[0]] && Front(sx) == [] && Last(sx) == [c] + d[0];
    assert b == Split(d[0] + y);
    SplitChar(c, d[0] + y);
    assert [c] + (d[0] + y) == ([c] + d[0]) + y;
  }

  /** `Split` of a text that starts with a line break: an empty piece, then the rest. */
  lemma SplitBreak(s: string)
    ensures Split("\n" + s) == [""] + Split(s)
  {
    assert ("\n" + s)[1..] == s;
  }

  /** `Split` of a text that starts with another character: the character opens the first piece. */
  lemma SplitChar(c: char, s: string)
    requires c != '\n'
    ensures Split([c] + s) == [[c] + Split(s)[0]] + Split(s)[1..]
  {
    assert ([c] + s)[1..] == s;
  }

  /** The list arithmetic behind `SplitAppendBreak`. */
  lemma BreakPieces(d: seq<string>, b: seq<string>, sx: seq<string>, sxy: seq<string>, y: string)
    requires |d| > 0 && b == Front(d) + Split(Last(d) + y)
    requires sx == [""] + d && sxy == [""] + b
    ensures sxy == Front(sx) + Split(Last(sx) + y)
  {
    assert Front(sx) == [""] + Front(d) && Last(sx) == Last(d);
    assert [""] + (Front(d) + Split(Last(d) + y)) == ([""] + Front(d)) + Split(Last(d) + y);
  }

  /** The list arithmetic behind `SplitAppendChar`, when the rest has more than one piece. */
  lemma CharPieces(c: string, d: seq<string>, e: seq<string>)
    requires |d| > 1
    ensures var b := Front(d) + e;
            [c + b[0]] + b[1..] == Front([c + d[0]] + d[1..]) + e
    ensures Last([c + d[0]] + d[1..]) == Last(d)
  {
    var b := Front(d) + e;
    assert b[0] == d[0] && b[1..] == Front(d)[1..] + e;
    assert Front([c + d[0]] + d[1..]) == [c + d[0]] + Front(d)[1..];
  }

  /** `s.trimStart()`: drops the leading white space and nothing else. */
  function TrimStart(s: string): (r: string)
    ensures |r| <= |s| && r == s[|s| - |r|..]
    ensures AllSpace(s[..|s| - |r|])
    ensures r == "" || !IsSpace(r[0])
  {
    if |s| > 0 && IsSpace(s[0]) then TrimStart(s[1..]) else s
  }

  /** `s.trimEnd()`: drops the trailing white space and nothing else. */
  function TrimEnd(s: string): (r: string)
    ensures |r| <= |s| && r == s[..|r|]
    ensures AllSpace(s[|r|..])
    ensures r == "" || !IsSpace(Last(r))
  {
    if |s| > 0 && IsSpace(Last(s)) then TrimEnd(Front(s)) else s
  }

  /** `s.trim()`: the text between the leading and the trailing white space. */
  function Trim(s: string): (r: string)
    ensures r == "" <==> AllSpace(s)
    ensures r == "" || (!IsSpace(r[0]) && !IsSpace(Last(r)))
  {
    var t := TrimStart(s);
    assert AllSpace(t) ==> AllSpace(s) by {
      if AllSpace(t) {
        assert s == s[..|s| - |t|] + t;
      }
    }
    TrimEnd(t)
  }

  /**
   * `s.split(/\s+/)`: the pieces between maximal runs of white space. A
   * leading or trailing run yields an empty first or last piece.
   */
  function SplitWords(s: string): (r: seq<string>)
    ensures |r| >= 1
    ensures forall k :: 0 <= k < |r| ==> NoSpace(r[k])
    ensures forall k :: 0 < k < |r| - 1 ==> r[k] != ""
    ensures s != "" && !IsSpace(s[0]) ==> r[0] != ""
    decreases |s|
  {
    if |s| == 0 then [""]
    else if IsSpace(s[0]) then
      // a run of white space ends at a non-space character or at the end
      [""] + SplitWords(TrimStart(s))
    else
      var rest := SplitWords(s[1..]);
      [[s[0]] + rest[0]] + rest[1..]
  }

  /** Splitting single-space-joined words gives the words back. */
  lemma {:induction false} JoinSplitWords(ws: seq<string>)
    requires |ws| >= 1
    requires forall k :: 0 <= k < |ws| ==> ws[k] != "" && NoSpace(ws[k])
    ensures SplitWords(Join(ws, " ")) == ws
  {
    if |ws| == 1 {
      WordSplitWords(ws[0], "");
      assert ws[0] + "" == ws[0];
      assert SplitWords("") == [""];
    } else {
      JoinSplitWords(ws[1..]);
      var t := Join(ws[1..], " ");
      assert Join(ws, " ") == ws[0] + (" " + t);
      WordSplitWords(ws[0], " " + t);
      JoinStart(ws[1..]);
      assert TrimStart(" " + t) == t;
      assert SplitWords(" " + t) == [""] + ws[1..];
      assert ws[0] + "" == ws[0];
      assert ws == [ws[0]] + ws[1..];
    }
  }

  lemma {:induction false} JoinStart(ws: seq<string>)
    requires |ws| >= 1 && ws[0] != "" && NoSpace(ws[0])
    ensures Join(ws, " ") != "" && !IsSpace(Join(ws, " ")[0])
  {
    if |ws| > 1 {
      assert Join(ws, " ") == ws[0] + (" " + Join(ws[1..], " "));
    }
  }

  /** The text made of `words` with the run `gaps[k]` between `words[k]` and `words[k + 1]`. */
  function Weave(words: seq<string>, gaps: seq<string>): string
    requires |words| == |gaps| + 1
    decreases |gaps|
  {
    if |gaps| == 0 then words[0] else words[0] + (gaps[0] + Weave(words[1..], gaps[1..]))
  }

  /**
   * Words without white space, separated by non-empty runs of white space:
   * only the first and the last word may be empty (a leading or trailing
   * run).
   */
  predicate Separated(words: seq<string>, gaps: seq<string>) {
    && |words| == |gaps| + 1
    && (forall k :: 0 <= k < |words| ==> NoSpace(words[k]))
    && (forall k :: 0 < k < |words| - 1 ==> words[k] != "")
    && (forall k :: 0 <= k < |gaps| ==> gaps[k] != "" && AllSpace(gaps[k]))
  }

  /** The maximal runs of white space in `s`, in order: where `split(/\s+/)` cuts. */
  function Gaps(s: string): (r: seq<string>)
    ensures |r| == |SplitWords(s)| - 1
    ensures forall k :: 0 <= k < |r| ==> r[k] != "" && AllSpace(r[k])
    decreases |s|
  {
    if |s| == 0 then []
    else if IsSpace(s[0]) then
      var t := TrimStart(s);
      [s[..|s| - |t|]] + Gaps(t)
    else Gaps(s[1..])
  }

  /** Every text is its `split(/\s+/)` pieces put back together with its white-space runs. */
  lemma {:induction false} SplitWordsWeave(s: string)
    ensures Separated(SplitWords(s), Gaps(s))
    ensures Weave(SplitWords(s), Gaps(s)) == s
    decreases |s|
  {
    if |s| == 0 {
    } else if IsSpace(s[0]) {
      var t := TrimStart(s);
      SplitWordsWeave(t);
      GapWeave(s[..|s| - |t|], SplitWords(t), Gaps(t));
      assert s == s[..|s| - |t|] + t;
    } else {
      SplitWordsWeave(s[1..]);
      WordWeave(s[0], SplitWords(s[1..]), Gaps(s[1..]));
      assert s == [s[0]] + s[1..];
    }
  }

  /** A run of white space in front of a weave adds an empty first word. */
  lemma {:induction false} GapWeave(g: string, words: seq<string>, gaps: seq<string>)
    requires |words| == |gaps| + 1
    ensures Weave([""] + words, [g] + gaps) == g + Weave(words, gaps)
  {
    assert ([""] + words)[1..] == words && ([g] + gaps)[1..] == gaps;
  }

  /** A character in front of a weave extends its first word. */
  lemma {:induction false} WordWeave(c: char, words: seq<string>, gaps: seq<string>)
    requires |words| == |gaps| + 1
    ensures Weave([[c] + words[0]] + words[1..], gaps) == [c] + Weave(words, gaps)
  {
    var w := [[c] + words[0]] + words[1..];
    assert w[0] == [c] + words[0] && w[1..] == words[1..];
    if |gaps| > 0 {
      var rest := gaps[0] + Weave(words[1..], gaps[1..]);
      assert Weave(w, gaps) == ([c] + words[0]) + rest;
      assert Weave(words, gaps) == words[0] + rest;
      assert ([c] + words[0]) + rest == [c] + (words[0] + rest);
    }
  }

  /**
   * The converse of `SplitWordsWeave`: words separated by any runs of white
   * space split back into the same words.
   */
  lemma {:induction false} WeaveSplitWords(words: seq<string>, gaps: seq<string>)
    requires Separated(words, gaps)
    ensures SplitWords(Weave(words, gaps)) == words
    decreases |gaps|
  {
    if |gaps| == 0 {
      WordSplitWords(words[0], "");
      assert words[0] + "" == words[0];
      assert words == [words[0]];
    } else {
      var rest := Weave(words[1..], gaps[1..]);
      SeparatedTail(words, gaps);
      WeaveSplitWords(words[1..], gaps[1..]);
      WeaveStart(words[1..], gaps[1..]);
      SkipGap(gaps[0], rest);
      GapSplitWords(gaps[0], rest);
      WordSplitWords(words[0], gaps[0] + rest);
      assert words[0] + "" == words[0];
      assert words == [words[0]] + words[1..];
    }
  }

  /** Dropping the first word and the first run keeps the words separated. */
  lemma SeparatedTail(words: seq<string>, gaps: seq<string>)
    requires Separated(words, gaps) && |gaps| > 0
    ensures Separated(words[1..], gaps[1..])
  {
    assert forall k :: 0 <= k < |words| - 1 ==> words[1..][k] == words[k + 1];
    assert forall k :: 0 <= k < |gaps| - 1 ==> gaps[1..][k] == gaps[k + 1];
  }

  /** A weave starts with its first word, or is empty, or starts with white space only when its first word is empty. */
  lemma WeaveStart(words: seq<string>, gaps: seq<string>)
    requires Separated(words, gaps)
    ensures Weave(words, gaps) == "" || !IsSpace(Weave(words, gaps)[0]) || words[0] == ""
    ensures words[0] == "" && |gaps| == 0 ==> Weave(words, gaps) == ""
  {
    if words[0] != "" && |gaps| > 0 {
      assert Weave(words, gaps)[0] == words[0][0];
    }
  }

  /** `trimStart` drops a run of white space in front of a text that does not start with white space. */
  lemma {:induction false} SkipGap(g: string, t: string)
    requires AllSpace(g) && (t == "" || !IsSpace(t[0]))
    ensures TrimStart(g + t) == t
    decreases |g|
  {
    if |g| == 0 {
      assert g + t == t;
    } else {
      SkipGap(g[1..], t);
      assert (g + t)[1..] == g[1..] + t;
    }
  }

  /** A text that starts with a run of white space splits into an empty word and the rest. */
  lemma GapSplitWords(g: string, t: string)
    requires g != "" && AllSpace(g) && TrimStart(g + t) == t
    ensures SplitWords(g + t) == [""] + SplitWords(t)
  {
    assert (g + t)[0] == g[0];
  }

  /** A word without white space in front of a text extends that text's first word. */
  lemma {:induction false} WordSplitWords(w: string, t: string)
    requires NoSpace(w)
    ensures SplitWords(w + t) == [w + SplitWords(t)[0]] + SplitWords(t)[1..]
  {
    if |w| > 0 {
      WordSplitWords(w[1..], t);
      assert !IsSpace(w[0]) && w == [w[0]] + w[1..];
      WordStep(w[0], w[1..], t);
    } else {
      assert w + t == t;
      assert w + SplitWords(t)[0] == SplitWords(t)[0];
      assert SplitWords(t) == [SplitWords(t)[0]] + SplitWords(t)[1..];
    }
  }

  /** The step of `WordSplitWords`: a character other than white space goes in front of the rest. */
  lemma WordStep(c: char, v: string, t: string)
    requires !IsSpace(c)
    requires SplitWords(v + t) == [v + SplitWords(t)[0]] + SplitWords(t)[1..]
    ensures SplitWords(([c] + v) + t) == [([c] + v) + SplitWords(t)[0]] + SplitWords(t)[1..]
  {
    Regroup(c, v, t);
    WordChar(c, v + t);
    Prepend(c, v, SplitWords(t));
  }

  /** `SplitWords` of a text that starts with a character other than white space. */
  lemma WordChar(c: char, s: string)
    requires !IsSpace(c)
    ensures SplitWords([c] + s) == [[c] + SplitWords(s)[0]] + SplitWords(s)[1..]
  {
    assert ([c] + s)[1..] == s;
  }

  /** The list arithmetic behind `WordStep` and `PieceStep`. */
  lemma Prepend(c: char, v: string, pieces: seq<string>)
    requires |pieces| > 0
    ensures var r := [v + pieces[0]] + pieces[1..];
            [[c] + r[0]] + r[1..] == [([c] + v) + pieces[0]] + pieces[1..]
  {
    var r := [v + pieces[0]] + pieces[1..];
    assert r[0] == v + pieces[0] && r[1..] == pieces[1..];
    assert [c] + (v + pieces[0]) == ([c] + v) + pieces[0];
  }
}
