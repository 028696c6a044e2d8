/**
 * Newline-terminated text. The script writes every line of its output as the
 * line's text followed by "\n"; `Unlines` is that encoding, and `SplitLines`
 * is how a reader of the file recovers its lines.
 */
module Text {

  /** The text of `ls`, each line followed by a newline. */
  function Unlines(ls: seq<string>): (s: string)
    ensures |s| >= |ls|
  {
    if ls == [] then "" else ls[0] + "\n" + Unlines(ls[1..])
  }

  /** True when no line of `ls` holds a newline of its own. */
  predicate NoNewlines(ls: seq<string>)
  {
    forall i :: 0 <= i < |ls| ==> '\n' !in ls[i]
  }

  /** The length of the first line of `s`: the index of its first newline, or |s|. */
  function LineLength(s: string): (k: nat)
    ensures k <= |s|
    ensures k < |s| ==> s[k] == '\n'
    ensures '\n' !in s[..k]
  {
    if s == [] || s[0] == '\n' then 0 else 1 + LineLength(s[1..])
  }

  /** The lines of `s`; a final line without a newline still counts as a line. */
  function SplitLines(s: string): (ls: seq<string>)
    ensures NoNewlines(ls)
    decreases |s|
  {
    if s == [] then []
    else
      var k := LineLength(s);
      [s[..k]] + (if k < |s| then SplitLines(s[k + 1..]) else [])
  }

  lemma {:induction false} LineLengthOfLine(a: string, b: string)
    requires '\n' !in a
    ensures LineLength(a + "\n" + b) == |a|
  {
    if a != [] {
      assert (a + "\n" + b)[1..] == a[1..] + "\n" + b;
      LineLengthOfLine(a[1..], b);
    }
  }

  /** Unlines then SplitLines gives back the lines, as long as none holds a newline. */
  lemma {:induction false} SplitUnlines(ls: seq<string>)
    requires NoNewlines(ls)
    ensures SplitLines(Unlines(ls)) == ls
  {
    if ls != [] {
      var s := Unlines(ls);
      LineLengthOfLine(ls[0], Unlines(ls[1..]));
      assert s[..|ls[0]|] == ls[0];
      assert s[|ls[0]| + 1..] == Unlines(ls[1..]);
      SplitUnlines(ls[1..]);
    }
  }

  /** A text that is empty or ends in a newline is exactly the encoding of its lines. */
  lemma {:induction false} UnlinesSplit(s: string)
    requires s == [] || s[|s| - 1] == '\n'
    ensures Unlines(SplitLines(s)) == s
    decreases |s|
  {
    if s != [] {
      var k := LineLength(s);
      FirstLineEnds(s);
      var line, rest := s[..k], s[k + 1..];
      UnlinesSplit(rest);
      SplitLinesCons(s);
      assert ([line] + SplitLines(rest))[1..] == SplitLines(rest);
      calc {
        Unlines(SplitLines(s));
        Unlines([line] + SplitLines(rest));
        line + "\n" + Unlines(SplitLines(rest));
        line + "\n" + rest;
        { CutAtNewline(s, k); }
        s;
      }
    }
  }

  lemma CutAtNewline(s: string, k: nat)
    requires k < |s| && s[k] == '\n'
    ensures s == s[..k] + "\n" + s[k + 1..]
  {
  }

  /** In a text that ends in a newline, the first line ends before the text does, and what follows it ends in a newline too. */
  lemma FirstLineEnds(s: string)
    requires s != [] && s[|s| - 1] == '\n'
    ensures LineLength(s) < |s|
    ensures var rest := s[LineLength(s) + 1..]; rest == [] || rest[|rest| - 1] == '\n'
  {
  }

  lemma SplitLinesCons(s: string)
    requires s != [] && LineLength(s) < |s|
    ensures SplitLines(s) == [s[..LineLength(s)]] + SplitLines(s[LineLength(s) + 1..])
  {
  }

  /** The encoding of a list of lines is the encodings of its parts, one after the other. */
  lemma {:induction false} UnlinesAppend(a: seq<string>, b: seq<string>)
    ensures Unlines(a + b) == Unlines(a) + Unlines(b)
  {
    if a == [] {
      assert a + b == b;
    } else {
      assert (a + b)[1..] == a[1..] + b;
      UnlinesAppend(a[1..], b);
    }
  }

  /** Writing one more line appends its text and a newline. */
  lemma UnlinesSnoc(ls: seq<string>, l: string)
    ensures Unlines(ls + [l]) == Unlines(ls) + (l + "\n")
  {
    UnlinesAppend(ls, [l]);
    assert Unlines([l]) == l + "\n";
  }

  /** Four lines, written one after the other. */
  lemma UnlinesFour(a: string, b: string, c: string, d: string)
    ensures Unlines([a, b, c, d]) == (a + "\n") + (b + "\n") + (c + "\n") + (d + "\n")
  {
    assert [a, b, c, d][1..] == [b, c, d];
    assert [b, c, d][1..] == [c, d];
    assert [c, d][1..] == [d];
    assert Unlines([d]) == d + "\n";
    assert Unlines([c, d]) == (c + "\n") + (d + "\n");
    assert Unlines([b, c, d]) == (b + "\n") + (c + "\n") + (d + "\n");
  }

  /**
   * Four lines, a block of text, and four more lines, written one `write`
   * at a time (an empty line as a bare newline), make up the encoding of
   * the four lines, the block, and the four lines.
   */
  lemma WritesAroundBlock(h0: string, h1: string, h3: string, u: string, t1: string, t2: string, t3: string)
    ensures "" + (h0 + "\n") + (h1 + "\n") + "\n" + (h3 + "\n") + u + "\n" + (t1 + "\n") + (t2 + "\n") + (t3 + "\n")
         == Unlines([h0, h1, "", h3]) + u + Unlines(["", t1, t2, t3])
  {
    UnlinesFour(h0, h1, "", h3);
    UnlinesFour("", t1, t2, t3);
    var a, b, c, d := h0 + "\n", h1 + "\n", "" + "\n", h3 + "\n";
    var e, f, g, h := "" + "\n", t1 + "\n", t2 + "\n", t3 + "\n";
    assert "" + "\n" == "\n";
    assert "" + a == a;
    var p := a + b + c + d;
    calc {
      p + u + e + f + g + h;
      (p + u) + (e + f) + g + h;
      (p + u) + (e + f + g) + h;
      (p + u) + (e + f + g + h);
    }
  }

  /** A newline-terminated text ends in a newline. */
  lemma {:induction false} UnlinesEndsInNewline(ls: seq<string>)
    requires ls != []
    ensures var s := Unlines(ls); s[|s| - 1] == '\n'
  {
    if ls[1..] != [] {
      UnlinesEndsInNewline(ls[1..]);
    }
  }
}
