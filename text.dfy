/**
 * The Python string operations the resource server relies on:
 * `str.startswith`, `str.split(sep, 1)`, `str.split()` and `str.strip()`.
 * Python's argument-less `split` and `strip` both use `str.isspace`, so one
 * predicate, IsSpace, stands for the whitespace set of both.
 */
module Text {
  import opened Wrappers

  /** `c.isspace()` in Python 3: the ASCII controls \t \n \v \f \r, the
      separators \x1c-\x1f, the space, and the Unicode spaces and breaks. */
  predicate IsSpace(c: char) {
    || ('\t' <= c <= '\r')
    || ('\U{1C}' <= c <= '\U{1F}')
    || c == ' '
    || c == '\U{85}'
    || c == '\U{A0}'
    || c == '\U{1680}'
    || ('\U{2000}' <= c <= '\U{200A}')
    || c == '\U{2028}'
    || c == '\U{2029}'
    || c == '\U{202F}'
    || c == '\U{205F}'
    || c == '\U{3000}'
  }

  predicate AllSpace(s: string) {
    forall i :: 0 <= i < |s| ==> IsSpace(s[i])
  }

  /** A non-empty run of characters none of which is whitespace. */
  predicate IsWord(w: string) {
    w != [] && forall i :: 0 <= i < |w| ==> !IsSpace(w[i])
  }

  predicate AllWords(ws: seq<string>) {
    forall k :: 0 <= k < |ws| ==> IsWord(ws[k])
  }

  /** `s.startswith(prefix)` */
  predicate StartsWith(s: string, prefix: string) {
    |prefix| <= |s| && s[..|prefix|] == prefix
  }

  /** `needle in hay` for two strings: needle is a substring of hay. */
  predicate Occurs(needle: string, hay: string)
    decreases |hay|
  {
    StartsWith(hay, needle) || (hay != [] && Occurs(needle, hay[1..]))
  }

  /** `s.split(sep, 1)[1]`: the text after the first `sep`, or None where
      Python's indexing raises because `sep` does not occur in `s`. */
  function SplitOnceTail(s: string, sep: char): (r: Option<string>)
    ensures r.None? <==> sep !in s
    ensures r.Some? ==> exists i :: 0 <= i < |s| && s[i] == sep && sep !in s[..i] && r.value == s[i + 1..]
  {
    if s == [] then None
    else if s[0] == sep then
      assert s[..0] == [];
      Some(s[1..])
    else
      var r := SplitOnceTail(s[1..], sep);
      if r.Some? then
        var i :| 0 <= i < |s[1..]| && s[1..][i] == sep && sep !in s[1..][..i] && r.value == s[1..][i + 1..];
        assert s[..i + 1] == [s[0]] + s[1..][..i];
        r
      else
        r
  }

  /** After a prefix free of `sep`, the first `sep` ends the prefix. */
  lemma {:induction false} SplitOnceTailAfter(prefix: string, sep: char, rest: string)
    requires sep !in prefix
    ensures SplitOnceTail(prefix + [sep] + rest, sep) == Some(rest)
  {
    if prefix == [] {
      assert prefix + [sep] + rest == [sep] + rest;
    } else {
      assert (prefix + [sep] + rest)[1..] == prefix[1..] + [sep] + rest;
      SplitOnceTailAfter(prefix[1..], sep, rest);
    }
  }

  /** The number of whitespace characters s starts with. */
  function LeadingSpaces(s: string): (n: nat)
    ensures n <= |s|
    ensures forall i :: 0 <= i < n ==> IsSpace(s[i])
    ensures n == |s| || !IsSpace(s[n])
  {
    if s != [] && IsSpace(s[0]) then 1 + LeadingSpaces(s[1..]) else 0
  }

  /** The number of whitespace characters s ends with. */
  function TrailingSpaces(s: string): (n: nat)
    ensures n <= |s|
    ensures forall i :: |s| - n <= i < |s| ==> IsSpace(s[i])
    ensures n == |s| || !IsSpace(s[|s| - n - 1])
  {
    if s != [] && IsSpace(s[|s| - 1]) then 1 + TrailingSpaces(s[..|s| - 1]) else 0
  }

  /** `s.strip()`: s with its leading and trailing whitespace removed. */
  function Strip(s: string): (r: string)
    ensures exists pre, post :: s == pre + r + post && AllSpace(pre) && AllSpace(post)
    ensures r == [] || (!IsSpace(r[0]) && !IsSpace(r[|r| - 1]))
  {
    var i := LeadingSpaces(s);
    var j := |s| - TrailingSpaces(s[i..]);
    assert s == s[..i] + s[i..j] + s[j..];
    assert AllSpace(s[..i]);
    assert AllSpace(s[j..]) by {
      forall k | 0 <= k < |s[j..]| ensures IsSpace(s[j..][k]) {
        assert s[j..][k] == s[i..][k + j - i];
      }
    }
    s[i..j]
  }

  /** The length of the longest whitespace-free prefix of s. */
  function WordLength(s: string): (n: nat)
    ensures n <= |s|
    ensures forall i :: 0 <= i < n ==> !IsSpace(s[i])
    ensures n == |s| || IsSpace(s[n])
  {
    if s != [] && !IsSpace(s[0]) then 1 + WordLength(s[1..]) else 0
  }

  /** `s.split()`: the maximal whitespace-free runs of s, in order. */
  function Split(s: string): (ws: seq<string>)
    ensures AllWords(ws)
    decreases |s|
  {
    if s == [] then []
    else if IsSpace(s[0]) then Split(s[1..])
    else
      var n := WordLength(s);
      [s[..n]] + Split(s[n..])
  }

  /** `' '.join(ws)` */
  function Join(ws: seq<string>): string {
    if ws == [] then []
    else if |ws| == 1 then ws[0]
    else ws[0] + " " + Join(ws[1..])
  }

  function Concat(ws: seq<string>): string {
    if ws == [] then [] else ws[0] + Concat(ws[1..])
  }

  /** The non-whitespace characters of s, in order. */
  function NonSpace(s: string): string {
    if s == [] then []
    else (if IsSpace(s[0]) then [] else [s[0]]) + NonSpace(s[1..])
  }

  lemma {:induction false} NonSpaceAppend(a: string, b: string)
    ensures NonSpace(a + b) == NonSpace(a) + NonSpace(b)
    decreases |a|
  {
    if a == [] {
      assert a + b == b;
    } else {
      assert (a + b)[0] == a[0];
      assert (a + b)[1..] == a[1..] + b;
      NonSpaceAppend(a[1..], b);
    }
  }

  lemma {:induction false} NonSpaceOfSpaces(s: string)
    requires AllSpace(s)
    ensures NonSpace(s) == []
  {
    if s != [] {
      NonSpaceOfSpaces(s[1..]);
    }
  }

  lemma {:induction false} NonSpaceOfWord(s: string)
    requires forall i :: 0 <= i < |s| ==> !IsSpace(s[i])
    ensures NonSpace(s) == s
  {
    if s != [] {
      NonSpaceOfWord(s[1..]);
    }
  }

  /** Splitting loses only whitespace: the words, put back together,
      are exactly the non-whitespace characters of the input. */
  lemma {:induction false} SplitKeepsText(s: string)
    ensures Concat(Split(s)) == NonSpace(s)
    decreases |s|
  {
    if s == [] {
    } else if IsSpace(s[0]) {
      SplitKeepsText(s[1..]);
    } else {
      var n := WordLength(s);
      var w, rest := s[..n], s[n..];
      assert s == w + rest;
      NonSpaceAppend(w, rest);
      NonSpaceOfWord(w);
      SplitKeepsText(rest);
      ConcatCons(w, Split(rest));
    }
  }

  lemma ConcatCons(w: string, ws: seq<string>)
    ensures Concat([w] + ws) == w + Concat(ws)
  {
    assert ([w] + ws)[1..] == ws;
  }

  /** A string splits into no words exactly when it is all whitespace. */
  lemma {:induction false} SplitEmptyIff(s: string)
    ensures Split(s) == [] <==> AllSpace(s)
    decreases |s|
  {
    if s != [] && IsSpace(s[0]) {
      SplitEmptyIff(s[1..]);
      assert AllSpace(s) <==> AllSpace(s[1..]);
    }
  }

  lemma {:induction false} WordLengthOfWord(w: string, rest: string)
    requires forall i :: 0 <= i < |w| ==> !IsSpace(w[i])
    requires rest == [] || IsSpace(rest[0])
    ensures WordLength(w + rest) == |w|
    decreases |w|
  {
    if w != [] {
      assert (w + rest)[1..] == w[1..] + rest;
      WordLengthOfWord(w[1..], rest);
    }
  }

  lemma {:induction false} SplitSingle(w: string, rest: string)
    requires IsWord(w)
    requires rest == [] || IsSpace(rest[0])
    ensures Split(w + rest) == [w] + Split(rest)
  {
    var s := w + rest;
    assert s[0] == w[0];
    WordLengthOfWord(w, rest);
    assert s[..|w|] == w && s[|w|..] == rest;
  }

  /** Split undoes Join: words joined by single spaces split back into
      the same words. */
  lemma {:induction false} SplitJoin(ws: seq<string>)
    requires AllWords(ws)
    ensures Split(Join(ws)) == ws
  {
    if ws == [] {
    } else if |ws| == 1 {
      SplitSingle(ws[0], []);
      assert ws[0] + [] == ws[0];
    } else {
      var w, more := ws[0], ws[1..];
      assert IsWord(w);
      assert AllWords(more) by {
        forall k | 0 <= k < |more| ensures IsWord(more[k]) {
          assert more[k] == ws[k + 1];
        }
      }
      var rest := Join(more);
      var tail := " " + rest;
      assert Join(ws) == w + tail;
      SplitSingle(w, tail);
      assert Split(tail) == Split(rest) by {
        assert tail[1..] == rest;
      }
      SplitJoin(more);
      assert [w] + more == ws;
    }
  }

  /** Words laid out with whitespace after each: `gaps[i]` follows `ws[i]`. */
  function Layout(ws: seq<string>, gaps: seq<string>): string
    requires |gaps| == |ws|
  {
    if ws == [] then [] else ws[0] + gaps[0] + Layout(ws[1..], gaps[1..])
  }

  /** Every gap is whitespace, and every gap but the last separates two
      words, so it is not empty. */
  predicate Separating(gaps: seq<string>) {
    forall i :: 0 <= i < |gaps| ==> AllSpace(gaps[i]) && (i + 1 < |gaps| ==> gaps[i] != [])
  }

  /** Leading whitespace does not change the words. */
  lemma {:induction false} SplitSkipsSpaces(sp: string, s: string)
    requires AllSpace(sp)
    ensures Split(sp + s) == Split(s)
    decreases |sp|
  {
    if sp == [] {
      assert sp + s == s;
    } else {
      assert (sp + s)[0] == sp[0];
      assert (sp + s)[1..] == sp[1..] + s;
      SplitSkipsSpaces(sp[1..], s);
    }
  }

  lemma {:induction false} SplitOfLayout(ws: seq<string>, gaps: seq<string>)
    requires AllWords(ws) && |gaps| == |ws| && Separating(gaps)
    ensures Split(Layout(ws, gaps)) == ws
  {
    if ws != [] {
      var w, g := ws[0], gaps[0];
      var more, moreGaps := ws[1..], gaps[1..];
      assert IsWord(w) && AllSpace(g);
      assert AllWords(more) by {
        forall k | 0 <= k < |more| ensures IsWord(more[k]) {
          assert more[k] == ws[k + 1];
        }
      }
      assert Separating(moreGaps) by {
        forall k | 0 <= k < |moreGaps| ensures AllSpace(moreGaps[k]) && (k + 1 < |moreGaps| ==> moreGaps[k] != []) {
          assert moreGaps[k] == gaps[k + 1];
        }
      }
      var rest := Layout(more, moreGaps);
      if g == [] {
        assert more == [];
        assert rest == [];
      }
      assert Layout(ws, gaps) == w + (g + rest);
      SplitSingle(w, g + rest);
      SplitSkipsSpaces(g, rest);
      SplitOfLayout(more, moreGaps);
    }
  }

  /** `str.split()` finds the words however they are spaced: any leading
      whitespace, any non-empty whitespace between words, any trailing
      whitespace. */
  lemma SplitLayout(pre: string, ws: seq<string>, gaps: seq<string>)
    requires AllSpace(pre) && AllWords(ws)
    requires |gaps| == |ws| && Separating(gaps)
    ensures Split(pre + Layout(ws, gaps)) == ws
  {
    SplitSkipsSpaces(pre, Layout(ws, gaps));
    SplitOfLayout(ws, gaps);
  }

  lemma {:induction false} JoinStartsWithFirst(ws: seq<string>)
    requires AllWords(ws) && ws != []
    ensures Join(ws) != [] && Join(ws)[0] == ws[0][0]
  {
  }

  /** Stripping a string that has no surrounding whitespace leaves it as it is. */
  lemma StripTrimmed(s: string)
    requires s == [] || (!IsSpace(s[0]) && !IsSpace(s[|s| - 1]))
    ensures Strip(s) == s
  {
    assert LeadingSpaces(s) == 0;
    assert TrailingSpaces(s) == 0;
    assert s[0..|s|] == s;
  }
}
