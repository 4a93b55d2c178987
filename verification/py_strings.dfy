/**
 * The few Python `str` operations the core relies on: `isspace`, `strip`,
 * `upper`, `split()` with no separator, and `" ".join`.
 */
module PyStrings {

  /** Python's `str.isspace` for one character (the Unicode whitespace set). */
  predicate IsSpace(c: char)
  {
    || ('\t' <= c <= '\r')
    || ('\U{1C}' <= c <= '\U{1F}')
    || c == ' '
    || c == '\U{85}'
    || c == '\U{A0}'
    || c == '\U{1680}'
    || ('\U{2000}' <= c <= '\U{200A}')
    || c == '\U{2028}'
    || c == '\U{2029}'
    || c == '\U{202F}'
    || c == '\U{205F}'
    || c == '\U{3000}'
  }

  predicate AllSpace(s: string)
  {
    forall i :: 0 <= i < |s| ==> IsSpace(s[i])
  }

  /** A word as `split()` produces it: non-empty, no whitespace inside. */
  predicate IsWord(w: string)
  {
    |w| > 0 && forall i :: 0 <= i < |w| ==> !IsSpace(w[i])
  }

  /** A string with no surrounding whitespace, as `strip()` leaves it. */
  predicate IsStripped(s: string)
  {
    |s| == 0 || (!IsSpace(s[0]) && !IsSpace(s[|s| - 1]))
  }

  // ---------------------------------------------------------------- strip

  function StripLeft(s: string): (r: string)
    ensures |r| <= |s|
    ensures |r| == 0 || !IsSpace(r[0])
  {
    if |s| > 0 && IsSpace(s[0]) then StripLeft(s[1..]) else s
  }

  function StripRight(s: string): (r: string)
    ensures |r| <= |s|
    ensures |r| == 0 || !IsSpace(r[|r| - 1])
    ensures |r| > 0 ==> r[0] == s[0]
  {
    if |s| > 0 && IsSpace(s[|s| - 1]) then StripRight(s[..|s| - 1]) else s
  }

  /** Python's `str.strip()`: drop leading and trailing whitespace. */
  function Strip(s: string): (r: string)
    ensures IsStripped(r)
  {
    StripRight(StripLeft(s))
  }

  /** `lstrip()` removes a prefix made only of whitespace. */
  lemma {:induction false} StripLeftIsSuffix(s: string)
    ensures StripLeft(s) == s[|s| - |StripLeft(s)|..]
    ensures AllSpace(s[..|s| - |StripLeft(s)|])
    decreases |s|
  {
    if |s| > 0 && IsSpace(s[0]) {
      StripLeftIsSuffix(s[1..]);
      var k := |s| - |StripLeft(s)|;
      assert s[1..][k - 1..] == s[k..];
    }
  }

  /** `rstrip()` removes a suffix made only of whitespace. */
  lemma {:induction false} StripRightIsPrefix(s: string)
    ensures StripRight(s) == s[..|StripRight(s)|]
    ensures AllSpace(s[|StripRight(s)|..])
    decreases |s|
  {
    if |s| > 0 && IsSpace(s[|s| - 1]) {
      var n := |s| - 1;
      StripRightIsPrefix(s[..n]);
      var k := |StripRight(s)|;
      assert s[..n][..k] == s[..k];
      assert forall i :: 0 <= i < n - k ==> s[k..][i] == s[..n][k..][i];
    }
  }

  /** `strip()` keeps a contiguous piece of its argument and drops only whitespace around it. */
  lemma StripIsInfix(s: string)
    ensures exists i :: 0 <= i <= |s| - |Strip(s)| && Strip(s) == s[i..i + |Strip(s)|]
                        && AllSpace(s[..i]) && AllSpace(s[i + |Strip(s)|..])
  {
    var l := StripLeft(s);
    var r := StripRight(l);
    StripLeftIsSuffix(s);
    StripRightIsPrefix(l);
    var i := |s| - |l|;
    assert r == s[i..i + |r|];
    assert s[i + |r|..] == l[|r|..];
  }

  lemma {:induction false} StripLeftPadded(w: string, s: string)
    requires AllSpace(w)
    ensures StripLeft(w + s) == StripLeft(s)
    decreases |w|
  {
    if |w| > 0 {
      assert (w + s)[1..] == w[1..] + s;
      StripLeftPadded(w[1..], s);
    } else {
      assert w + s == s;
    }
  }

  lemma {:induction false} StripRightPadded(s: string, w: string)
    requires AllSpace(w)
    ensures StripRight(s + w) == StripRight(s)
    decreases |w|
  {
    if |w| > 0 {
      assert (s + w)[..|s + w| - 1] == s + w[..|w| - 1];
      StripRightPadded(s, w[..|w| - 1]);
    } else {
      assert s + w == s;
    }
  }

  /** Stripping a string that starts with a non-space keeps a trailing pad for StripRight. */
  lemma {:induction false} StripLeftKeepsTail(s: string, w: string)
    requires |StripLeft(s)| > 0
    ensures StripLeft(s + w) == StripLeft(s) + w
    decreases |s|
  {
    if IsSpace(s[0]) {
      assert (s + w)[1..] == s[1..] + w;
      StripLeftKeepsTail(s[1..], w);
    }
  }

  lemma StripLeftAllSpace(s: string)
    requires AllSpace(s)
    ensures StripLeft(s) == []
  {
    StripLeftPadded(s, []);
    assert s + [] == s;
  }

  /** Surrounding whitespace never changes what `strip()` returns. */
  lemma StripIgnoresPadding(w1: string, s: string, w2: string)
    requires AllSpace(w1) && AllSpace(w2)
    ensures Strip(w1 + s + w2) == Strip(s)
  {
    assert w1 + s + w2 == w1 + (s + w2);
    StripLeftPadded(w1, s + w2);
    if |StripLeft(s)| > 0 {
      StripLeftKeepsTail(s, w2);
      StripRightPadded(StripLeft(s), w2);
    } else {
      StripLeftIsSuffix(s);
      assert AllSpace(s);
      assert AllSpace(s + w2) by {
        forall i | 0 <= i < |s + w2| ensures IsSpace((s + w2)[i]) {
          if i < |s| { assert (s + w2)[i] == s[i]; } else { assert (s + w2)[i] == w2[i - |s|]; }
        }
      }
      StripLeftAllSpace(s + w2);
    }
  }

  /** A string with no surrounding whitespace is its own `strip()`. */
  lemma StripOfStripped(s: string)
    requires IsStripped(s)
    ensures Strip(s) == s
  {
  }

  // ---------------------------------------------------------------- case

  /** Python's `upper()` on one character, restricted to ASCII letters. */
  function UpperChar(c: char): char
  {
    if 'a' <= c <= 'z' then (c as int - 32) as char else c
  }

  /** `upper()`: each ASCII lower-case letter becomes its capital, every other character is kept. */
  function Upper(s: string): (r: string)
    ensures |r| == |s|
    ensures forall i :: 0 <= i < |s| && 'a' <= s[i] <= 'z' ==> 'A' <= r[i] <= 'Z' && r[i] as int == s[i] as int - 32
    ensures forall i :: 0 <= i < |s| && !('a' <= s[i] <= 'z') ==> r[i] == s[i]
    ensures forall i :: 0 <= i < |r| ==> !('a' <= r[i] <= 'z')
  {
    seq(|s|, i requires 0 <= i < |s| => UpperChar(s[i]))
  }

  lemma UpperIdempotent(s: string)
    ensures Upper(Upper(s)) == Upper(s)
  {
  }

  /** Upper-casing commutes with slicing. */
  lemma UpperSlice(s: string, lo: nat, hi: nat)
    requires lo <= hi <= |s|
    ensures Upper(s[lo..hi]) == Upper(s)[lo..hi]
  {
  }

  /** Strings equal up to ASCII case keep that relation through both halves of `strip()`. */
  lemma {:induction false} StripLeftRespectsCase(s: string, t: string)
    requires Upper(s) == Upper(t)
    ensures |StripLeft(s)| == |StripLeft(t)|
    ensures Upper(StripLeft(s)) == Upper(StripLeft(t))
    decreases |s|
  {
    assert |s| == |Upper(s)| == |t|;
    if |s| > 0 {
      assert UpperChar(s[0]) == UpperChar(t[0]);
      assert IsSpace(s[0]) <==> IsSpace(t[0]);
      if IsSpace(s[0]) {
        UpperSlice(s, 1, |s|);
        UpperSlice(t, 1, |t|);
        assert s[1..|s|] == s[1..] && t[1..|t|] == t[1..];
        StripLeftRespectsCase(s[1..], t[1..]);
      }
    }
  }

  lemma {:induction false} StripRightRespectsCase(s: string, t: string)
    requires Upper(s) == Upper(t)
    ensures |StripRight(s)| == |StripRight(t)|
    ensures Upper(StripRight(s)) == Upper(StripRight(t))
    decreases |s|
  {
    assert |s| == |Upper(s)| == |t|;
    if |s| > 0 {
      var n := |s| - 1;
      assert UpperChar(s[n]) == UpperChar(t[n]);
      assert IsSpace(s[n]) <==> IsSpace(t[n]);
      if IsSpace(s[n]) {
        UpperSlice(s, 0, n);
        UpperSlice(t, 0, n);
        assert s[0..n] == s[..n] && t[0..n] == t[..n];
        StripRightRespectsCase(s[..n], t[..n]);
      }
    }
  }

  /** `s.strip().upper()` does not depend on the ASCII case of `s`. */
  lemma StripUpperIgnoresCase(s: string, t: string)
    requires Upper(s) == Upper(t)
    ensures Upper(Strip(s)) == Upper(Strip(t))
  {
    StripLeftRespectsCase(s, t);
    StripRightRespectsCase(StripLeft(s), StripLeft(t));
  }

  // ---------------------------------------------------------------- split / join

  /** Index of the first whitespace character, or |s| if none. */
  function TokenEnd(s: string): (k: nat)
    ensures k <= |s|
    ensures forall i :: 0 <= i < k ==> !IsSpace(s[i])
    ensures k < |s| ==> IsSpace(s[k])
  {
    if |s| == 0 || IsSpace(s[0]) then 0 else 1 + TokenEnd(s[1..])
  }

  /** Python's `str.split()` with no separator: the maximal runs of non-whitespace. */
  function Split(s: string): (words: seq<string>)
    ensures forall i :: 0 <= i < |words| ==> IsWord(words[i])
    ensures |words| == 0 <==> AllSpace(s)
    decreases |s|
  {
    if |s| == 0 then []
    else if IsSpace(s[0]) then Split(s[1..])
    else
      var k := TokenEnd(s);
      [s[..k]] + Split(s[k..])
  }

  /** Python's `" ".join(words)`. */
  function JoinSpace(words: seq<string>): string
  {
    if |words| == 0 then ""
    else if |words| == 1 then words[0]
    else words[0] + " " + JoinSpace(words[1..])
  }

  lemma {:induction false} TokenEndOfWord(w: string, t: string)
    requires forall i :: 0 <= i < |w| ==> !IsSpace(w[i])
    requires |t| == 0 || IsSpace(t[0])
    ensures TokenEnd(w + t) == |w|
    decreases |w|
  {
    if |w| == 0 {
      assert w + t == t;
    } else {
      assert (w + t)[0] == w[0];
      assert (w + t)[1..] == w[1..] + t;
      TokenEndOfWord(w[1..], t);
    }
  }

  /** Splitting joined words gives the words back: `" ".join` and `split()` are inverse. */
  lemma {:induction false} SplitJoin(words: seq<string>)
    requires forall i :: 0 <= i < |words| ==> IsWord(words[i])
    ensures Split(JoinSpace(words)) == words
    decreases |words|
  {
    if |words| == 0 {
    } else if |words| == 1 {
      var w := words[0];
      TokenEndOfWord(w, []);
      assert w + [] == w;
      assert w[|w|..] == [];
    } else {
      var w := words[0];
      var rest := JoinSpace(words[1..]);
      var t := " " + rest;
      assert JoinSpace(words) == w + t;
      TokenEndOfWord(w, t);
      assert (w + t)[..|w|] == w;
      assert (w + t)[|w|..] == t;
      assert t[1..] == rest;
      SplitJoin(words[1..]);
    }
  }

  /** `gaps[0] + words[0] + gaps[1] + ... + words[n - 1] + gaps[n]`. */
  function Interleave(gaps: seq<string>, words: seq<string>): string
    requires |gaps| == |words| + 1
    decreases |words|
  {
    if |words| == 0 then gaps[0] else gaps[0] + words[0] + Interleave(gaps[1..], words[1..])
  }

  /** Whitespace around and between the words: padding at the ends may be empty, a gap between two words may not. */
  predicate Separates(gaps: seq<string>, words: seq<string>)
  {
    && |gaps| == |words| + 1
    && (forall i :: 0 <= i < |gaps| ==> AllSpace(gaps[i]))
    && (forall i :: 0 < i < |words| ==> |gaps[i]| > 0)
  }

  /** Leading whitespace does not change `split()`. */
  lemma {:induction false} SplitSkipsSpace(g: string, t: string)
    requires AllSpace(g)
    ensures Split(g + t) == Split(t)
    decreases |g|
  {
    if |g| > 0 {
      assert (g + t)[0] == g[0];
      assert (g + t)[1..] == g[1..] + t;
      SplitSkipsSpace(g[1..], t);
    } else {
      assert g + t == t;
    }
  }

  /** A word followed by nothing or by whitespace is the first word `split()` finds. */
  lemma SplitTakesWord(w: string, t: string)
    requires IsWord(w)
    requires |t| == 0 || IsSpace(t[0])
    ensures Split(w + t) == [w] + Split(t)
  {
    TokenEndOfWord(w, t);
    assert (w + t)[0] == w[0];
    assert (w + t)[..|w|] == w;
    assert (w + t)[|w|..] == t;
  }

  /** Splitting words laid out with any whitespace around and between them gives the words back. */
  lemma {:induction false} SplitInterleave(gaps: seq<string>, words: seq<string>)
    requires Separates(gaps, words)
    requires forall i :: 0 <= i < |words| ==> IsWord(words[i])
    ensures Split(Interleave(gaps, words)) == words
    decreases |words|
  {
    if |words| == 0 {
      SplitSkipsSpace(gaps[0], "");
      assert gaps[0] + "" == gaps[0];
    } else {
      var rest := Interleave(gaps[1..], words[1..]);
      assert Separates(gaps[1..], words[1..]) by {
        forall i | 0 < i < |words[1..]| ensures |gaps[1..][i]| > 0 {
          assert gaps[1..][i] == gaps[i + 1];
        }
      }
      if |words| > 1 {
        assert |gaps[1]| > 0 && IsSpace(gaps[1][0]);
        assert rest[0] == gaps[1][0];
      } else {
        assert rest == gaps[1];
        assert |rest| == 0 || IsSpace(rest[0]);
      }
      assert gaps[0] + words[0] + rest == gaps[0] + (words[0] + rest);
      SplitSkipsSpace(gaps[0], words[0] + rest);
      SplitTakesWord(words[0], rest);
      SplitInterleave(gaps[1..], words[1..]);
    }
  }

  /** Extending the leading gap extends the laid-out text at its front. */
  lemma InterleaveHead(c: string, gaps: seq<string>, words: seq<string>)
    requires |gaps| == |words| + 1
    ensures Interleave([c + gaps[0]] + gaps[1..], words) == c + Interleave(gaps, words)
  {
    var g := [c + gaps[0]] + gaps[1..];
    assert g[1..] == gaps[1..];
  }

  /** The whitespace `split()` skips: the gaps around and between the words it returns. */
  function SplitGaps(s: string): (gaps: seq<string>)
    ensures Separates(gaps, Split(s))
    ensures Interleave(gaps, Split(s)) == s
    ensures |s| > 0 && IsSpace(s[0]) ==> |gaps[0]| > 0
    decreases |s|
  {
    if |s| == 0 then [""]
    else if IsSpace(s[0]) then
      var g := SplitGaps(s[1..]);
      SpaceGaps(s, g);
      [[s[0]] + g[0]] + g[1..]
    else
      var g := SplitGaps(s[TokenEnd(s)..]);
      WordGaps(s, g);
      [""] + g
  }

  lemma SpaceGaps(s: string, g: seq<string>)
    requires |s| > 0 && IsSpace(s[0])
    requires Separates(g, Split(s[1..])) && Interleave(g, Split(s[1..])) == s[1..]
    ensures Separates([[s[0]] + g[0]] + g[1..], Split(s))
    ensures Interleave([[s[0]] + g[0]] + g[1..], Split(s)) == s
  {
    assert Split(s) == Split(s[1..]);
    InterleaveHead([s[0]], g, Split(s));
    assert s == [s[0]] + s[1..];
    WidenFirstGap([s[0]], g, Split(s));
  }

  /** Putting more whitespace in front keeps a layout separating. */
  lemma WidenFirstGap(c: string, g: seq<string>, words: seq<string>)
    requires AllSpace(c) && Separates(g, words)
    ensures Separates([c + g[0]] + g[1..], words)
  {
    var gs := [c + g[0]] + g[1..];
    assert AllSpace(gs[0]) by {
      assert AllSpace(g[0]);
    }
    forall i | 0 < i < |gs| ensures gs[i] == g[i] {
    }
  }

  lemma WordGaps(s: string, g: seq<string>)
    requires |s| > 0 && !IsSpace(s[0])
    requires var t := s[TokenEnd(s)..];
             && Separates(g, Split(t)) && Interleave(g, Split(t)) == t
             && (|t| > 0 && IsSpace(t[0]) ==> |g[0]| > 0)
    ensures Separates([""] + g, Split(s))
    ensures Interleave([""] + g, Split(s)) == s
  {
    var k := TokenEnd(s);
    var t := s[k..];
    WordLayout(s, g);
    if |Split(t)| > 0 {
      assert |t| > 0 && t[0] == s[k];
    }
    PrependWordGap(s[..k], g, Split(t));
  }

  lemma WordLayout(s: string, g: seq<string>)
    requires |s| > 0 && !IsSpace(s[0])
    requires var t := s[TokenEnd(s)..];
             && |g| == |Split(t)| + 1 && Interleave(g, Split(t)) == t
    ensures Split(s) == [s[..TokenEnd(s)]] + Split(s[TokenEnd(s)..])
    ensures Interleave([""] + g, Split(s)) == s
  {
    var k := TokenEnd(s);
    assert s == s[..k] + s[k..];
    PrependWord(s[..k], g, Split(s[k..]));
  }

  /** A word in front of a layout, with no whitespace before it, lays out as the word then the old layout. */
  lemma PrependWord(w: string, g: seq<string>, words: seq<string>)
    requires |g| == |words| + 1
    ensures Interleave([""] + g, [w] + words) == w + Interleave(g, words)
  {
    var gs, ws := [""] + g, [w] + words;
    assert gs[1..] == g && ws[1..] == words;
    assert gs[0] + ws[0] == w;
  }

  /** A word in front, with no whitespace before it, keeps a layout separating when the old first gap is not empty. */
  lemma PrependWordGap(w: string, g: seq<string>, words: seq<string>)
    requires Separates(g, words)
    requires |words| > 0 ==> |g[0]| > 0
    ensures Separates([""] + g, [w] + words)
  {
    var gs := [""] + g;
    forall i | 0 < i < |gs| ensures gs[i] == g[i - 1] {
    }
  }

  /**
   * `split()` returns the maximal runs of non-whitespace: `words` is the split of
   * `s` exactly when `s` is those words with whitespace around and between them.
   */
  lemma SplitSpec(s: string, words: seq<string>)
    requires forall i :: 0 <= i < |words| ==> IsWord(words[i])
    ensures Split(s) == words <==> exists gaps :: Separates(gaps, words) && Interleave(gaps, words) == s
  {
    if Split(s) == words {
      var gaps := SplitGaps(s);
      assert Separates(gaps, words) && Interleave(gaps, words) == s;
    }
    if exists gaps :: Separates(gaps, words) && Interleave(gaps, words) == s {
      var gaps :| Separates(gaps, words) && Interleave(gaps, words) == s;
      SplitInterleave(gaps, words);
    }
  }

}
