/**
 * Splitting an input line into whitespace-separated fields, the way the
 * REPL of main.go tokenises every line with Go's `strings.Fields`.
 */
module Fields {

  /** Go's `unicode.IsSpace`: the ASCII white space characters, U+0085,
      U+00A0 and the Unicode White_Space characters above Latin-1. */
  predicate IsSpace(ch: char)
  {
    || ch == ' ' || ch == '\t' || ch == '\n' || ch == '\r'
    || ch == '\U{000B}' || ch == '\U{000C}' || ch == '\U{0085}' || ch == '\U{00A0}'
    || ch == '\U{1680}' || ('\U{2000}' <= ch <= '\U{200A}')
    || ch == '\U{2028}' || ch == '\U{2029}' || ch == '\U{202F}' || ch == '\U{205F}' || ch == '\U{3000}'
  }

  /** Every character of `s` is white space (true of the empty line). */
  predicate AllSpace(s: string)
  {
    forall i :: 0 <= i < |s| ==> IsSpace(s[i])
  }

  /** A field: non-empty, with no white space in it. */
  predicate IsWord(w: string)
  {
    |w| > 0 && forall i :: 0 <= i < |w| ==> !IsSpace(w[i])
  }

  /** The characters of `s` that are not white space, in order. */
  function NonSpace(s: string): string
  {
    if s == [] then []
    else if IsSpace(s[0]) then NonSpace(s[1..])
    else [s[0]] + NonSpace(s[1..])
  }

  /** The fields laid end to end. */
  function Concat(ws: seq<string>): string
  {
    if ws == [] then [] else ws[0] + Concat(ws[1..])
  }

  /** The fields joined by single spaces. */
  function Join(ws: seq<string>): string
  {
    if ws == [] then []
    else if |ws| == 1 then ws[0]
    else ws[0] + " " + Join(ws[1..])
  }

  /** The length of the longest prefix of `s` without white space. */
  function WordLength(s: string): (n: nat)
    ensures n <= |s|
    ensures forall i :: 0 <= i < n ==> !IsSpace(s[i])
    ensures n < |s| ==> IsSpace(s[n])
  {
    if s == [] || IsSpace(s[0]) then 0 else 1 + WordLength(s[1..])
  }

  /** `strings.Fields`: the maximal runs of non-space characters of `s`, in
      order. Nothing but white space is dropped. */
  function Fields(s: string): (r: seq<string>)
    ensures forall i :: 0 <= i < |r| ==> IsWord(r[i])
    ensures Concat(r) == NonSpace(s)
    decreases |s|
  {
    if s == [] then []
    else if IsSpace(s[0]) then Fields(s[1..])
    else
      var n := WordLength(s);
      NonSpaceAppend(s[..n], s[n..]);
      NonSpaceOfWord(s[..n]);
      assert s[..n] + s[n..] == s;
      [s[..n]] + Fields(s[n..])
  }

  lemma {:induction false} NonSpaceAppend(a: string, b: string)
    ensures NonSpace(a + b) == NonSpace(a) + NonSpace(b)
    decreases |a|
  {
    if a == [] {
      assert a + b == b;
    } else {
      assert (a + b)[1..] == a[1..] + b;
      NonSpaceAppend(a[1..], b);
    }
  }

  lemma {:induction false} NonSpaceOfWord(w: string)
    requires forall i :: 0 <= i < |w| ==> !IsSpace(w[i])
    ensures NonSpace(w) == w
    decreases |w|
  {
    if w != [] {
      NonSpaceOfWord(w[1..]);
    }
  }

  /** A line has no fields exactly when it is empty or all white space. */
  lemma {:induction false} NoFieldsIffAllSpace(s: string)
    ensures Fields(s) == [] <==> AllSpace(s)
    decreases |s|
  {
    if s != [] {
      if IsSpace(s[0]) {
        NoFieldsIffAllSpace(s[1..]);
        assert AllSpace(s) <==> AllSpace(s[1..]) by {
          if AllSpace(s[1..]) {
            forall i | 0 <= i < |s|
              ensures IsSpace(s[i])
            {
              if i > 0 { assert s[i] == s[1..][i - 1]; }
            }
          }
        }
      } else {
        assert !AllSpace(s);
      }
    }
  }

  /** Cutting a line just before white space cuts its fields there. */
  lemma {:induction false} FieldsSplitAtSpace(a: string, b: string)
    requires |b| > 0 && IsSpace(b[0])
    ensures Fields(a + b) == Fields(a) + Fields(b)
    decreases |a|
  {
    if a == [] {
      assert a + b == b;
    } else if IsSpace(a[0]) {
      assert (a + b)[1..] == a[1..] + b;
      FieldsSplitAtSpace(a[1..], b);
    } else {
      var n := WordLength(a);
      var m := WordLength(a + b);
      assert forall i :: 0 <= i < |a| ==> (a + b)[i] == a[i];
      assert IsSpace((a + b)[n]) by {
        if n < |a| {
          assert (a + b)[n] == a[n];
        } else {
          assert (a + b)[n] == b[0];
        }
      }
      assert m == n;
      assert (a + b)[..n] == a[..n];
      assert (a + b)[n..] == a[n..] + b;
      FieldsSplitAtSpace(a[n..], b);
    }
  }

  /** A single word is its own only field. */
  lemma FieldsOfWord(w: string)
    requires IsWord(w)
    ensures Fields(w) == [w]
  {
    assert WordLength(w) == |w|;
    assert w[..|w|] == w;
    assert w[|w|..] == [];
  }

  /** Round trip: splitting words joined by spaces gives the words back. */
  lemma {:induction false} FieldsOfJoin(ws: seq<string>)
    requires forall i :: 0 <= i < |ws| ==> IsWord(ws[i])
    ensures Fields(Join(ws)) == ws
    decreases |ws|
  {
    if |ws| == 1 {
      FieldsOfWord(ws[0]);
    } else if |ws| > 1 {
      var rest := Join(ws[1..]);
      assert ws[0] + " " + rest == ws[0] + (" " + rest);
      FieldsSplitAtSpace(ws[0], " " + rest);
      assert (" " + rest)[1..] == rest;
      FieldsOfJoin(ws[1..]);
      FieldsOfWord(ws[0]);
    }
  }

  /** Words with a white-space gap before, between and after them: `seps[0]`,
      `ws[0]`, `seps[1]`, ..., `ws[|ws| - 1]`, `seps[|ws|]`. */
  function Spaced(seps: seq<string>, ws: seq<string>): string
    requires |seps| == |ws| + 1
    decreases |ws|
  {
    if ws == [] then seps[0] else seps[0] + ws[0] + Spaced(seps[1..], ws[1..])
  }

  /** The gaps of a spaced line are white space, and the inner ones are
      non-empty (the outer ones may be empty). */
  predicate GoodGaps(seps: seq<string>, ws: seq<string>)
    requires |seps| == |ws| + 1
  {
    && (forall i :: 0 <= i < |seps| ==> AllSpace(seps[i]))
    && (forall i :: 0 < i < |ws| ==> |seps[i]| > 0)
  }

  /** Leading white space contributes no field. */
  lemma {:induction false} FieldsSkipSpace(sp: string, s: string)
    requires AllSpace(sp)
    ensures Fields(sp + s) == Fields(s)
    decreases |sp|
  {
    if sp == [] {
      assert sp + s == s;
    } else {
      assert IsSpace(sp[0]);
      assert (sp + s)[1..] == sp[1..] + s;
      assert AllSpace(sp[1..]) by {
        forall i | 0 <= i < |sp[1..]|
          ensures IsSpace(sp[1..][i])
        {
          assert sp[1..][i] == sp[i + 1];
        }
      }
      FieldsSkipSpace(sp[1..], s);
    }
  }

  /** Round trip for any white-space runs: words separated by non-empty
      runs of white space, with optional white space before the first and
      after the last, split back into exactly those words. */
  lemma {:induction false} FieldsOfSpaced(seps: seq<string>, ws: seq<string>)
    requires |seps| == |ws| + 1
    requires forall i :: 0 <= i < |ws| ==> IsWord(ws[i])
    requires GoodGaps(seps, ws)
    ensures Fields(Spaced(seps, ws)) == ws
    decreases |ws|
  {
    if ws == [] {
      NoFieldsIffAllSpace(seps[0]);
    } else {
      var tail := Spaced(seps[1..], ws[1..]);
      GoodGapsTail(seps, ws);
      FieldsOfSpaced(seps[1..], ws[1..]);
      assert seps[0] + ws[0] + tail == seps[0] + (ws[0] + tail);
      FieldsSkipSpace(seps[0], ws[0] + tail);
      FieldsOfWord(ws[0]);
      if tail == [] {
        assert ws[0] + tail == ws[0];
      } else {
        SpacedTailStartsWithSpace(seps, ws);
        FieldsSplitAtSpace(ws[0], tail);
      }
    }
  }

  /** Dropping the first gap and word keeps the gaps good. */
  lemma GoodGapsTail(seps: seq<string>, ws: seq<string>)
    requires |seps| == |ws| + 1 && |ws| > 0
    requires GoodGaps(seps, ws)
    ensures GoodGaps(seps[1..], ws[1..])
  {
    forall i | 0 <= i < |seps[1..]|
      ensures AllSpace(seps[1..][i])
    {
      assert seps[1..][i] == seps[i + 1];
    }
    forall i | 0 < i < |ws[1..]|
      ensures |seps[1..][i]| > 0
    {
      assert seps[1..][i] == seps[i + 1];
    }
  }

  /** What follows the first word of a spaced line starts with white space,
      if anything follows at all. */
  lemma SpacedTailStartsWithSpace(seps: seq<string>, ws: seq<string>)
    requires |seps| == |ws| + 1 && |ws| > 0
    requires GoodGaps(seps, ws)
    requires Spaced(seps[1..], ws[1..]) != []
    ensures IsSpace(Spaced(seps[1..], ws[1..])[0])
  {
    var tail := Spaced(seps[1..], ws[1..]);
    if |ws| > 1 {
      assert tail == seps[1] + (ws[1] + Spaced(seps[2..], ws[2..]));
      assert tail[0] == seps[1][0];
    } else {
      assert tail == seps[1];
    }
  }

  /** The white-space gaps of a line around its fields. */
  function Gaps(s: string): (g: seq<string>)
    ensures |g| == |Fields(s)| + 1
    decreases |s|
  {
    if s == [] then [""]
    else if IsSpace(s[0]) then
      var g := Gaps(s[1..]);
      [[s[0]] + g[0]] + g[1..]
    else
      var n := WordLength(s);
      [""] + Gaps(s[n..])
  }

  /** Splits happen only at white space: every line is its fields with the
      white-space gaps put back, the inner gaps being non-empty. With
      `FieldsOfSpaced` this pins `Fields` down completely. */
  lemma {:induction false} FieldsAndGapsRebuildLine(s: string)
    ensures GoodGaps(Gaps(s), Fields(s))
    ensures Spaced(Gaps(s), Fields(s)) == s
    ensures |s| > 0 && IsSpace(s[0]) ==> |Gaps(s)[0]| > 0
    decreases |s|
  {
    if s == [] {
    } else if IsSpace(s[0]) {
      FieldsAndGapsRebuildLine(s[1..]);
      GapsAfterSpace(s);
      SpacedAfterSpace(s);
    } else {
      FieldsAndGapsRebuildLine(s[WordLength(s)..]);
      GapsAfterWord(s);
      SpacedAfterWord(s);
    }
  }

  /** The step of `FieldsAndGapsRebuildLine` for a leading white-space
      character: it joins the first gap. */
  lemma GapsAfterSpace(s: string)
    requires |s| > 0 && IsSpace(s[0])
    requires GoodGaps(Gaps(s[1..]), Fields(s[1..]))
    ensures GoodGaps(Gaps(s), Fields(s))
    ensures |Gaps(s)[0]| > 0
  {
    var g := Gaps(s[1..]);
    var ws := Fields(s[1..]);
    assert Fields(s) == ws;
    var g' := Gaps(s);
    assert g' == [[s[0]] + g[0]] + g[1..];
    assert AllSpace(g'[0]) by {
      forall i | 0 <= i < |g'[0]|
        ensures IsSpace(g'[0][i])
      {
        if i > 0 { assert g'[0][i] == g[0][i - 1]; }
      }
    }
    forall i | 0 < i < |g'|
      ensures g'[i] == g[i]
    {
    }
  }

  lemma SpacedAfterSpace(s: string)
    requires |s| > 0 && IsSpace(s[0])
    requires Spaced(Gaps(s[1..]), Fields(s[1..])) == s[1..]
    ensures Spaced(Gaps(s), Fields(s)) == s
  {
    var g := Gaps(s[1..]);
    var ws := Fields(s[1..]);
    assert Fields(s) == ws;
    assert Gaps(s) == [[s[0]] + g[0]] + g[1..];
    SpacedWiderFirstGap([s[0]], g, ws);
    assert s == [s[0]] + s[1..];
  }

  /** Widening the first gap widens the line at its start. */
  lemma SpacedWiderFirstGap(c: string, g: seq<string>, ws: seq<string>)
    requires |g| == |ws| + 1
    ensures Spaced([c + g[0]] + g[1..], ws) == c + Spaced(g, ws)
  {
    var g' := [c + g[0]] + g[1..];
    if ws != [] {
      assert g'[1..] == g[1..];
    }
  }

  /** A leading word with an empty gap before it. */
  lemma SpacedLeadingWord(w: string, g: seq<string>, ws: seq<string>)
    requires |g| == |ws| + 1
    ensures Spaced([""] + g, [w] + ws) == w + Spaced(g, ws)
  {
    assert ([""] + g)[1..] == g;
    assert ([w] + ws)[1..] == ws;
  }

  /** The step of `FieldsAndGapsRebuildLine` for a leading word: an empty
      first gap, the word, and the gaps of the rest. */
  lemma GapsAfterWord(s: string)
    requires |s| > 0 && !IsSpace(s[0])
    requires GoodGaps(Gaps(s[WordLength(s)..]), Fields(s[WordLength(s)..]))
    requires |s[WordLength(s)..]| > 0 && IsSpace(s[WordLength(s)..][0]) ==> |Gaps(s[WordLength(s)..])[0]| > 0
    ensures GoodGaps(Gaps(s), Fields(s))
  {
    var n := WordLength(s);
    var rest := s[n..];
    var g := Gaps(rest);
    var ws := Fields(rest);
    var g' := Gaps(s);
    var fs := Fields(s);
    assert g' == [""] + g;
    assert |fs| == |ws| + 1;
    forall i | 0 <= i < |g'|
      ensures AllSpace(g'[i])
    {
      if i > 0 { assert g'[i] == g[i - 1]; }
    }
    forall i | 0 < i < |fs|
      ensures |g'[i]| > 0
    {
      assert g'[i] == g[i - 1];
      if i == 1 {
        assert |ws| > 0;
        assert |rest| > 0;
      }
    }
  }

  lemma SpacedAfterWord(s: string)
    requires |s| > 0 && !IsSpace(s[0])
    requires Spaced(Gaps(s[WordLength(s)..]), Fields(s[WordLength(s)..])) == s[WordLength(s)..]
    ensures Spaced(Gaps(s), Fields(s)) == s
  {
    var n := WordLength(s);
    LeadingWordUnfolds(s);
    SpacedWordThenRest(s, n, Gaps(s[n..]), Fields(s[n..]));
  }

  /** A line cut after its first `n` characters is that word, an empty gap
      before it, followed by the spaced rest. */
  lemma SpacedWordThenRest(s: string, n: nat, g: seq<string>, ws: seq<string>)
    requires n <= |s| && |g| == |ws| + 1
    requires Spaced(g, ws) == s[n..]
    ensures Spaced([""] + g, [s[..n]] + ws) == s
  {
    SpacedLeadingWord(s[..n], g, ws);
    assert s[..n] + s[n..] == s;
  }

  /** One unfolding of `Fields` and `Gaps` at a leading word. */
  lemma LeadingWordUnfolds(s: string)
    requires |s| > 0 && !IsSpace(s[0])
    ensures Gaps(s) == [""] + Gaps(s[WordLength(s)..])
    ensures Fields(s) == [s[..WordLength(s)]] + Fields(s[WordLength(s)..])
  {
  }
}
