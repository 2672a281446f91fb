/** Words, lines and searches in text, as Go's strings package sees them. */
module Words {
  import opened Text

  // ---------------------------------------------------------------- words

  /** What `Fields` returns: not empty, no white space. */
  predicate IsWord(w: string) { w != "" && NoSpace(w) }

  /** Each word with a space after it. */
  function Spaced(ws: seq<string>): string {
    if ws == [] then "" else ws[0] + " " + Spaced(ws[1..])
  }

  /** `strings.Join(ws, " ")`. */
  function Join(ws: seq<string>): string {
    if ws == [] then "" else if |ws| == 1 then ws[0] else ws[0] + " " + Join(ws[1..])
  }

  lemma {:induction false} FieldsInWord(w: string, rest: string, begun: string)
    requires NoSpace(w)
    ensures FieldsFrom(w + rest, begun) == FieldsFrom(rest, begun + w)
    decreases |w|
  {
    if w == "" {
      assert w + rest == rest && begun + w == begun;
    } else {
      assert (w + rest)[1..] == w[1..] + rest;
      assert begun + [w[0]] + w[1..] == begun + w;
      FieldsInWord(w[1..], rest, begun + [w[0]]);
    }
  }

  lemma {:induction false} FieldsWord(w: string, rest: string)
    requires IsWord(w)
    ensures Fields(w + " " + rest) == [w] + Fields(rest)
    ensures Fields(w) == [w]
  {
    FieldsInWord(w, " " + rest, "");
    assert w + " " + rest == w + (" " + rest) && "" + w == w;
    assert (" " + rest)[1..] == rest;
    FieldsInWord(w, "", "");
    assert w + "" == w;
  }

  lemma {:induction false} FieldsSpaced(ws: seq<string>, rest: string)
    requires forall k :: 0 <= k < |ws| ==> IsWord(ws[k])
    ensures Fields(Spaced(ws) + rest) == ws + Fields(rest)
    decreases |ws|
  {
    if ws == [] {
      assert Spaced(ws) + rest == rest;
    } else {
      hide IsWord, FieldsFrom;
      var more := Spaced(ws[1..]) + rest;
      assert Spaced(ws) + rest == ws[0] + " " + more;
      FieldsWord(ws[0], more);
      FieldsSpaced(ws[1..], rest);
      assert ws == [ws[0]] + ws[1..];
    }
  }

  lemma {:induction false} FieldsJoin(ws: seq<string>)
    requires forall k :: 0 <= k < |ws| ==> IsWord(ws[k])
    ensures Fields(Join(ws)) == ws
    decreases |ws|
  {
    if ws != [] {
      FieldsWord(ws[0], Join(ws[1..]));
      if |ws| > 1 {
        FieldsJoin(ws[1..]);
        assert ws == [ws[0]] + ws[1..];
      } else {
        assert ws == [ws[0]];
      }
    }
  }

  /** White space only. */
  predicate IsGap(g: string) { forall i :: 0 <= i < |g| ==> IsSpace(g[i]) }

  /** Words with a gap in front of each. */
  function Laid(ws: seq<string>, gaps: seq<string>): string
    requires |gaps| == |ws|
  {
    if ws == [] then "" else gaps[0] + ws[0] + Laid(ws[1..], gaps[1..])
  }

  ghost predicate Apart(ws: seq<string>, gaps: seq<string>) {
    && |gaps| == |ws| && (forall k :: 0 <= k < |ws| ==> IsWord(ws[k]) && IsGap(gaps[k]))
    && forall k :: 1 <= k < |ws| ==> gaps[k] != ""
  }

  lemma {:induction false} FieldsGap(g: string, s: string)
    requires IsGap(g)
    ensures Fields(g + s) == Fields(s)
    decreases |g|
  {
    if g == "" {
      assert g + s == s;
    } else {
      assert (g + s)[1..] == g[1..] + s;
      FieldsGap(g[1..], s);
    }
  }

  lemma {:induction false} FieldsEnded(w: string, s: string)
    requires IsWord(w) && (s == "" || IsSpace(s[0]))
    ensures Fields(w + s) == [w] + Fields(s)
  {
    FieldsInWord(w, s, "");
    assert "" + w == w;
  }

  /** Words are found whatever white space stands between them. */
  lemma {:induction false} FieldsLaid(ws: seq<string>, gaps: seq<string>, tail: string)
    requires Apart(ws, gaps) && IsGap(tail)
    ensures Fields(Laid(ws, gaps) + tail) == ws
    decreases |ws|
  {
    if ws == [] {
      FieldsGap(tail, "");
      assert Laid(ws, gaps) + tail == tail + "";
    } else {
      var rest := Laid(ws[1..], gaps[1..]) + tail;
      assert Laid(ws, gaps) + tail == gaps[0] + (ws[0] + rest);
      FieldsGap(gaps[0], ws[0] + rest);
      FieldsLaid(ws[1..], gaps[1..], tail);
      assert rest == "" || IsSpace(rest[0]) by {
        assert |ws| > 1 ==> gaps[1..][0] == gaps[1];
      }
      FieldsEnded(ws[0], rest);
      assert ws == [ws[0]] + ws[1..];
    }
  }

  /** Gaps inside one line. */
  predicate OneLine(gaps: seq<string>) { forall k :: 0 <= k < |gaps| ==> '\n' !in gaps[k] }

  lemma {:induction false} LaidInOneLine(ws: seq<string>, gaps: seq<string>)
    requires Apart(ws, gaps) && OneLine(gaps)
    ensures '\n' !in Laid(ws, gaps)
    decreases |ws|
  {
    if ws != [] {
      assert forall i :: 0 <= i < |ws[0]| ==> ws[0][i] != '\n';
      LaidInOneLine(ws[1..], gaps[1..]);
    }
  }

  // ---------------------------------------------------------------- cutting

  /** `strings.Split(s, c)`. */
  function Split(s: string, c: char): (r: seq<string>)
    ensures r != []
  {
    if s == "" then [""]
    else
      var r := Split(s[1..], c);
      if s[0] == c then [""] + r else [[s[0]] + r[0]] + r[1..]
  }

  lemma {:induction false} SplitCut(a: string, c: char, rest: string)
    requires c !in a
    ensures Split(a + [c] + rest, c) == [a] + Split(rest, c)
    decreases |a|
  {
    var s := a + [c] + rest;
    if a == "" {
      assert s[1..] == rest;
    } else {
      assert s[1..] == a[1..] + [c] + rest;
      SplitCut(a[1..], c, rest);
      assert [a[0]] + a[1..] == a;
    }
  }

  lemma {:induction false} SplitWhole(a: string, c: char)
    requires c !in a
    ensures Split(a, c) == [a]
    decreases |a|
  {
    if a != "" {
      SplitWhole(a[1..], c);
      assert [a[0]] + a[1..] == a;
    }
  }

  // ---------------------------------------------------------------- finding

  ghost predicate OccursAt(s: string, sub: string, i: int) { 0 <= i <= |s| && sub <= s[i..] }

  /** `strings.Index(s, sub)`. */
  function Find(s: string, sub: string): (i: int)
    ensures -1 <= i <= |s|
    ensures i >= 0 ==> OccursAt(s, sub, i) && forall j :: 0 <= j < i ==> !OccursAt(s, sub, j)
    ensures i < 0 ==> forall j :: !OccursAt(s, sub, j)
  {
    if sub <= s then 0
    else if s == "" then -1
    else
      var i := Find(s[1..], sub);
      assert forall j :: 1 <= j <= |s| ==> s[j..] == s[1..][j - 1..];
      assert forall j :: 1 <= j ==> (OccursAt(s, sub, j) <==> OccursAt(s[1..], sub, j - 1));
      if i < 0 then -1 else i + 1
  }

  predicate Contains(s: string, sub: string) { Find(s, sub) >= 0 }

  /** The first character of `sub` is where it is found. */
  lemma {:induction false} FindChar(a: string, c: char, rest: string)
    requires c !in a
    ensures Find(a + [c] + rest, [c]) == |a|
  {
    var s := a + [c] + rest;
    assert s[|a|..] == [c] + rest;
    assert OccursAt(s, [c], |a|);
    forall j | 0 <= j < |a|
      ensures !OccursAt(s, [c], j)
    {
      assert s[j..][0] == a[j];
    }
  }

  lemma {:induction false} FindNone(a: string, c: char)
    requires c !in a
    ensures Find(a, [c]) == -1
  {
    forall j | 0 <= j < |a|
      ensures !OccursAt(a, [c], j)
    {
      assert a[j..][0] == a[j];
    }
  }
}
