/** The parts of Go's bytes and strings packages that the parsers lean on. */
module Text {

  /** ASCII white space, as `bytes.Fields` and `strings.Fields` see it. */
  predicate IsSpace(c: char): (b: bool)
    ensures b <==> c as int in {9, 10, 11, 12, 13, 32}
  {
    c == ' ' || c == '\t' || c == '\n' || c == '\r' || c as int == 11 || c as int == 12
  }

  predicate NoSpace(s: string) { forall i :: 0 <= i < |s| ==> !IsSpace(s[i]) }

  /** Words of `s`, the first of them already begun as `word`. */
  function FieldsFrom(s: string, word: string): seq<string> {
    if s == "" then (if word == "" then [] else [word])
    else if !IsSpace(s[0]) then FieldsFrom(s[1..], word + [s[0]])
    else (if word == "" then [] else [word]) + FieldsFrom(s[1..], "")
  }

  function Fields(s: string): seq<string> { FieldsFrom(s, "") }

  predicate CrlfAt(s: string, i: int) { 0 <= i && i + 1 < |s| && s[i] == '\r' && s[i + 1] == '\n' }

  /** `bytes.Index(s, "\r\n")`. */
  function IndexCrlf(s: string): (i: int)
    ensures -1 <= i
    ensures i >= 0 ==> CrlfAt(s, i) && forall j :: 0 <= j < i ==> !CrlfAt(s, j)
    ensures i < 0 ==> forall j :: !CrlfAt(s, j)
  {
    if |s| < 2 then -1
    else if s[0] == '\r' && s[1] == '\n' then 0
    else
      var i := IndexCrlf(s[1..]);
      assert forall j :: 1 <= j ==> (CrlfAt(s, j) <==> CrlfAt(s[1..], j - 1));
      if i < 0 then -1 else i + 1
  }

  ghost predicate NoCrlf(s: string) { forall i :: !CrlfAt(s, i) }

  lemma IndexCrlfIs(s: string, i: nat)
    requires CrlfAt(s, i) && forall j :: 0 <= j < i ==> !CrlfAt(s, j)
    ensures IndexCrlf(s) == i
  {
  }

  /** A line is found at the end of its text, whatever follows. */
  lemma {:induction false} IndexAfterText(text: string, rest: string)
    requires NoCrlf(text)
    ensures IndexCrlf(text + "\r\n" + rest) == |text|
  {
    var s := text + "\r\n" + rest;
    assert CrlfAt(s, |text|);
    forall j | 0 <= j < |text|
      ensures !CrlfAt(s, j)
    {
      assert s[j] == text[j];
      assert j + 1 < |text| ==> s[j + 1] == text[j + 1];
      assert !CrlfAt(text, j);
    }
    IndexCrlfIs(s, |text|);
  }

  lemma {:induction false} IndexExtends(s: string, t: string)
    requires IndexCrlf(s) >= 0
    ensures IndexCrlf(s + t) == IndexCrlf(s)
  {
    var i := IndexCrlf(s);
    assert CrlfAt(s + t, i);
    forall j | 0 <= j < i
      ensures !CrlfAt(s + t, j)
    {
      assert !CrlfAt(s, j) && (s + t)[j] == s[j] && (s + t)[j + 1] == s[j + 1];
    }
    IndexCrlfIs(s + t, i);
  }
}
