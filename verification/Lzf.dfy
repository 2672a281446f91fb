/**
 LZF decompression: anzi/lzf.go.
 */
module Lzf {
  import opened Common

  type byte = b: int | 0 <= b < 256

  /** A run of bytes as they are, or a copy of what lies `distance` back. */
  datatype Token = Literal(run: seq<byte>) | Match(distance: int, length: int)

  // ---------------------------------------------------------------- tokens and their bytes

  predicate Shaped(t: Token) {
    match t
    case Literal(run) => 1 <= |run| <= 32
    case Match(distance, length) => 1 <= distance <= 8192 && 3 <= length <= 264
  }

  /** A match reaches back no further than the output so far. */
  predicate Reaches(t: Token, sofar: nat) { Shaped(t) && (t.Match? ==> t.distance <= sofar) }

  function Size(t: Token): int {
    if t.Literal? then |t.run| else t.length
  }

  predicate ValidTokens(ts: seq<Token>, sofar: nat)
    decreases |ts|
  {
    ts == [] || (Reaches(ts[0], sofar) && ValidTokens(ts[1..], sofar + Size(ts[0])))
  }

  /** `n` more bytes, each equal to the one `distance` before it; copies may overlap. */
  function CopyBack(out: seq<byte>, distance: nat, n: nat): (r: seq<byte>)
    requires 1 <= distance <= |out|
    ensures |r| == |out| + n && out <= r
    decreases n
  {
    if n == 0 then out else CopyBack(out + [out[|out| - distance]], distance, n - 1)
  }

  /** A copy repeats what lies `distance` before it, its own bytes included. */
  lemma {:induction false} CopyRepeats(out: seq<byte>, distance: nat, n: nat, k: nat)
    requires 1 <= distance <= |out| <= k < |out| + n
    ensures CopyBack(out, distance, n)[k] == CopyBack(out, distance, n)[k - distance]
    decreases n
  {
    var more := out + [out[|out| - distance]];
    if k > |out| {
      CopyRepeats(more, distance, n - 1, k);
    } else {
      assert more <= CopyBack(more, distance, n - 1);
    }
  }

  /** The output after one more token. */
  function Grow(t: Token, out: seq<byte>): (r: seq<byte>)
    requires Reaches(t, |out|)
    ensures out <= r && |r| == |out| + Size(t)
  {
    match t
    case Literal(run) => out + run
    case Match(distance, length) => CopyBack(out, distance, length)
  }

  /** What the tokens stand for after `out`. */
  function Expand(ts: seq<Token>, out: seq<byte>): (r: seq<byte>)
    requires ValidTokens(ts, |out|)
    ensures out <= r
    decreases |ts|
  {
    if ts == [] then out else Expand(ts[1..], Grow(ts[0], out))
  }

  function Encode(t: Token): (r: seq<byte>)
    requires Shaped(t)
    ensures |r| >= 2
  {
    match t
    case Literal(run) => [|run| - 1] + run
    case Match(distance, length) =>
      var d := distance - 1;
      if length < 9 then [(length - 2) * 32 + d / 256, d % 256]
      else [224 + d / 256, length - 9, d % 256]
  }

  function EncodeAll(ts: seq<Token>, sofar: nat): seq<byte>
    requires ValidTokens(ts, sofar)
    decreases |ts|
  {
    if ts == [] then [] else Encode(ts[0]) + EncodeAll(ts[1..], sofar + Size(ts[0]))
  }

  // ---------------------------------------------------------------- the decompressor

  function Zeros(n: nat): (r: seq<byte>)
    ensures |r| == n && forall k :: 0 <= k < n ==> r[k] == 0
  {
    seq(n, _ => 0)
  }

  /** `out` cut or filled up to the size of the output. */
  function Fit(out: seq<byte>, ulen: nat): (r: seq<byte>)
    ensures |r| == ulen
  {
    if |out| >= ulen then out[..ulen] else out + Zeros(ulen - |out|)
  }

  /** The match that `data` begins with. */
  function HeadMatch(data: seq<byte>): Option<Token>
    requires data != [] && data[0] >= 32
  {
    var high: int, low: int := data[0] / 32, data[0] % 32;
    if high == 7 then
      if |data| < 3 then None
      else var extra: int, back: int := data[1], data[2]; Some(Match(low * 256 + back + 1, 9 + extra))
    else
      if |data| < 2 then None
      else var back: int := data[1]; Some(Match(low * 256 + back + 1, high + 2))
  }

  /** The next token of `data`; `None` stands for an index panic while carrying it out. */
  function Next(data: seq<byte>, out: seq<byte>, ulen: nat): Option<Token>
    requires data != []
  {
    if |out| > ulen then None
    else if data[0] < 32 then
      if |data| < data[0] + 2 then None else Some(Literal(data[1..data[0] + 2]))
    else
      match HeadMatch(data)
      case None => None
      case Some(t) => if t.distance > |out| || |out| + t.length > ulen then None else Some(t)
  }

  lemma {:induction false} NextIsEncoded(data: seq<byte>, out: seq<byte>, ulen: nat)
    requires data != [] && Next(data, out, ulen).Some?
    ensures
      var t := Next(data, out, ulen).value;
      Reaches(t, |out|) && |Encode(t)| <= |data| && Encode(t) == data[..|Encode(t)|]
  {
    if data[0] < 32 {
      assert data[..data[0] + 2] == [data[0]] + data[1..data[0] + 2];
    }
  }

  lemma {:induction false} EncodedMatch(t: Token, rest: seq<byte>)
    requires t.Match? && Shaped(t)
    ensures Encode(t)[0] >= 32 && HeadMatch(Encode(t) + rest) == Some(t)
  {
    var data, d := Encode(t) + rest, t.distance - 1;
    var high, low := d / 256, d % 256;
    assert d == high * 256 + low && 0 <= high < 32;
    if t.length < 9 {
      var head := (t.length - 2) * 32 + high;
      assert data[0] == head && data[1] == low && head / 32 == t.length - 2 && head % 32 == high;
    } else {
      assert data[0] == 224 + high && data[1] == t.length - 9 && data[2] == low;
    }
  }

  lemma {:induction false} EncodedIsNext(t: Token, rest: seq<byte>, out: seq<byte>, ulen: nat)
    requires Reaches(t, |out|) && |out| + Size(t) <= ulen
    ensures Next(Encode(t) + rest, out, ulen) == Some(t)
  {
    var data := Encode(t) + rest;
    if t.Literal? {
      assert data[1..|t.run| + 1] == t.run;
    } else {
      EncodedMatch(t, rest);
      hide HeadMatch, Encode;
    }
  }

  /** The rest of the input `data` after the output `out`. */
  function Unpack(data: seq<byte>, out: seq<byte>, ulen: nat): (r: Option<seq<byte>>)
    ensures r.Some? ==> |r.value| == ulen
    decreases |data|
  {
    if data == [] then Some(Fit(out, ulen))
    else
      match Next(data, out, ulen)
      case None => None
      case Some(t) => NextIsEncoded(data, out, ulen); Unpack(data[|Encode(t)|..], Grow(t, out), ulen)
  }

  // ---------------------------------------------------------------- round trip

  lemma ExpandLength(ts: seq<Token>, out: seq<byte>)
    requires ValidTokens(ts, |out|) && ts != []
    ensures |Expand(ts, out)| >= |out| + Size(ts[0])
  {
  }

  /** Decompressing the bytes of a token list gives what the tokens stand for. */
  lemma {:induction false} DecompressEncoded(ts: seq<Token>, out: seq<byte>, ulen: nat)
    requires ValidTokens(ts, |out|) && |Expand(ts, out)| <= ulen
    ensures Unpack(EncodeAll(ts, |out|), out, ulen) == Some(Fit(Expand(ts, out), ulen))
    decreases |ts|
  {
    hide Next, Encode, Grow, Fit, Shaped;
    if ts != [] {
      var rest := EncodeAll(ts[1..], |out| + Size(ts[0]));
      var data := Encode(ts[0]) + rest;
      ExpandLength(ts, out);
      EncodedIsNext(ts[0], rest, out, ulen);
      assert data[|Encode(ts[0])|..] == rest;
      DecompressEncoded(ts[1..], Grow(ts[0], out), ulen);
    }
  }

  /** And nothing else decompresses: every accepted input is the bytes of a token list. */
  lemma {:induction false} AcceptedIsEncoded(data: seq<byte>, out: seq<byte>, ulen: nat) returns (ts: seq<Token>)
    requires Unpack(data, out, ulen).Some?
    ensures ValidTokens(ts, |out|) && data == EncodeAll(ts, |out|)
    ensures Unpack(data, out, ulen) == Some(Fit(Expand(ts, out), ulen))
    decreases |data|
  {
    hide Next, Encode, Grow, Fit, Shaped;
    if data == [] {
      ts := [];
    } else {
      NextIsEncoded(data, out, ulen);
      var t := Next(data, out, ulen).value;
      var n := |Encode(t)|;
      var rest := AcceptedIsEncoded(data[n..], Grow(t, out), ulen);
      ts := [t] + rest;
      assert ts[1..] == rest && data == Encode(t) + data[n..];
    }
  }

  // ---------------------------------------------------------------- the loop

  /**
   Indices have 32 bits. In an output longer than this a match that reaches back too far wraps
   around into the end of the output instead of panicking. Redis stores strings up to 512 MB.
   */
  const INDEX_LIMIT := 0x1_0000_0000 - 8192

  /** `copy`, which writes no more than there is room for. */
  method PutRun(output: array<byte>, ghost out: seq<byte>, o: nat, run: seq<byte>)
    requires o == |out| <= output.Length && output[..] == Fit(out, output.Length)
    modifies output
    ensures output[..] == Fit(out + run, output.Length)
  {
    var n := if |run| <= output.Length - o then |run| else output.Length - o;
    forall k | 0 <= k < n {
      output[o + k] := run[k];
    }
  }

  lemma {:induction false} CopyBackStep(out: seq<byte>, distance: nat, n: nat)
    requires 1 <= distance <= |out|
    ensures
      var r := CopyBack(out, distance, n);
      CopyBack(out, distance, n + 1) == r + [r[|r| - distance]]
    decreases n
  {
    if n > 0 {
      CopyBackStep(out + [out[|out| - distance]], distance, n - 1);
    }
  }

  lemma FitStep(out: seq<byte>, b: byte, ulen: nat)
    requires |out| < ulen
    ensures Fit(out + [b], ulen) == Fit(out, ulen)[|out| := b]
  {
  }

  /** The byte by byte copy, which may read what it has just written. */
  method PutMatch(output: array<byte>, ghost out: seq<byte>, o: nat, distance: nat, length: nat) returns (ok: bool)
    requires o == |out| <= output.Length <= INDEX_LIMIT && output[..] == Fit(out, output.Length)
    requires 1 <= distance <= 8192 && 0 < length
    modifies output
    ensures ok <==> distance <= o && o + length <= output.Length
    ensures ok ==> output[..] == Fit(CopyBack(out, distance, length), output.Length)
  {
    var ref := if o >= distance then o - distance else o - distance + 0x1_0000_0000;
    ghost var ulen := output.Length;
    hide CopyBack, Fit;
    if distance <= o {
      CopyNone(out, distance);
    }
    for j := 0 to length
      invariant j == 0 || distance <= o
      invariant distance <= o ==> ref == o - distance + j && o + j <= ulen
      invariant distance <= o ==> output[..] == Fit(CopyBack(out, distance, j), ulen)
      invariant distance > o ==> ref >= INDEX_LIMIT
    {
      if o + j >= output.Length || ref >= output.Length {
        return false;
      }
      ghost var sofar := CopyBack(out, distance, j);
      FitPrefix(sofar, ulen);
      CopyBackStep(out, distance, j);
      FitStep(sofar, sofar[ref], ulen);
      assert output[..][ref] == sofar[ref];
      output[o + j] := output[ref];
      ref := ref + 1;
    }
    return true;
  }

  lemma CopyNone(out: seq<byte>, distance: nat)
    requires 1 <= distance <= |out|
    ensures CopyBack(out, distance, 0) == out
  {
  }

  lemma FitPrefix(out: seq<byte>, ulen: nat)
    requires |out| <= ulen
    ensures out <= Fit(out, ulen)
  {
  }

  /** The match at `at`, its control byte already seen to be one. */
  method ReadMatch(data: seq<byte>, at: nat) returns (ok: bool, distance: int, length: int, next: nat)
    requires at < |data| && data[at] >= 32
    ensures ok <==> HeadMatch(data[at..]).Some?
    ensures ok ==> HeadMatch(data[at..]) == Some(Match(distance, length)) && 1 <= distance <= 8192 && 3 <= length <= 264
    ensures ok ==> next == at + |Encode(Match(distance, length))| <= |data|
  {
    ghost var from := data[at..];
    var ctrl: int := data[at];
    var i := at + 1;
    length := ctrl / 32;
    distance := 0;
    if length == 7 {
      if i >= |data| {
        return false, 0, 0, 0;
      }
      assert from[1] == data[i];
      length := length + data[i];
      i := i + 1;
    }
    if i >= |data| {
      return false, 0, 0, 0;
    }
    assert from[i - at] == data[i];
    return true, ctrl % 32 * 256 + data[i] + 1, length + 2, i + 1;
  }

  lemma {:induction false} UnpackStep(data: seq<byte>, at: nat, out: seq<byte>, ulen: nat)
    requires at < |data|
    ensures
      match Next(data[at..], out, ulen)
      case None => Unpack(data[at..], out, ulen) == None
      case Some(t) =>
        && Reaches(t, |out|) && at + |Encode(t)| <= |data|
        && Unpack(data[at..], out, ulen) == Unpack(data[at + |Encode(t)|..], Grow(t, out), ulen)
  {
    var from := data[at..];
    if Next(from, out, ulen).Some? {
      NextIsEncoded(from, out, ulen);
      var n := |Encode(Next(from, out, ulen).value)|;
      assert from[n..] == data[at + n..];
    }
  }

  lemma {:induction false} LiteralNext(data: seq<byte>, at: nat, out: seq<byte>, ulen: nat)
    requires at < |data| && data[at] < 32 && |out| <= ulen
    ensures
      var end := at + data[at] + 2;
      Next(data[at..], out, ulen) ==
        if end > |data| then None else Some(Literal(data[at + 1..end]))
  {
    var from := data[at..];
    var end := at + data[at] + 2;
    if end <= |data| {
      assert from[1..data[at] + 2] == data[at + 1..end];
    }
  }

  /** Carries out the token at `at`. */
  method Step(data: seq<byte>, at: nat, output: array<byte>, ghost out: seq<byte>, o: nat)
      returns (ok: bool, i: nat, size: nat)
    requires at < |data| && o == |out| && output.Length <= INDEX_LIMIT && output[..] == Fit(out, output.Length)
    modifies output
    ensures ok <==> Next(data[at..], out, output.Length).Some?
    ensures ok ==>
      var t := Next(data[at..], out, output.Length).value;
      Reaches(t, |out|) && at < i == at + |Encode(t)| <= |data| && size == Size(t) &&
        output[..] == Fit(Grow(t, out), output.Length)
  {
    hide Fit, HeadMatch, CopyBack;
    ok, i, size := false, 0, 0;
    if o > output.Length {
      return;
    }
    var ctrl: int := data[at];
    if ctrl < 32 {
      LiteralNext(data, at, out, output.Length);
      if at + ctrl + 2 > |data| {
        return;
      }
      PutRun(output, out, o, data[at + 1..at + ctrl + 2]);
      return true, at + ctrl + 2, ctrl + 1;
    }
    var distance, length;
    ok, distance, length, i := ReadMatch(data, at);
    if ok {
      ok := PutMatch(output, out, o, distance, length);
      size := length;
    }
  }

  /** One turn of the loop: a token carried out leaves the same answer to come. */
  method Turn(data: seq<byte>, at: nat, output: array<byte>, ghost out: seq<byte>, o: nat)
    returns (ok: bool, i: nat, size: nat, ghost grown: seq<byte>)
    requires at < |data| && o == |out| && output.Length <= INDEX_LIMIT && output[..] == Fit(out, output.Length)
    modifies output
    ensures !ok ==> Unpack(data[at..], out, output.Length) == None
    ensures ok ==> at < i <= |data| && |grown| == o + size && output[..] == Fit(grown, output.Length)
    ensures ok ==> Unpack(data[at..], out, output.Length) == Unpack(data[i..], grown, output.Length)
  {
    hide *;
    UnpackStep(data, at, out, output.Length);
    ghost var t := Next(data[at..], out, output.Length);
    ok, i, size := Step(data, at, output, out, o);
    grown := if ok then Grow(t.value, out) else [];
  }

  /** The loop over the tokens. */
  method Run(data: seq<byte>, output: array<byte>) returns (ok: bool)
    requires output.Length <= INDEX_LIMIT && output[..] == Fit([], output.Length)
    modifies output
    ensures Unpack(data, [], output.Length) == if ok then Some(output[..]) else None
  {
    ghost var ulen := output.Length;
    var i, o := 0, 0;
    ghost var out: seq<byte> := [];
    assert data[0..] == data;
    hide Fit, Unpack;
    while i < |data|
      invariant i <= |data| && o == |out| && output[..] == Fit(out, ulen)
      invariant Unpack(data, [], ulen) == Unpack(data[i..], out, ulen)
    {
      var done, next, size;
      ghost var grown;
      done, next, size, grown := Turn(data, i, output, out, o);
      if !done {
        return false;
      }
      i, o, out := next, o + size, grown;
    }
    UnpackEnd(data, out, ulen);
    return true;
  }

  method Decompress(data: seq<byte>, ulen: int) returns (r: Option<seq<byte>>)
    requires |data| <= INDEX_LIMIT && ulen <= INDEX_LIMIT
    ensures r == if ulen < 0 then None else Unpack(data, [], ulen)
  {
    if ulen < 0 {
      return None;
    }
    hide Unpack;
    var output := new byte[ulen](_ => 0);
    assert output[..] == Fit([], ulen);
    var ok := Run(data, output);
    return if ok then Some(output[..]) else None;
  }

  lemma UnpackEnd(data: seq<byte>, out: seq<byte>, ulen: nat)
    ensures Unpack(data[|data|..], out, ulen) == Some(Fit(out, ulen))
  {
  }
}
