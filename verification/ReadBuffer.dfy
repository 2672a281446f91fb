/** The growable read buffer: pkg/bufio/buffer.go and the Reader of pkg/bufio/io.go. */
module ReadBuffer {
  import opened Text

  const GROW_FACTOR := 2

  class Buffer {
    var buf: array<char>
    var r: nat
    var w: nat

    ghost predicate Valid()
      reads this
    {
      r <= w <= buf.Length && buf.Length > 0
    }

    /** The bytes received and not yet consumed. */
    ghost function Unread(): string
      requires Valid()
      reads this, buf
    {
      buf[r..w]
    }

    /** The free space the next `Reader.Read` will offer the connection. */
    function Room(): nat
      requires Valid()
      reads this
    {
      if w - r == buf.Length then buf.Length
      else if w == buf.Length then r
      else buf.Length - w
    }

    constructor (size: nat)
      requires size > 0
      ensures Valid() && fresh(buf) && buf.Length == size && r == w == 0
    {
      buf := new char[size](_ => '\0');
      r, w := 0, 0;
    }

    method Grow()
      requires Valid()
      modifies this`buf
      ensures Valid() && fresh(buf) && buf.Length == 2 * old(buf.Length)
      ensures Unread() == old(Unread())
    {
      var nb := new char[buf.Length * GROW_FACTOR](_ => '\0');
      for i := 0 to w
        invariant forall j :: 0 <= j < i ==> nb[j] == buf[j]
        modifies nb
      {
        nb[i] := buf[i];
      }
      assert nb[r..w] == buf[r..w];
      buf := nb;
    }

    method Shrink()
      requires Valid()
      modifies this`r, this`w, buf
      ensures Valid() && buf == old(buf) && r == 0 && w == old(w) - old(r)
      ensures Unread() == old(Unread())
    {
      if r == 0 {
        return;
      }
      ghost var unread := buf[r..w];
      for i := 0 to w - r
        invariant forall j :: 0 <= j < i ==> buf[j] == unread[j]
        invariant forall j :: r + i <= j < w ==> buf[j] == unread[j - r]
        modifies buf
      {
        buf[i] := buf[r + i];
      }
      w := w - r;
      r := 0;
      assert buf[0..w] == unread;
    }

    method Buffered() returns (n: nat)
      requires Valid()
      ensures n == |Unread()|
    {
      n := w - r;
    }

    /** Moves the read position; the codec also uses it to step back. */
    method Advance(n: int)
      requires Valid() && 0 <= r + n <= w
      modifies this`r
      ensures Valid() && r == old(r) + n
    {
      r := r + n;
    }
  }

  /** A read always has somewhere to put at least one byte. */
  lemma RoomIsPositive(b: Buffer)
    requires b.Valid()
    ensures b.Room() > 0
  {
  }

  datatype IoError = NoError | EOF | Broken | NoProgress | BufferFull

  class Reader {
    const b: Buffer
    var err: IoError

    ghost predicate Valid()
      reads this, b
    {
      b.Valid()
    }

    constructor (b: Buffer)
      requires b.Valid()
      ensures Valid() && this.b == b && err == NoError
    {
      this.b := b;
      err := NoError;
    }

    /** One read from the connection, which hands over `got` together with `e`. */
    method Fill(got: string, e: IoError) returns (res: IoError)
      requires Valid() && |got| <= b.buf.Length - b.w && err == NoError
      modifies this`err, b`w, b.buf
      ensures Valid() && b.Unread() == old(b.Unread()) + got
      ensures err == e && res == if e != NoError then e else if got == "" then NoProgress else NoError
    {
      ghost var before := b.Unread();
      for i := 0 to |got|
        invariant forall j :: 0 <= j < i ==> b.buf[b.w + j] == got[j]
        invariant b.Unread() == before
        modifies b.buf
      {
        b.buf[b.w + i] := got[i];
      }
      b.w := b.w + |got|;
      assert b.buf[b.r..b.w] == before + got;
      if e != NoError {
        err := e;
        return e;
      } else if got == "" {
        return NoProgress;
      }
      return NoError;
    }

    /**
     Makes room, then reads once. An end of file is not reported here but by the next
     access, because `fill` has recorded it.
     */
    method Read(got: string, e: IoError) returns (res: IoError)
      requires Valid() && |got| <= b.Room()
      modifies this`err, b, b.buf
      ensures Valid() && (fresh(b.buf) || b.buf == old(b.buf))
      ensures old(err) != NoError ==> res == old(err) == err && b.Unread() == old(b.Unread())
      ensures old(err) == NoError ==> err == e && b.Unread() == old(b.Unread()) + got
      ensures old(err) == NoError ==>
        res == if e == NoError then (if got == "" then NoProgress else NoError) else if e == EOF then NoError else e
    {
      if err != NoError {
        return err;
      }
      var buffered := b.Buffered();
      if buffered == b.buf.Length {
        b.Grow();
      }
      if b.w == b.buf.Length {
        b.Shrink();
      }
      res := Fill(got, e);
      if res == EOF {
        res := NoError;
      }
    }

    method Mark() returns (m: nat)
      ensures m == b.r
    {
      m := b.r;
    }

    method AdvanceTo(mark: nat)
      requires Valid() && mark <= b.w
      modifies b`r
      ensures Valid() && b.r == mark
    {
      b.Advance(mark - b.r);
    }

    /** `bytes.Index` of the line end in the unread bytes. */
    method FindLineEnd() returns (idx: int)
      requires Valid()
      ensures idx == IndexCrlf(b.Unread())
    {
      ghost var s := b.Unread();
      var i := b.r;
      while i + 1 < b.w
        invariant b.r <= i <= b.w
        invariant forall j :: 0 <= j < i - b.r ==> !CrlfAt(s, j)
      {
        assert s[i - b.r] == b.buf[i] && s[i + 1 - b.r] == b.buf[i + 1];
        if b.buf[i] == '\r' && b.buf[i + 1] == '\n' {
          IndexCrlfIs(s, i - b.r);
          return i - b.r;
        }
        i := i + 1;
      }
      return -1;
    }

    /** The next line with its line end, or `BufferFull` without moving. */
    method ReadLine() returns (line: string, e: IoError)
      requires Valid()
      modifies b`r
      ensures Valid()
      ensures err != NoError ==> e == err && b.r == old(b.r)
      ensures err == NoError && IndexCrlf(old(b.Unread())) < 0 ==> e == BufferFull && b.r == old(b.r)
      ensures err == NoError && IndexCrlf(old(b.Unread())) >= 0 ==>
        e == NoError && |line| == IndexCrlf(old(b.Unread())) + 2 && line == old(b.Unread())[..|line|]
        && b.r == old(b.r) + |line|
    {
      if err != NoError {
        return "", err;
      }
      var idx := FindLineEnd();
      if idx == -1 {
        return "", BufferFull;
      }
      ghost var s := b.Unread();
      assert CrlfAt(s, idx) && |s| == b.w - b.r;
      line := b.buf[b.r..b.r + idx + 2];
      assert forall i :: 0 <= i < idx + 2 ==> line[i] == b.buf[b.r + i] == s[i];
      assert line == s[..idx + 2];
      b.Advance(idx + 2);
      return line, NoError;
    }

    /** Exactly `n` bytes, or `BufferFull` without moving. */
    method ReadExact(n: nat) returns (data: string, e: IoError)
      requires Valid()
      modifies b`r
      ensures Valid()
      ensures err != NoError ==> e == err && b.r == old(b.r)
      ensures err == NoError && |old(b.Unread())| < n ==> e == BufferFull && b.r == old(b.r)
      ensures err == NoError && |old(b.Unread())| >= n ==>
        e == NoError && data == old(b.Unread())[..n] && b.r == old(b.r) + n
    {
      if err != NoError {
        return "", err;
      }
      var buffered := b.Buffered();
      if buffered < n {
        return "", BufferFull;
      }
      ghost var s := b.Unread();
      data := b.buf[b.r..b.r + n];
      assert forall i :: 0 <= i < n ==> data[i] == b.buf[b.r + i] == s[i];
      assert data == s[..n];
      b.Advance(n);
      return data, NoError;
    }
  }
}
