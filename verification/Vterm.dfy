/** The terminal ring buffer of hype/vterm.c: all-or-nothing writes and reads of up to sixteen
    bytes on one circular buffer with two cursors. */
module Vterm {

  const MAX_READ: nat := 16

  /** The bytes from read cursor r to write cursor w. */
  function Ring(b: seq<char>, r: nat, w: nat): seq<char>
    requires r < |b| && w < |b|
  {
    if r <= w then b[r..w] else b[r..] + b[..w]
  }

  lemma RingLength(b: seq<char>, r: nat, w: nat)
    requires r < |b| && w < |b|
    ensures |Ring(b, r, w)| == if r <= w then w - r else |b| - r + w
  {
  }

  lemma RingEmpty(b: seq<char>, r: nat)
    requires r < |b|
    ensures Ring(b, r, r) == Ring(b, 0, 0) == []
  {
  }

  /** The cursor after i in a ring of n. */
  function Next(i: nat, n: nat): (j: nat)
    requires i < n
    ensures j < n
  {
    if i + 1 == n then 0 else i + 1
  }

  lemma Wraps(i: nat, n: nat)
    requires i < n
    ensures (i + 1) % n == Next(i, n)
  {
  }

  /** Storing at the write cursor appends, while a slot stays free. */
  lemma Push(b: seq<char>, r: nat, w: nat, x: char)
    requires r < |b| && w < |b| && |Ring(b, r, w)| + 1 < |b|
    ensures Ring(b[w := x], r, Next(w, |b|)) == Ring(b, r, w) + [x]
  {
  }

  /** Loading at the read cursor takes the first byte. */
  lemma Pop(b: seq<char>, r: nat, w: nat)
    requires r < |b| && w < |b| && r != w
    ensures Ring(b, r, w) == [b[r]] + Ring(b, Next(r, |b|), w)
  {
  }

  class Fifo {
    var r: nat
    var w: nat
    const b: array<char>
    var reap: bool
    var full: bool
    ghost var accepted: seq<char>
    ghost var delivered: seq<char>

    ghost function Contents(): seq<char>
      requires r < b.Length && w < b.Length
      reads this, b
    {
      Ring(b[..], r, w)
    }

    /** What has been read and what is still queued make up what was accepted, in order. */
    ghost predicate Valid()
      reads this, b
    {
      && b.Length < 0x1_0000 && r < b.Length && w < b.Length
      && accepted == delivered + Contents()
    }

    constructor (size: nat, doomed: bool)
      requires 0 < size < 0x1_0000
      ensures Valid() && b.Length == size && reap == doomed && Contents() == accepted == [] && fresh(b)
    {
      r, w, full, reap := 0, 0, false, doomed;
      b := new char[size](_ => ' ');
      accepted, delivered := [], [];
    }

    /** vtf_write: everything or nothing, one slot always left free. */
    method Write(c: nat, buf: seq<char>) returns (n: nat)
      requires Valid() && c <= |buf|
      modifies this, b
      ensures Valid() && delivered == old(delivered) && reap == old(reap)
      ensures n == (if !reap && old(|Contents()|) + c < b.Length then c else 0)
      ensures Contents() == old(Contents()) + buf[..n] && accepted == old(accepted) + buf[..n]
      ensures full == if reap then old(full) else old(|Contents()|) + c >= b.Length
    {
      hide Ring, Next;
      RingLength(b[..], r, w);
      n := 0;
      if reap {
        assert old(Contents()) + buf[..0] == old(Contents()) && accepted + buf[..0] == accepted;
        return;
      }
      var sz;
      if w < r {
        sz := r - w;
      } else {
        sz := b.Length - w;
        sz := sz + r;
      }
      sz := sz - 1;
      if sz >= c {
        var i := 0;
        assert buf[..0] == [];
        while i < c
          invariant 0 <= i <= c && r == old(r) < b.Length && w < b.Length
          invariant Contents() == old(Contents()) + buf[..i]
          invariant accepted == old(accepted) && delivered == old(delivered) && reap == old(reap)
        {
          Push(b[..], r, w, buf[i]);
          Wraps(w, b.Length);
          ghost var after := b[..][w := buf[i]];
          b[w] := buf[i];
          assert b[..] == after;
          w := w + 1;
          w := w % b.Length;
          assert buf[..i + 1] == buf[..i] + [buf[i]];
          i := i + 1;
        }
        full, n := false, c;
        accepted := accepted + buf[..c];
      } else {
        full := true;
        assert old(Contents()) + buf[..0] == old(Contents()) && accepted + buf[..0] == accepted;
      }
    }

    /** The copying loop of vtf_read. */
    method Drain(sz: nat) returns (out: seq<char>)
      requires r < b.Length && w < b.Length && sz <= |Contents()|
      modifies `r
      ensures r < b.Length && |out| == sz && old(Contents()) == out + Contents()
    {
      hide Ring, Next;
      ghost var q := Contents();
      out := [];
      var i := 0;
      while i < sz
        invariant 0 <= i <= sz && r < b.Length
        invariant out == q[..i] && Contents() == q[i..]
      {
        RingLength(b[..], r, w);
        Pop(b[..], r, w);
        Wraps(r, b.Length);
        assert q[i..][0] == q[i] && q[i..][1..] == q[i + 1..] && q[..i + 1] == q[..i] + [q[i]];
        out := out + [b[r]];
        r := r + 1;
        r := r % b.Length;
        i := i + 1;
      }
    }

    /** vtf_read: the oldest bytes, at most sixteen; both cursors go home when nothing is left. */
    method Read() returns (out: seq<char>)
      requires Valid()
      modifies this
      ensures Valid() && accepted == old(accepted) && reap == old(reap)
      ensures |out| == (if old(|Contents()|) < MAX_READ then old(|Contents()|) else MAX_READ)
      ensures old(Contents()) == out + Contents() && delivered == old(delivered) + out
      ensures out != [] && Contents() == [] ==> r == w == 0
      ensures full == (old(full) && out == [])
    {
      hide Ring;
      RingLength(b[..], r, w);
      var sz;
      if r == w {
        sz := 0;
      } else if r < w {
        sz := w - r;
      } else {
        sz := b.Length - r;
        sz := sz + w;
      }
      sz := if sz < MAX_READ then sz else MAX_READ;
      out := [];
      if sz > 0 {
        out := Drain(sz);
        RingLength(b[..], r, w);
        if r == w {
          RingEmpty(b[..], r);
          r, w := 0, 0;
        }
        full := false;
      }
      assert accepted == (delivered + out) + Contents();
      delivered := delivered + out;
    }
  }
}
