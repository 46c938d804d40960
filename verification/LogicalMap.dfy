/** The per-partition map from logical chunks to resources: set_lci and detach_lci of hype/pmm.c,
    with the bitmap of chunks in use. */
module LogicalMap {
  import opened Lists
  import opened Words
  import opened Arith
  import opened Bitmap

  const CHUNK: nat := 0x400_0000           // 1 << LOG_CHUNKSIZE, 26 by default
  const MAX_CHUNKS: nat := 512             // MAX_LOGICAL_MEM_CHUNKS with 8-byte pointers

  type Id = nat

  /** Chunks touched by `size` bytes that start at the chunk offset of laddr. */
  function ChunksFor(size: nat, laddr: nat): nat {
    (size + laddr % CHUNK + CHUNK - 1) / CHUNK
  }

  /** No chunk too many and none too few. */
  lemma ChunksExact(size: nat, laddr: nat)
    requires size > 0
    ensures var n := ChunksFor(size, laddr); (n - 1) * CHUNK < laddr % CHUNK + size <= n * CHUNK
  {
  }

  /** The chunks of a range are those its addresses lie in. */
  lemma ChunksCover(size: nat, laddr: nat, c: nat)
    ensures size > 0 ==>
              (laddr / CHUNK <= c < laddr / CHUNK + ChunksFor(size, laddr)
               <==> laddr < (c + 1) * CHUNK && c * CHUNK < laddr + size)
    ensures forall x: nat :: laddr <= x < laddr + size ==>
                               laddr / CHUNK <= x / CHUNK < laddr / CHUNK + ChunksFor(size, laddr)
  {
    assert laddr == laddr / CHUNK * CHUNK + laddr % CHUNK;
  }

  /** log2 of the lowest bit set in n. */
  function LowBit(n: nat): (k: nat)
    requires n > 0
    ensures Pow2(k) <= n
  {
    if n % 2 == 1 then 0 else 1 + LowBit(n / 2)
  }

  /** The map with n chunks from i on given to id. */
  ghost function Placed(p: seq<Option<Id>>, i: nat, n: nat, id: Id): (r: seq<Option<Id>>)
    ensures |r| == |p|
  {
    seq(|p|, c requires 0 <= c < |p| => if i <= c < i + n then Some(id) else p[c])
  }

  /** The map with the entries of id cleared. */
  ghost function Erased(p: seq<Option<Id>>, id: Id): (r: seq<Option<Id>>)
    ensures |r| == |p|
  {
    seq(|p|, c requires 0 <= c < |p| => if p[c] == Some(id) then None else p[c])
  }

  /** The chunks of id are those from i up to i + n. */
  ghost predicate Occupies(p: seq<Option<Id>>, id: Id, i: nat, n: nat) {
    i + n <= |p| && forall c :: 0 <= c < |p| ==> (p[c] == Some(id) <==> i <= c < i + n)
  }

  /** A chunk is in use exactly when it has an entry. */
  ghost predicate Tracks(words: seq<Word>, p: seq<Option<Id>>) {
    && |p| == MAX_CHUNKS == Size(words)
    && forall c :: 0 <= c < MAX_CHUNKS ==> (BitAt(words, c) <==> p[c].Some?)
  }

  lemma PlacedTracks(w: seq<Word>, w': seq<Word>, p: seq<Option<Id>>, i: nat, n: nat, id: Id)
    requires Tracks(w, p) && Updated(w, w', i, n, true)
    ensures Tracks(w', Placed(p, i, n, id))
  {
  }

  class LogicalMemoryMap {
    var pLci: array<Option<Id>>
    var usage: Lbm

    ghost predicate Valid()
      reads this, pLci, usage, usage.words
    {
      usage.Valid() && usage.num == MAX_CHUNKS && Tracks(usage.words[..], pLci[..])
    }

    constructor ()
      ensures Valid() && fresh(pLci) && fresh(usage) && fresh(usage.words)
      ensures pLci[..] == seq(MAX_CHUNKS, _ => None)
    {
      pLci := new Option<Id>[MAX_CHUNKS](_ => None);
      usage := new Lbm(MAX_CHUNKS, false);
    }

    /** test_bits from bit 0: whether the first n chunks are all unused. */
    method FirstUnused(n: nat) returns (r: bool)
      requires Valid() && n <= MAX_CHUNKS
      ensures r <==> AllBits(usage.words[..], false, 0, n)
    {
      var bit := 0;
      while bit < n
        invariant bit <= n && AllBits(usage.words[..], false, 0, bit)
      {
        if Shr(usage.words[bit / BITS], bit % BITS)[0] {
          assert BitAt(usage.words[..], bit);
          return false;
        }
        bit := bit + 1;
      }
      return true;
    }

    /** The search set_lci falls back on. */
    ghost function Search(n: nat): (q: Request)
      requires n > 0
      reads this, usage, usage.words
      ensures q.align > 0
    {
      Request(usage.words[..], false, n, Pow2(LowBit(n)), 0)
    }

    /** Places a resource of the given size on unused chunks: the first ones if they will do, else
        the lowest run aligned to the lowest bit of its chunk count, if that is no more than a
        word of bits. */
    method SetLci(id: Id, size: nat, laddr: nat) returns (at: Option<nat>)
      requires Valid() && 0 < ChunksFor(size, laddr) <= MAX_CHUNKS
      modifies pLci, usage.words
      ensures Valid()
      ensures at.None? ==> pLci[..] == old(pLci[..])
      ensures at.Some? ==>
                && at.value + ChunksFor(size, laddr) <= MAX_CHUNKS
                && (forall c :: at.value <= c < at.value + ChunksFor(size, laddr) ==> old(pLci[..])[c].None?)
                && pLci[..] == Placed(old(pLci[..]), at.value, ChunksFor(size, laddr), id)
      ensures AllBits(old(usage.words[..]), false, 0, ChunksFor(size, laddr)) ==> at == Some(0)
      ensures Pow2(LowBit(ChunksFor(size, laddr))) <= BITS ==>
                forall c: nat :: at.None? || c < at.value ==> !Fit(old(Search(ChunksFor(size, laddr))), c)
    {
      hide Tracks, Updated, RangeSearch, Fit, Pow2, LowBit, AllBits, Placed, CanStray;
      var n := ChunksFor(size, laddr);
      ghost var q, p := Search(n), pLci[..];
      SearchMeaning(q, n);
      ChunksStay(n);
      var i := 0;
      var free := FirstUnused(n);
      if !free {
        var r := usage.FindRange(false, n, LowBit(n), 0);
        if r.NotFound? {
          return None;
        }
        i := r.at;
      }
      UnusedEmpty(q.words, p, i, n);
      usage.SetBits(i, n, true);
      PlacedTracks(q.words, usage.words[..], p, i, n, id);
      FillEntries(i, n, id);
      return Some(i);
    }

    method FillEntries(i: nat, n: nat, id: Id)
      requires i + n <= pLci.Length
      modifies pLci
      ensures pLci[..] == Placed(old(pLci[..]), i, n, id)
    {
      var j := 0;
      while j < n
        invariant j <= n && pLci[..] == Placed(old(pLci[..]), i, j, id)
      {
        pLci[i + j] := Some(id);
        j := j + 1;
      }
    }

    /** Clears the entries of a resource that occupies the n chunks from its own on, if it is there
        at all. */
    method DetachLci(id: Id, laddr: nat, ghost n: nat) returns (found: bool)
      requires Valid() && (laddr / CHUNK >= MAX_CHUNKS ==> n == 0)
      requires n > 0 ==> Occupies(pLci[..], id, laddr / CHUNK, n)
      requires n == 0 ==> forall c :: 0 <= c < MAX_CHUNKS ==> pLci[..][c] != Some(id)
      modifies pLci, usage.words
      ensures Valid() && (found <==> n > 0)
      ensures pLci[..] == Erased(old(pLci[..]), id)
    {
      ghost var p := pLci[..];
      var first := laddr / CHUNK;
      var idx := first;
      found := false;
      while idx < MAX_CHUNKS && pLci[idx] == Some(id)
        invariant pLci == old(pLci) && usage == old(usage) && usage.words == old(usage.words)
        invariant Valid() && first <= idx <= first + n
        invariant found <==> idx > first
        invariant forall c :: 0 <= c < MAX_CHUNKS ==> pLci[..][c] == if first <= c < idx then None else p[c]
        decreases MAX_CHUNKS - idx
      {
        assert p[idx] == Some(id);
        EntryCleared(idx);
        idx := idx + 1;
        found := true;
      }
      assert idx < MAX_CHUNKS ==> pLci[..][idx] == p[idx];
      assert pLci[..] == Erased(p, id);
    }

    method EntryCleared(idx: nat)
      requires Valid() && idx < MAX_CHUNKS
      modifies pLci, usage.words
      ensures Valid() && pLci[..] == old(pLci[..])[idx := None]
    {
      hide BitAt;
      ghost var w, p := usage.words[..], pLci[..];
      pLci[idx] := None;
      usage.SetBits(idx, 1, false);
      assert pLci[..] == p[idx := None];
    }
  }

  lemma UnusedEmpty(words: seq<Word>, p: seq<Option<Id>>, i: nat, n: nat)
    requires Tracks(words, p) && AllBits(words, false, i, i + n)
    ensures i + n <= MAX_CHUNKS == |p| && forall c :: i <= c < i + n ==> p[c].None?
  {
  }

  lemma {:induction false} LowBitDivides(n: nat)
    requires n > 0
    ensures n % Pow2(LowBit(n)) == 0
  {
    if n % 2 == 0 {
      var m := Pow2(LowBit(n / 2));
      LowBitDivides(n / 2);
      assert n == n / 2 / m * (2 * m);
      Multiple(n / 2 / m, 2 * m);
    }
  }

  lemma {:induction false} LowBitOdd(n: nat)
    requires n > 0
    ensures n / Pow2(LowBit(n)) % 2 == 1
  {
    hide Pow2;
    if n % 2 == 0 {
      LowBitOdd(n / 2);
      HalfQuotient(n, Pow2(LowBit(n / 2)));
      Pow2Next(LowBit(n / 2));
    } else {
      Pow2Zero();
    }
  }

  lemma Pow2Zero()
    ensures Pow2(0) == 1
  {
  }

  lemma Pow2Next(k: nat)
    ensures Pow2(k + 1) == 2 * Pow2(k)
  {
  }

  lemma HalfQuotient(n: nat, m: nat)
    requires m > 0 && n % 2 == 0
    ensures n / (2 * m) == n / 2 / m
  {
    var q, t := n / 2 / m, n / 2 % m;
    assert n / 2 == q * m + t;
    assert n == q * (2 * m) + 2 * t;
    DivModUnique(n, 2 * m, q, 2 * t);
  }

  /** The search of set_lci never reads past the bitmap: a run is no shorter than its alignment. */
  lemma ChunksStay(n: nat)
    requires n > 0
    ensures !CanStray(MAX_CHUNKS, n, Pow2(LowBit(n)), 0)
  {
    hide Pow2, LowBit, AlignUp;
    var align := Pow2(LowBit(n));
    LowBitDivides(n);
    SameRemainder(0, n, align);
    if AlignUp(0, align, 0) < MAX_CHUNKS {
      LastMultiple(MAX_CHUNKS, align, 0, AlignUp(0, align, 0));
    }
  }

  lemma SearchMeaning(q: Request, n: nat)
    requires n > 0 && q == Request(q.words, false, n, Pow2(LowBit(n)), 0) && n <= Size(q.words)
    ensures RangeSearch(q).Found? ==> AllBits(q.words, false, RangeSearch(q).at, RangeSearch(q).at + n)
    ensures Pow2(LowBit(n)) <= BITS && RangeSearch(q) != Stray ==>
              forall c: nat :: RangeSearch(q).NotFound? || c < RangeSearch(q).at ==> !Fit(q, c)
  {
    RangeSearchIsFit(q);
    if q.align <= BITS {
      Pow2Divides(LowBit(n));
      RangeSearchIsFirstFit(q);
    }
  }
}
