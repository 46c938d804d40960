/** The large bitmap of lib/bitmap.c: masked writes and the word-at-a-time range search, against
    a bit-at-a-time reading of the same words. */
module Bitmap {
  import opened Words
  import opened Arith

  function Pow2(k: nat): (r: nat)
    ensures r > 0
  {
    if k == 0 then 1 else 2 * Pow2(k - 1)
  }

  function Size(words: seq<Word>): nat {
    |words| * BITS
  }

  function BitAt(words: seq<Word>, j: nat): bool
    requires j < Size(words)
  {
    words[j / BITS][j % BITS]
  }

  /** All bits from lo up to hi have the value. */
  ghost predicate AllBits(words: seq<Word>, val: bool, lo: nat, hi: nat) {
    hi <= Size(words) && forall j :: lo <= j < hi ==> BitAt(words, j) == val
  }

  /** The bits start up to start + count take the value; all others stay. */
  ghost predicate Updated(before: seq<Word>, after: seq<Word>, start: nat, count: nat, val: bool) {
    && |after| == |before|
    && forall j :: 0 <= j < Size(before) ==>
                     BitAt(after, j) == if start <= j < start + count then val else BitAt(before, j)
  }

  // ---------------------------------------------------------------------------------------------
  // lbm_set_bits

  /** The mask of bits start up to end of one word, as the C code builds it. */
  function RangeMask(start: nat, end: nat): Word {
    if end >= BITS then Shl(Ones(), start) else Xor(Shl(Ones(), start), Shl(Ones(), end))
  }

  function Masked(w: Word, mask: Word, val: bool): Word {
    if val then Or(w, mask) else And(w, Not(mask))
  }

  /** Writing one masked word changes exactly the bits of the mask. */
  lemma WordUpdated(words: seq<Word>, start: nat, count: nat, val: bool)
    requires start + count <= Size(words) && start % BITS + count <= BITS && count > 0
    ensures var k := start / BITS;
            && k < |words|
            && Updated(words, words[k := Masked(words[k], RangeMask(start % BITS, start % BITS + count), val)],
                       start, count, val)
  {
  }

  lemma UpdatedChain(a: seq<Word>, b: seq<Word>, c: seq<Word>, start: nat, m: nat, n: nat, val: bool)
    requires Updated(a, b, start, m, val) && Updated(b, c, start + m, n, val)
    ensures Updated(a, c, start, m + n, val)
  {
  }

  class Lbm {
    var num: nat
    var words: array<Word>

    ghost predicate Valid()
      reads this
    {
      words.Length == (num + BITS - 1) / BITS
    }

    constructor (num: nat, val: bool)
      ensures Valid() && this.num == num && fresh(words)
      ensures AllBits(words[..], val, 0, Size(words[..]))
    {
      this.num := num;
      words := new Word[(num + BITS - 1) / BITS](_ => if val then Ones() else Zero());
    }

    /** Sets exactly the named bits, those past the end of the map excepted. */
    method SetBits(start: nat, count: nat, val: bool)
      requires Valid() && start <= num
      modifies words
      ensures Updated(old(words[..]), words[..], start, if start + count > num then num - start else count, val)
    {
      hide RangeMask, Masked, Updated;
      var at, left := start, count;
      if at + left > num {
        left := num - at;
      }
      ghost var total := left;
      ghost var before := words[..];
      NothingUpdated(before, start, val);
      while left > 0
        invariant at == start + total - left && 0 <= left <= total && at + left <= num
        invariant Updated(before, words[..], start, total - left, val)
      {
        ghost var now := words[..];
        var first := at % BITS;
        var end := first + left;
        var mask := RangeMask(first, end);
        if end >= BITS {
          end := BITS;
        }
        RangeMaskClamp(first, first + left, end);
        WordUpdated(now, at, end - first, val);
        words[at / BITS] := Masked(words[at / BITS], mask, val);
        assert words[..] == now[at / BITS := Masked(now[at / BITS], mask, val)];
        UpdatedChain(before, now, words[..], start, total - left, end - first, val);
        at := at + (end - first);
        left := left - (end - first);
      }
    }

    /** Locates num bits of the given value, position + base a multiple of 2^logAlign. */
    method FindRange(val: bool, num: nat, logAlign: nat, base: nat) returns (r: Outcome)
      requires num <= Size(words[..]) && !CanStray(Size(words[..]), num, Pow2(logAlign), base)
      ensures r != Stray && r == RangeSearch(Request(words[..], val, num, Pow2(logAlign), base))
    {
      hide Skippable, AllBits, AlignUp, And, Shr, Ones, Zero, FindFrom, Pow2;
      var align := Pow2(logAlign);
      ghost var q := Request(words[..], val, num, align, base);
      StaysInMap(q, logAlign);
      var i := AlignUp(0, align, base);
      var matched := 0;
      if num == 0 {
        return NotFound;
      }
      while i - matched <= words.Length * BITS - num
        invariant matched < num && 0 <= matched <= i
        invariant RangeSearch(q) == FindFrom(q, i, matched)
        decreases words.Length * BITS + BITS + align - i
      {
        FindFromUnfold(q, i, matched);
        if Skippable(words[i / BITS], val) {
          i := i + BITS;
          matched := 0;
          continue;
        }
        if matched == 0 {
          i := AlignUp(i, align, base);
        }
        var chunk := Chunk(num, matched, i);
        var mask := Shr(Ones(), BITS - chunk);
        var test := And(Shr(words[i / BITS], i % BITS), mask);
        TestBits(words[..], val, i, chunk);
        if (val && test == mask) || (!val && test == Zero()) {
          if matched + chunk == num {
            return Found(i - matched);
          }
          matched := matched + chunk;
          i := i + chunk;
        } else {
          matched := 0;
          i := i + align;
        }
      }
      FindFromUnfold(q, i, matched);
      return NotFound;
    }
  }

  lemma NothingUpdated(words: seq<Word>, start: nat, val: bool)
    ensures Updated(words, words, start, 0, val)
  {
  }

  lemma RangeMaskClamp(start: nat, end: nat, clamped: nat)
    requires clamped == if end >= BITS then BITS else end
    ensures RangeMask(start, clamped) == RangeMask(start, end)
  {
  }

  // ---------------------------------------------------------------------------------------------
  // lbm_find_range

  /** A request for num bits of value val, aligned so that position + base is a multiple of align. */
  datatype Request = Request(words: seq<Word>, val: bool, num: nat, align: nat, base: nat) {
    ghost predicate Valid() {
      0 < num <= Size(words) && align > 0
    }
  }

  /** Stray: the search would read past the last word. */
  datatype Outcome = Found(at: nat) | NotFound | Stray

  /** The position of the first bit at or after i that meets the alignment. */
  function AlignUp(i: nat, align: nat, base: nat): (r: nat)
    requires align > 0
    ensures r >= i && (r + base) % align == 0
  {
    var r := (i + base + align - 1) / align * align;
    assert r >= i + base && r % align == 0 by { RoundUp(i + base, align); }
    r - base
  }

  /** The whole word holds the other value. */
  predicate Skippable(w: Word, val: bool) {
    w == if val then Zero() else Ones()
  }

  /** How many bits are compared at once. */
  function Chunk(num: nat, matched: nat, i: nat): nat
    requires matched < num
  {
    if num - matched > BITS - i % BITS then BITS - i % BITS else num - matched
  }

  /** The search loop from position i with the last `matched` bits already found good. */
  ghost function FindFrom(q: Request, i: nat, matched: nat): Outcome
    requires q.Valid() && matched < q.num && matched <= i
    decreases if i < Size(q.words) then Size(q.words) - i else 0
  {
    if i - matched > Size(q.words) - q.num then NotFound
    else if Skippable(q.words[i / BITS], q.val) then FindFrom(q, i + BITS, 0)
    else
      var at := if matched == 0 then AlignUp(i, q.align, q.base) else i;
      if at >= Size(q.words) then Stray
      else
        var chunk := Chunk(q.num, matched, at);
        if !AllBits(q.words, q.val, at, at + chunk) then FindFrom(q, at + q.align, 0)
        else if matched + chunk == q.num then Found(at - matched)
        else FindFrom(q, at + chunk, matched + chunk)
  }

  ghost function RangeSearch(q: Request): Outcome
    requires q.align > 0 && q.num <= Size(q.words)
  {
    if q.num == 0 then NotFound else FindFrom(q, AlignUp(0, q.align, q.base), 0)
  }

  /** An aligned run of the requested bits starts at c. */
  ghost predicate Fit(q: Request, c: nat)
    requires q.align > 0
  {
    (c + q.base) % q.align == 0 && AllBits(q.words, q.val, c, c + q.num)
  }

  /** The lowest run if there is one, and an error exactly if there is none. */
  ghost predicate FirstFit(q: Request, r: Outcome)
    requires q.align > 0
  {
    match r
    case Found(at) => Fit(q, at) && forall c :: 0 <= c < at ==> !Fit(q, c)
    case NotFound => forall c: nat :: !Fit(q, c)
    case Stray => false
  }

  // ---------------------------------------------------------------------------------------------
  // First fit, when every word boundary meets the alignment

  ghost predicate WordAligned(align: nat, base: nat)
    requires align > 0
  {
    BITS % align == 0 && base % align == 0
  }

  /** What the loop knows at position i with `matched` good bits behind it. */
  ghost predicate Searching(q: Request, i: nat, matched: nat)
    requires q.Valid()
  {
    && matched < q.num && matched <= i
    && (i - matched) % q.align == 0
    && (matched > 0 ==> i <= Size(q.words) && i % BITS == 0 && AllBits(q.words, q.val, i - matched, i))
    && (matched == 0 && i % BITS != 0 && i < Size(q.words) ==> !Skippable(q.words[i / BITS], q.val))
    && (forall c :: 0 <= c < i - matched ==> !Fit(q, c))
  }

  /** A position is a candidate exactly when it is a multiple of the alignment. */
  lemma Candidate(q: Request, c: nat)
    requires q.Valid() && WordAligned(q.align, q.base)
    ensures (c + q.base) % q.align == c % q.align
  {
    AddMod(c, q.base, q.align);
  }

  /** A bad bit rules out every candidate whose run covers it. */
  lemma BadBit(q: Request, lo: nat, bad: nat, hi: nat)
    requires q.Valid() && bad < Size(q.words) && BitAt(q.words, bad) != q.val
    requires bad < lo + q.num && hi <= bad + 1
    ensures forall c :: lo <= c < hi ==> !Fit(q, c)
  {
  }

  lemma SkippedBit(words: seq<Word>, val: bool, j: nat)
    requires j < Size(words) && Skippable(words[j / BITS], val)
    ensures BitAt(words, j) != val
  {
  }

  lemma SkipNoFit(q: Request, i: nat, matched: nat, c: nat)
    requires q.Valid() && matched < q.num && matched <= i && i % BITS == 0 && i < Size(q.words)
    requires Skippable(q.words[i / BITS], q.val) && i - matched <= c < i + BITS
    ensures !Fit(q, c)
  {
    var bad := if c < i then i else c;
    assert bad / BITS == i / BITS;
    SkippedBit(q.words, q.val, bad);
    hide BitAt;
    BadBit(q, c, bad, c + 1);
  }

  /** The whole-word skip passes over no fit. */
  lemma SkipKeeps(q: Request, i: nat, matched: nat)
    requires q.Valid() && WordAligned(q.align, q.base) && Searching(q, i, matched)
    requires i - matched <= Size(q.words) - q.num && Skippable(q.words[i / BITS], q.val)
    ensures Searching(q, i + BITS, 0)
  {
    BoundaryAligned(i, q.align);
    AddMod(i, BITS, q.align);
    forall c | 0 <= c < i + BITS
      ensures !Fit(q, c)
    {
      if i - matched <= c {
        SkipNoFit(q, i, matched, c);
      }
    }
    hide Fit, Skippable;
  }

  lemma BoundaryAligned(i: nat, align: nat)
    requires align > 0 && BITS % align == 0 && i % BITS == 0
    ensures i % align == 0
  {
    assert BITS == BITS / align * align;
    assert i == i / BITS * BITS;
    assert i == (i / BITS * (BITS / align)) * align;
    Multiple(i / BITS * (BITS / align), align);
  }

  /** Rounding up leaves an aligned position where it is. */
  lemma AlignedStays(i: nat, align: nat, base: nat)
    requires align > 0 && (i + base) % align == 0
    ensures AlignUp(i, align, base) == i
  {
    var r := (i + base + align - 1) / align * align;
    RoundUp(i + base, align);
    if i + base < r {
      SameRemainder(i + base, r, align);
    }
  }

  /** One alignment step from a candidate does not reach into the middle of another word. */
  lemma StepWithinWord(i: nat, align: nat)
    requires align > 0 && BITS % align == 0 && i % align == 0 && (i + align) % BITS != 0
    ensures (i + align) / BITS == i / BITS
  {
    var b := (i / BITS + 1) * BITS;
    BoundaryAligned(b, align);
    SameRemainder(i, b, align);
  }

  lemma MismatchNoFit(q: Request, i: nat, matched: nat, bad: nat, c: nat)
    requires q.Valid() && WordAligned(q.align, q.base) && matched < q.num && matched <= i && i % q.align == 0
    requires i <= bad < i - matched + q.num && bad < Size(q.words) && BitAt(q.words, bad) != q.val
    requires i - matched <= c < i + q.align
    ensures !Fit(q, c)
  {
    if c <= i {
      BadBit(q, c, bad, c + 1);
    } else if Fit(q, c) {
      Candidate(q, c);
      SameRemainder(i, c, q.align);
    }
  }

  lemma MismatchKeeps(q: Request, i: nat, matched: nat)
    requires q.Valid() && WordAligned(q.align, q.base) && Searching(q, i, matched)
    requires i - matched <= Size(q.words) - q.num && !Skippable(q.words[i / BITS], q.val)
    requires !AllBits(q.words, q.val, i, i + Chunk(q.num, matched, i))
    ensures Searching(q, i + q.align, 0)
  {
    hide Skippable, Fit, BitAt;
    var bad :| i <= bad < i + Chunk(q.num, matched, i) && BitAt(q.words, bad) != q.val;
    if matched > 0 {
      BoundaryAligned(i, q.align);
    }
    forall c | 0 <= c < i + q.align
      ensures !Fit(q, c)
    {
      if i - matched <= c {
        MismatchNoFit(q, i, matched, bad, c);
      }
    }
    AddMod(i, q.align, q.align);
    if (i + q.align) % BITS != 0 {
      StepWithinWord(i, q.align);
    }
  }

  lemma MatchKeeps(q: Request, i: nat, matched: nat)
    requires q.Valid() && Searching(q, i, matched)
    requires i - matched <= Size(q.words) - q.num
    requires AllBits(q.words, q.val, i, i + Chunk(q.num, matched, i)) && matched + Chunk(q.num, matched, i) < q.num
    ensures Searching(q, i + Chunk(q.num, matched, i), matched + Chunk(q.num, matched, i))
  {
  }

  /** One pass of the loop at a position that is already aligned. */
  lemma FindFromStep(q: Request, i: nat, matched: nat)
    requires q.Valid() && matched < q.num && matched <= i
    requires matched == 0 ==> AlignUp(i, q.align, q.base) == i
    ensures var chunk := Chunk(q.num, matched, i);
            FindFrom(q, i, matched) ==
            if i - matched > Size(q.words) - q.num then NotFound
            else if Skippable(q.words[i / BITS], q.val) then FindFrom(q, i + BITS, 0)
            else if !AllBits(q.words, q.val, i, i + chunk) then FindFrom(q, i + q.align, 0)
            else if matched + chunk == q.num then Found(i - matched)
            else FindFrom(q, i + chunk, matched + chunk)
  {
    hide Skippable, AllBits, AlignUp;
  }

  /** Where the loop stands is where it looks; and how it can stop. */
  lemma SearchStops(q: Request, i: nat, matched: nat)
    requires q.Valid() && WordAligned(q.align, q.base) && Searching(q, i, matched)
    ensures matched == 0 ==> AlignUp(i, q.align, q.base) == i
    ensures i - matched > Size(q.words) - q.num ==> FirstFit(q, NotFound)
    ensures i - matched <= Size(q.words) - q.num && Chunk(q.num, matched, i) == q.num - matched ==>
              AllBits(q.words, q.val, i, i + q.num - matched) ==> FirstFit(q, Found(i - matched))
  {
    hide Skippable, BitAt;
    Candidate(q, i - matched);
    if matched == 0 {
      AlignedStays(i, q.align, q.base);
    }
  }

  lemma {:induction false} SearchFindsFirst(q: Request, i: nat, matched: nat)
    requires q.Valid() && WordAligned(q.align, q.base) && matched < q.num && matched <= i && Searching(q, i, matched)
    ensures FirstFit(q, FindFrom(q, i, matched))
    decreases if i < Size(q.words) then Size(q.words) - i else 0
  {
    hide Skippable, AllBits, WordAligned, AlignUp, Searching, FirstFit, FindFrom;
    SearchStops(q, i, matched);
    FindFromStep(q, i, matched);
    if i - matched <= Size(q.words) - q.num {
      var chunk := Chunk(q.num, matched, i);
      if Skippable(q.words[i / BITS], q.val) {
        SkipKeeps(q, i, matched);
        SearchFindsFirst(q, i + BITS, 0);
      } else if !AllBits(q.words, q.val, i, i + chunk) {
        MismatchKeeps(q, i, matched);
        SearchFindsFirst(q, i + q.align, 0);
      } else if matched + chunk < q.num {
        MatchKeeps(q, i, matched);
        SearchFindsFirst(q, i + chunk, matched + chunk);
      }
    }
  }

  /** With an alignment that divides the word size and a base that is a multiple of it, the search
      returns the lowest aligned run, and an error exactly when there is none. */
  lemma RangeSearchIsFirstFit(q: Request)
    requires q.Valid() && WordAligned(q.align, q.base)
    ensures FirstFit(q, RangeSearch(q))
  {
    Candidate(q, 0);
    AlignedStays(0, q.align, q.base);
    SearchFindsFirst(q, 0, 0);
  }

  // ---------------------------------------------------------------------------------------------
  // The loop computes the search

  lemma FindFromUnfold(q: Request, i: nat, matched: nat)
    requires q.Valid() && matched < q.num && matched <= i
    ensures FindFrom(q, i, matched) ==
            if i - matched > Size(q.words) - q.num then NotFound
            else if Skippable(q.words[i / BITS], q.val) then FindFrom(q, i + BITS, 0)
            else
              var at := if matched == 0 then AlignUp(i, q.align, q.base) else i;
              if at >= Size(q.words) then Stray
              else
                var chunk := Chunk(q.num, matched, at);
                if !AllBits(q.words, q.val, at, at + chunk) then FindFrom(q, at + q.align, 0)
                else if matched + chunk == q.num then Found(at - matched)
                else FindFrom(q, at + chunk, matched + chunk)
  {
  }

  /** The masked comparison of the shifted word looks at exactly the bits i up to i + m. */
  lemma TestBits(words: seq<Word>, val: bool, i: nat, m: nat)
    requires i < Size(words) && 0 < m && i % BITS + m <= BITS
    ensures var mask := Shr(Ones(), BITS - m);
            var test := And(Shr(words[i / BITS], i % BITS), mask);
            AllBits(words, val, i, i + m) <==> if val then test == mask else test == Zero()
  {
    var mask := Shr(Ones(), BITS - m);
    var test := And(Shr(words[i / BITS], i % BITS), mask);
    forall k | 0 <= k < m
      ensures test[k] == BitAt(words, i + k) && mask[k]
    {
    }
    assert forall k :: m <= k < BITS ==> !test[k] && !mask[k];
    if AllBits(words, val, i, i + m) {
      assert forall k :: 0 <= k < m ==> test[k] == val;
    } else {
      var j :| i <= j < i + m && BitAt(words, j) != val;
      assert test[j - i] != val;
    }
  }

  /** Whatever the alignment and the base, a position that is returned starts an aligned run. */
  lemma {:induction false} FoundIsFit(q: Request, i: nat, matched: nat)
    requires q.Valid() && matched < q.num && matched <= i
    requires matched > 0 ==> AllBits(q.words, q.val, i - matched, i) && (i - matched + q.base) % q.align == 0
    ensures FindFrom(q, i, matched).Found? ==> Fit(q, FindFrom(q, i, matched).at)
    decreases if i < Size(q.words) then Size(q.words) - i else 0
  {
    hide Skippable, BitAt, AlignUp, FindFrom;
    FindFromUnfold(q, i, matched);
    if i - matched <= Size(q.words) - q.num {
      FoundIsFit(q, i + BITS, 0);
      var at := if matched == 0 then AlignUp(i, q.align, q.base) else i;
      if at < Size(q.words) {
        FoundIsFit(q, at + q.align, 0);
        var chunk := Chunk(q.num, matched, at);
        if AllBits(q.words, q.val, at, at + chunk) && matched + chunk < q.num {
          FoundIsFit(q, at + chunk, matched + chunk);
        }
      }
    }
  }

  lemma RangeSearchIsFit(q: Request)
    requires q.align > 0 && q.num <= Size(q.words)
    ensures RangeSearch(q).Found? ==> Fit(q, RangeSearch(q).at)
  {
    if q.num > 0 {
      FoundIsFit(q, AlignUp(0, q.align, q.base), 0);
    }
  }

  // ---------------------------------------------------------------------------------------------
  // First fit exactly when every word boundary meets the alignment

  /** What the search finds does not lie before the run it is following. */
  lemma {:induction false} FoundNotBefore(q: Request, i: nat, matched: nat)
    requires q.Valid() && matched < q.num && matched <= i
    ensures FindFrom(q, i, matched).Found? ==> FindFrom(q, i, matched).at >= i - matched
    decreases if i < Size(q.words) then Size(q.words) - i else 0
  {
    hide Skippable, AllBits, AlignUp, FindFrom;
    FindFromUnfold(q, i, matched);
    if i - matched <= Size(q.words) - q.num {
      FoundNotBefore(q, i + BITS, 0);
      var at := if matched == 0 then AlignUp(i, q.align, q.base) else i;
      if at < Size(q.words) {
        FoundNotBefore(q, at + q.align, 0);
        var chunk := Chunk(q.num, matched, at);
        if matched + chunk < q.num {
          FoundNotBefore(q, at + chunk, matched + chunk);
        }
      }
    }
  }

  lemma Pow2Divides(k: nat)
    requires Pow2(k) <= BITS
    ensures BITS % Pow2(k) == 0
  {
    if k >= 7 {
      Pow2Grows(7, k);
    }
  }

  lemma {:induction false} Pow2Grows(j: nat, k: nat)
    requires j <= k
    ensures Pow2(j) <= Pow2(k)
    decreases k
  {
    if j < k {
      Pow2Grows(j, k - 1);
    }
  }

  /** If a word boundary just past an aligned position is aligned too, they all are. */
  lemma BoundaryMisaligned(logAlign: nat, base: nat, r: nat, b: nat)
    requires var align := Pow2(logAlign);
             !WordAligned(align, base) && (r + base) % align == 0
    requires b % BITS == 0 && r < b <= r + BITS
    ensures (b + base) % Pow2(logAlign) != 0
  {
    var align := Pow2(logAlign);
    if (b + base) % align == 0 {
      SameRemainder(r + base, b + base, align);
      Pow2Divides(logAlign);
      BoundaryAligned(b, align);
      AddMod(base, b, align);
    }
  }

  /** All ones, without the first bit if it is the word of the gap. */
  function GapWord(gap: bool): Word {
    if gap then Ones()[0 := false] else Ones()
  }

  /** All bits set but bit b: a request for one bit more than lies between r and b. */
  ghost function Gap(r: nat, b: nat, align: nat, base: nat): Request
    requires r < b && b % BITS == 0
  {
    Request(seq<Word>((b + align) / BITS + 4, k => GapWord(k == b / BITS)),
            true, b - r + 1, align, base)
  }

  lemma GapBits(r: nat, b: nat, align: nat, base: nat)
    requires r < b && b % BITS == 0
    ensures var words := Gap(r, b, align, base).words;
            forall j :: 0 <= j < Size(words) ==> (BitAt(words, j) <==> j != b)
  {
    var words := Gap(r, b, align, base).words;
    forall j | 0 <= j < Size(words)
      ensures BitAt(words, j) <==> j != b
    {
      assert j == j / BITS * BITS + j % BITS && b == b / BITS * BITS;
      assert words[j / BITS] == GapWord(j / BITS == b / BITS);
    }
  }

  lemma GapSize(r: nat, b: nat, align: nat, base: nat)
    requires r < b <= r + BITS && b % BITS == 0 && 0 < align
    ensures var q := Gap(r, b, align, base);
            && q.Valid() && b + align + q.num <= Size(q.words)
            && forall k :: 0 <= k < |q.words| ==> !Skippable(q.words[k], true)
  {
    var q := Gap(r, b, align, base);
    forall k | 0 <= k < |q.words|
      ensures !Skippable(q.words[k], true)
    {
      assert q.words[k] == GapWord(k == b / BITS);
      assert GapWord(k == b / BITS)[1] && !Zero()[1];
    }
  }

  /** The search follows the run at r up to the boundary, fails there, and steps too far. */
  lemma GapSearch(r: nat, b: nat, align: nat, base: nat)
    requires align > 0 && b == (r / BITS + 1) * BITS && r == AlignUp(0, align, base)
    requires Gap(r, b, align, base).Valid()
    ensures var q := Gap(r, b, align, base);
            RangeSearch(q) == FindFrom(q, b + align, 0)
  {
    hide FindFrom, Skippable, AlignUp, BitAt, GapWord, Ones;
    var q := Gap(r, b, align, base);
    GapSize(r, b, align, base);
    GapBits(r, b, align, base);
    AlignedStays(r, align, base);
    FindFromUnfold(q, r, 0);
    FindFromUnfold(q, b, b - r);
    GapChunks(r, b);
    assert !BitAt(q.words, b);
    assert AllBits(q.words, true, r, b) && !AllBits(q.words, true, b, b + 1);
  }

  lemma GapChunks(r: nat, b: nat)
    requires b == (r / BITS + 1) * BITS
    ensures r < b && Chunk(b - r + 1, 0, r) == b - r && Chunk(b - r + 1, b - r, b) == 1
  {
  }

  /** Yet a run fits right after the boundary. */
  lemma GapMissed(logAlign: nat, base: nat)
    requires !WordAligned(Pow2(logAlign), base)
    ensures exists q: Request ::
              q.Valid() && q.align == Pow2(logAlign) && q.base == base && !FirstFit(q, RangeSearch(q))
  {
    hide FindFrom, Pow2, BitAt, Skippable, GapWord, Ones, AlignUp, WordAligned;
    var align := Pow2(logAlign);
    var r := AlignUp(0, align, base);
    var b := (r / BITS + 1) * BITS;
    var q := Gap(r, b, align, base);
    GapSize(r, b, align, base);
    GapBits(r, b, align, base);
    GapSearch(r, b, align, base);
    FoundNotBefore(q, b + align, 0);
    var c := AlignUp(b, align, base);
    AlignUpNear(b, align, base);
    BoundaryMisaligned(logAlign, base, r, b);
    assert Fit(q, c);
    assert !FirstFit(q, RangeSearch(q));
  }

  lemma AlignUpNear(i: nat, align: nat, base: nat)
    requires align > 0
    ensures AlignUp(i, align, base) < i + align
  {
  }

  /** First fit for every map, size and value, exactly when the alignment divides the word size
      and the base is a multiple of it. */
  lemma FirstFitExactly(logAlign: nat, base: nat)
    ensures (forall q: Request :: q.Valid() && q.align == Pow2(logAlign) && q.base == base ==>
                                    FirstFit(q, RangeSearch(q)))
            <==> WordAligned(Pow2(logAlign), base)
  {
    hide FirstFit, RangeSearch, Pow2, WordAligned;
    if WordAligned(Pow2(logAlign), base) {
      forall q: Request | q.Valid() && q.align == Pow2(logAlign) && q.base == base
        ensures FirstFit(q, RangeSearch(q))
      {
        RangeSearchIsFirstFit(q);
      }
    } else {
      GapMissed(logAlign, base);
    }
  }

  // ---------------------------------------------------------------------------------------------
  // Searches that read past the map

  /** The last position below total that meets the alignment, negative if there is none. */
  function LastAligned(total: nat, align: nat, base: nat): int
    requires align > 0
  {
    total - 1 - (total - 1 + base) % align
  }

  /** Some map of this size leads the search past its last word: the alignment is more than a word,
      and between the last aligned position and the last place with room for the run lies one that
      whole-word skips can land on. */
  predicate CanStray(total: nat, num: nat, align: nat, base: nat)
    requires align > 0
  {
    var first, last := AlignUp(0, align, base), LastAligned(total, align, base);
    && align > BITS && first < total
    && (|| last + BITS + num <= total
        || (first < last && num > BITS - last % BITS && (last / BITS + 1) * BITS + num <= total))
  }

  lemma Pow2Words(k: nat)
    ensures Pow2(k) <= BITS ==> BITS % Pow2(k) == 0
    ensures Pow2(k) > BITS ==> Pow2(k) % BITS == 0
  {
    if Pow2(k) <= BITS {
      Pow2Divides(k);
    } else if k < 6 {
      Pow2Grows(k, 6);
    } else {
      Pow2Multiple(k);
    }
  }

  lemma {:induction false} Pow2Multiple(k: nat)
    requires k >= 6
    ensures Pow2(k) % BITS == 0
  {
    if k > 6 {
      Pow2Multiple(k - 1);
      BothInWord(Pow2(k - 1), Pow2(k - 1));
    } else {
      assert Pow2(3) == 8;
      assert Pow2(6) == BITS;
    }
  }

  ghost predicate Aligned(q: Request, i: nat)
    requires q.align > 0
  {
    (i + q.base) % q.align == 0
  }

  lemma WholeWords(x: nat, align: nat)
    requires align > 0 && align % BITS == 0 && x % align == 0
    ensures x % BITS == 0
  {
    assert x == x / align * align && align == align / BITS * BITS;
    assert x == (x / align * (align / BITS)) * BITS;
  }

  lemma LastMultiple(total: nat, align: nat, base: nat, first: nat)
    requires align > 0 && first < total && (first + base) % align == 0
    ensures var last := LastAligned(total, align, base);
            first <= last < total && (last + base) % align == 0 && total <= last + align
  {
    var x := total - 1 + base;
    assert x - x % align == x / align * align;
    Multiple(x / align, align);
    if x - x % align < first + base {
      SameRemainder(x - x % align, first + base, align);
    }
  }

  /** A map with an aligned position, its last one being `last`, and more than a word of alignment. */
  ghost predicate Wide(q: Request, first: nat, last: nat) {
    && q.Valid() && q.align % BITS == 0
    && first == AlignUp(0, q.align, q.base) <= last < Size(q.words) <= last + q.align && Aligned(q, last)
  }

  lemma SamePlace(x: nat, y: nat, base: nat, align: nat)
    requires align > 0 && align % BITS == 0 && (x + base) % align == 0 && (y + base) % align == 0
    ensures x % BITS == y % BITS
  {
    WholeWords(x + base, align);
    WholeWords(y + base, align);
    SameInWord(x, y, base);
  }

  lemma SameInWord(x: nat, y: nat, base: nat)
    requires (x + base) % BITS == 0 && (y + base) % BITS == 0
    ensures x % BITS == y % BITS
  {
  }

  lemma BothInWord(x: nat, y: nat)
    requires y % BITS == 0
    ensures (x + y) % BITS == x % BITS && (y > 0 ==> y >= BITS)
  {
  }

  lemma NotBetween(x: nat, y: nat, base: nat, align: nat)
    requires align > 0 && (x + base) % align == 0 && (y + base) % align == 0 && y < x + align
    ensures y <= x
  {
    if x < y {
      SameRemainder(x + base, y + base, align);
    }
  }

  lemma WideClass(q: Request, first: nat, last: nat, i: nat)
    requires Wide(q, first, last) && Aligned(q, i)
    ensures i % BITS == last % BITS && first <= i && (i < Size(q.words) ==> i <= last)
  {
    hide AlignUp;
    SamePlace(i, last, q.base, q.align);
    AlignUpNear(0, q.align, q.base);
    NotBetween(i, first, q.base, q.align);
    if i < Size(q.words) {
      NotBetween(last, i, q.base, q.align);
    }
  }

  lemma WideUp(q: Request, first: nat, last: nat, i: nat)
    requires Wide(q, first, last)
    ensures AlignUp(i, q.align, q.base) < Size(q.words) <==> i <= last
  {
    hide AlignUp;
    var up := AlignUp(i, q.align, q.base);
    AlignUpNear(i, q.align, q.base);
    if up < Size(q.words) {
      WideClass(q, first, last, up);
    } else if i <= last {
      SameRemainder(last + q.base, up + q.base, q.align);
    }
  }

  /** Where the loop can stand. With a word or less of alignment: on a multiple of it or on an aligned
      position. With more: in step with the aligned positions, or on a word boundary, if a run can
      cross one, and then past the boundary after `last` if there was only one place to start it. */
  ghost predicate Stands(q: Request, i: nat, matched: nat, first: nat, last: nat)
    requires q.Valid()
  {
    if BITS % q.align == 0 then (if matched == 0 then Aligned(q, i) || i % q.align == 0 else i % BITS == 0)
    else
      && Wide(q, first, last)
      && if matched == 0 then i % BITS == last % BITS || (i % BITS == 0 && Crossed(q, i - BITS, first, last))
         else i % BITS == 0 && Crossed(q, i, first, last)
  }

  /** A run from an aligned position reached the boundary i. */
  ghost predicate Crossed(q: Request, i: int, first: nat, last: nat) {
    q.num > BITS - last % BITS && (first < last || i >= (last / BITS + 1) * BITS)
  }

  lemma StandsSkip(q: Request, i: nat, matched: nat, first: nat, last: nat)
    requires q.Valid() && Stands(q, i, matched, first, last)
    ensures Stands(q, i + BITS, 0, first, last)
  {
    hide Wide;
    if BITS % q.align == 0 {
      AddMod(i + q.base, BITS, q.align);
      AddMod(i, BITS, q.align);
      if i % BITS == 0 {
        BoundaryAligned(i, q.align);
      }
    }
  }

  lemma MissSmall(q: Request, at: nat)
    requires q.Valid() && (Aligned(q, at) || at % q.align == 0)
    ensures Aligned(q, at + q.align) || (at + q.align) % q.align == 0
  {
    AddMod(at + q.base, q.align, q.align);
    AddMod(at, q.align, q.align);
  }

  lemma StandsMiss(q: Request, i: nat, matched: nat, first: nat, last: nat)
    requires q.Valid() && matched <= i && Stands(q, i, matched, first, last)
    ensures var at := if matched == 0 then AlignUp(i, q.align, q.base) else i; Stands(q, at + q.align, 0, first, last)
  {
    hide AlignUp, Wide;
    var at := if matched == 0 then AlignUp(i, q.align, q.base) else i;
    if BITS % q.align == 0 {
      if matched > 0 {
        BoundaryAligned(i, q.align);
      }
      MissSmall(q, at);
    } else {
      MissWide(q, at, first, last);
    }
  }

  lemma WideAlign(q: Request, first: nat, last: nat)
    requires Wide(q, first, last)
    ensures q.Valid() && q.align % BITS == 0
  {
  }

  lemma MissWide(q: Request, at: nat, first: nat, last: nat)
    requires q.Valid() && Wide(q, first, last)
    ensures at % BITS == 0 ==> (at + q.align) % BITS == 0
    ensures Aligned(q, at) ==> (at + q.align) % BITS == last % BITS
    ensures q.align >= BITS
  {
    WideAlign(q, first, last);
    hide AlignUp, Wide;
    BothInWord(at, q.align);
    if Aligned(q, at) {
      WideClass(q, first, last, at);
    }
  }

  lemma StandsMatch(q: Request, i: nat, matched: nat, first: nat, last: nat)
    requires q.Valid() && matched <= i && matched < q.num && Stands(q, i, matched, first, last)
    requires i - matched <= Size(q.words) - q.num
    requires matched == 0 ==> AlignUp(i, q.align, q.base) < Size(q.words)
    ensures var at := if matched == 0 then AlignUp(i, q.align, q.base) else i;
            var chunk := Chunk(q.num, matched, at);
            matched + chunk < q.num ==> Stands(q, at + chunk, matched + chunk, first, last)
  {
    hide AlignUp, Wide;
    var at := if matched == 0 then AlignUp(i, q.align, q.base) else i;
    var chunk := Chunk(q.num, matched, at);
    assert matched + chunk < q.num ==> chunk == BITS - at % BITS && (at + chunk) % BITS == 0;
    if BITS % q.align != 0 && matched == 0 {
      WideClass(q, first, last, at);
      WideFirst(q, first, last);
    }
  }

  lemma WideFirst(q: Request, first: nat, last: nat)
    requires Wide(q, first, last)
    ensures first <= last
  {
  }

  lemma WideBeyond(q: Request, first: nat, last: nat)
    requires Wide(q, first, last) && BITS % q.align != 0
    ensures q.align > BITS && first == AlignUp(0, q.align, q.base)
  {
  }

  lemma NotPast(q: Request, i: nat, first: nat, last: nat)
    requires i % BITS == last % BITS || (i % BITS == 0 && Crossed(q, i - BITS, first, last))
    requires i + q.num <= Size(q.words) && last + BITS + q.num > Size(q.words)
    requires first < last && q.num > BITS - last % BITS ==> (last / BITS + 1) * BITS + q.num > Size(q.words)
    ensures i <= last
  {
  }

  /** Unless the map can be strayed from, the loop always lands inside it. */
  lemma StandsInside(q: Request, i: nat, first: nat, last: nat)
    requires q.Valid() && Stands(q, i, 0, first, last) && i <= Size(q.words) - q.num
    requires BITS % q.align != 0 ==> last == LastAligned(Size(q.words), q.align, q.base)
    requires BITS % q.align != 0 ==> !CanStray(Size(q.words), q.num, q.align, q.base)
    ensures AlignUp(i, q.align, q.base) < Size(q.words)
  {
    hide AlignUp, Wide;
    if BITS % q.align != 0 {
      WideOrder(q, first, last);
      WideBeyond(q, first, last);
      NotPast(q, i, first, last);
      WideUp(q, first, last, i);
    } else if Aligned(q, i) {
      AlignedStays(i, q.align, q.base);
    } else {
      AlignUpNear(i, q.align, q.base);
      BoundaryAligned(Size(q.words), q.align);
      SameRemainder(i, Size(q.words), q.align);
    }
  }

  lemma {:induction false} NeverStrays(q: Request, i: nat, matched: nat, first: nat, last: nat)
    requires q.Valid() && matched < q.num && matched <= i && Stands(q, i, matched, first, last)
    requires BITS % q.align != 0 ==> last == LastAligned(Size(q.words), q.align, q.base)
    requires BITS % q.align != 0 ==> !CanStray(Size(q.words), q.num, q.align, q.base)
    ensures FindFrom(q, i, matched) != Stray
    decreases if i < Size(q.words) then Size(q.words) - i else 0
  {
    hide Skippable, AllBits, AlignUp, FindFrom, Stands, CanStray, LastAligned;
    FindFromUnfold(q, i, matched);
    if i - matched <= Size(q.words) - q.num {
      StandsSkip(q, i, matched, first, last);
      NeverStrays(q, i + BITS, 0, first, last);
      if matched == 0 {
        StandsInside(q, i, first, last);
      }
      var at := if matched == 0 then AlignUp(i, q.align, q.base) else i;
      StandsMiss(q, i, matched, first, last);
      NeverStrays(q, at + q.align, 0, first, last);
      StandsMatch(q, i, matched, first, last);
      var chunk := Chunk(q.num, matched, at);
      if matched + chunk < q.num {
        NeverStrays(q, at + chunk, matched + chunk, first, last);
      }
    }
  }

  /** Outside the cases of CanStray every search stays in its map. */
  lemma StaysInMap(q: Request, logAlign: nat)
    requires q.align == Pow2(logAlign) && q.num <= Size(q.words) && !CanStray(Size(q.words), q.num, q.align, q.base)
    ensures RangeSearch(q) != Stray
  {
    hide AlignUp, FindFrom, Pow2, CanStray;
    Pow2Words(logAlign);
    var first := AlignUp(0, q.align, q.base);
    if q.num > 0 {
      if BITS % q.align == 0 {
        NeverStrays(q, first, 0, 0, 0);
      } else if first >= Size(q.words) {
        FindFromUnfold(q, first, 0);
      } else {
        StartsWide(q, first);
        NeverStrays(q, first, 0, first, LastAligned(Size(q.words), q.align, q.base));
      }
    }
  }

  lemma StartsWide(q: Request, first: nat)
    requires q.Valid() && q.align % BITS == 0 && first == AlignUp(0, q.align, q.base) < Size(q.words)
    ensures var last := LastAligned(Size(q.words), q.align, q.base);
            last >= 0 && Wide(q, first, last) && first % BITS == last % BITS
  {
    hide AlignUp;
    LastMultiple(Size(q.words), q.align, q.base, first);
    WideClass(q, first, LastAligned(Size(q.words), q.align, q.base), first);
  }

  function Filled(useful: bool, val: bool): Word {
    if useful == val then Ones() else Zero()
  }

  /** A map of w words, useful ones at f and t and useless ones elsewhere. */
  ghost function Sparse(w: nat, f: int, t: int, val: bool): (words: seq<Word>)
    ensures |words| == w
  {
    seq<Word>(w, k => Filled(k == f || k == t, val))
  }

  ghost predicate UsefulAt(words: seq<Word>, f: int, t: int, val: bool) {
    forall k :: 0 <= k < |words| ==> (Skippable(words[k], val) <==> k != f && k != t)
  }

  lemma SparseUseful(w: nat, f: int, t: int, val: bool)
    ensures UsefulAt(Sparse(w, f, t, val), f, t, val)
  {
    hide Skippable, Filled;
    FilledSkips(true, val);
    FilledSkips(false, val);
  }

  lemma FilledSkips(useful: bool, val: bool)
    ensures Skippable(Filled(useful, val), val) <==> !useful
  {
    assert Ones()[0] && !Zero()[0];
  }

  lemma SparseBits(w: nat, f: nat, t: int, val: bool, from: nat)
    requires f < w && from / BITS == f
    ensures AllBits(Sparse(w, f, t, val), val, from, (f + 1) * BITS)
  {
    var words := Sparse(w, f, t, val);
    forall j | from <= j < (f + 1) * BITS
      ensures BitAt(words, j) == val
    {
      assert j / BITS == f && words[f] == Filled(true, val);
    }
  }

  /** Useless words are skipped one after the other. */
  lemma {:induction false} SkipsTo(q: Request, i: nat, target: nat)
    requires q.Valid() && i <= target <= Size(q.words) - q.num && (target - i) % BITS == 0
    requires forall k :: i / BITS <= k < target / BITS ==> Skippable(q.words[k], q.val)
    ensures FindFrom(q, i, 0) == FindFrom(q, target, 0)
    decreases target - i
  {
    hide Skippable, FindFrom, AlignUp, AllBits;
    if i < target {
      WordOn(i, target);
      FindFromUnfold(q, i, 0);
      SkipsTo(q, i + BITS, target);
    }
  }

  lemma WordOn(i: nat, target: nat)
    requires i < target && (target - i) % BITS == 0
    ensures i + BITS <= target && (target - (i + BITS)) % BITS == 0
    ensures (i + BITS) / BITS == i / BITS + 1 <= target / BITS
  {
  }

  /** The search lands on a useful word with no aligned position left. */
  lemma StraysAt(q: Request, i: nat, first: nat, last: nat)
    requires Wide(q, first, last) && last < i <= Size(q.words) - q.num && !Skippable(q.words[i / BITS], q.val)
    ensures FindFrom(q, i, 0) == Stray
  {
    hide AlignUp, FindFrom, Skippable;
    WideUp(q, first, last, i);
    FindFromUnfold(q, i, 0);
  }

  lemma WideStart(q: Request, first: nat, last: nat)
    requires Wide(q, first, last)
    ensures q.Valid() && RangeSearch(q) == FindFrom(q, first, 0) && AlignUp(first, q.align, q.base) == first
  {
    hide AlignUp, FindFrom;
    AlignedStays(first, q.align, q.base);
  }

  lemma WideOrder(q: Request, first: nat, last: nat)
    requires Wide(q, first, last)
    ensures q.Valid() && first % BITS == last % BITS && first <= last < Size(q.words)
    ensures first < last && q.align > BITS ==> last >= first + 2 * BITS
  {
    hide AlignUp;
    WideClass(q, first, last, first);
    if first < last {
      SameRemainder(first + q.base, last + q.base, q.align);
    }
  }

  lemma StraysBySkips(q: Request, first: nat, last: nat)
    requires Wide(q, first, last) && last + BITS + q.num <= Size(q.words)
    requires UsefulAt(q.words, -1, last / BITS + 1, q.val)
    ensures RangeSearch(q) == Stray
  {
    hide AlignUp, FindFrom, Skippable, Wide, RangeSearch;
    WideStart(q, first, last);
    WideOrder(q, first, last);
    SkipsTo(q, first, last + BITS);
    StraysAt(q, last + BITS, first, last);
  }

  lemma CrossesOver(q: Request, first: nat, b: nat)
    requires q.Valid() && b == (first / BITS + 1) * BITS && b + BITS + q.num <= Size(q.words) && q.num > b - first
    requires AlignUp(first, q.align, q.base) == first && AllBits(q.words, q.val, first, b)
    requires !Skippable(q.words[first / BITS], q.val) && Skippable(q.words[b / BITS], q.val)
    ensures FindFrom(q, first, 0) == FindFrom(q, b + BITS, 0)
  {
    hide AlignUp, FindFrom, Skippable, AllBits;
    FindFromUnfold(q, first, 0);
    FindFromUnfold(q, b, b - first);
    assert Chunk(q.num, 0, first) == b - first;
  }

  lemma StraysByCrossing(q: Request, first: nat, last: nat)
    requires Wide(q, first, last) && first < last && q.align > BITS && q.num > BITS - last % BITS
    requires (last / BITS + 1) * BITS + q.num <= Size(q.words)
    requires UsefulAt(q.words, first / BITS, last / BITS + 1, q.val)
    requires AllBits(q.words, q.val, first, (first / BITS + 1) * BITS)
    ensures RangeSearch(q) == Stray
  {
    hide AlignUp, FindFrom, Skippable, Wide, RangeSearch, AllBits;
    var b, t := (first / BITS + 1) * BITS, (last / BITS + 1) * BITS;
    WideStart(q, first, last);
    WideOrder(q, first, last);
    CrossesOver(q, first, b);
    SkipsTo(q, b + BITS, t);
    StraysAt(q, t, first, last);
  }

  lemma StrayMap(w: nat, val: bool, num: nat, logAlign: nat, base: nat) returns (words: seq<Word>)
    requires 0 < num <= w * BITS && CanStray(w * BITS, num, Pow2(logAlign), base)
    ensures |words| == w && RangeSearch(Request(words, val, num, Pow2(logAlign), base)) == Stray
  {
    hide RangeSearch, Pow2, AlignUp, Sparse, UsefulAt, AllBits, Wide;
    Pow2Words(logAlign);
    var align := Pow2(logAlign);
    var first, last := AlignUp(0, align, base), LastAligned(w * BITS, align, base);
    var f := if last + BITS + num <= w * BITS then -1 else first / BITS;
    words := Sparse(w, f, last / BITS + 1, val);
    var q := Request(words, val, num, align, base);
    StartsWide(q, first);
    SparseUseful(w, f, last / BITS + 1, val);
    if last + BITS + num <= w * BITS {
      StraysBySkips(q, first, last);
    } else {
      SparseBits(w, f, last / BITS + 1, val, first);
      StraysByCrossing(q, first, last);
    }
  }

  /** Some map of w words makes the search read past it exactly in the cases of CanStray. */
  lemma StraysExactly(w: nat, val: bool, num: nat, logAlign: nat, base: nat)
    requires 0 < num <= w * BITS
    ensures (exists words: seq<Word> ::
               |words| == w && RangeSearch(Request(words, val, num, Pow2(logAlign), base)) == Stray)
            <==> CanStray(w * BITS, num, Pow2(logAlign), base)
  {
    hide RangeSearch, Pow2, CanStray;
    if CanStray(w * BITS, num, Pow2(logAlign), base) {
      var words := StrayMap(w, val, num, logAlign, base);
    } else {
      forall words: seq<Word> | |words| == w
        ensures RangeSearch(Request(words, val, num, Pow2(logAlign), base)) != Stray
      {
        StaysInMap(Request(words, val, num, Pow2(logAlign), base), logAlign);
      }
    }
  }
}
