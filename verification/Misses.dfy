/** What lbm_find_range can step over: whatever the alignment and the base, a run it misses lies right
    behind one that matched up to a word boundary and failed there. */
module Misses {
  import opened Words
  import opened Arith
  import opened Bitmap

  /** From the aligned position p the bits are good up to the word boundary b and bad in what the run
      needs of the word there, and c lies between p and one alignment step after b. */
  ghost predicate BlockedBy(q: Request, c: nat, p: nat, b: nat)
    requires q.Valid()
  {
    && Aligned(q, p) && p < b < p + q.num && b % BITS == 0 && p < c < b + q.align
    && AllBits(q.words, q.val, p, b)
    && !AllBits(q.words, q.val, b, b + Chunk(q.num, b - p, b))
  }

  ghost predicate Shadowed(q: Request, c: nat)
    requires q.Valid()
  {
    exists p: nat, b: nat :: BlockedBy(q, c, p, b)
  }

  /** An alignment of at most a word divides it, a larger one is a whole number of words. */
  ghost predicate Regular(align: nat) {
    align > 0 && (BITS % align == 0 || align % BITS == 0)
  }

  /** Where the loop can stand between candidates. */
  ghost predicate Places(q: Request, i: nat)
    requires q.Valid()
  {
    if BITS % q.align == 0 then Aligned(q, i) || i % q.align == 0
    else (i + q.base) % BITS == 0 || i % BITS == 0
  }

  /** No candidate lies before i in its word. */
  ghost predicate FirstInWord(q: Request, i: nat)
    requires q.Valid()
  {
    forall x: nat :: i / BITS * BITS <= x < i ==> !Aligned(q, x)
  }

  /** What the loop knows at position i with `matched` good bits behind it. */
  ghost predicate Seeking(q: Request, i: nat, matched: nat)
    requires q.Valid()
  {
    && matched < q.num && matched <= i
    && (forall c: nat :: c < i - matched && Fit(q, c) ==> Shadowed(q, c))
    && (matched > 0 ==> i % BITS == 0 && Aligned(q, i - matched) && AllBits(q.words, q.val, i - matched, i))
    && (matched == 0 ==> Places(q, i))
    && (matched == 0 && i < Size(q.words) && Skippable(q.words[i / BITS], q.val) ==> FirstInWord(q, i))
  }

  lemma AlignedWord(q: Request, x: nat)
    requires q.Valid() && q.align % BITS == 0 && Aligned(q, x)
    ensures (x + q.base) % BITS == 0
  {
    WholeWords(x + q.base, q.align);
  }

  lemma SameWordSamePlace(x: nat, y: nat, base: nat)
    requires (x + base) % BITS == 0 && (y + base) % BITS == 0 && x <= y < x + BITS
    ensures x == y
  {
  }

  lemma WordBack(q: Request, x: nat)
    requires q.Valid() && BITS % q.align == 0 && x >= BITS
    ensures Aligned(q, x) <==> Aligned(q, x - BITS)
  {
    AddMod(x - BITS + q.base, BITS, q.align);
  }

  // Skipping a useless word

  lemma SkipsNone(q: Request, i: nat, matched: nat, c: nat)
    requires q.Valid() && Regular(q.align) && Seeking(q, i, matched) && i < Size(q.words)
    requires Skippable(q.words[i / BITS], q.val) && i - matched <= c < i + BITS
    ensures !Fit(q, c)
  {
    hide Skippable, AllBits, Shadowed;
    if c / BITS == i / BITS || c < i {
      SkippedHere(q, i, matched, c);
    } else if BITS % q.align == 0 {
      WordBack(q, c);
    } else if Aligned(q, c) {
      AlignedWord(q, c);
      if i % BITS != 0 {
        SameWordSamePlace(i, c, q.base);
      }
    }
  }

  lemma SkippedHere(q: Request, i: nat, matched: nat, c: nat)
    requires q.Valid() && matched < q.num && matched <= i < Size(q.words) && Skippable(q.words[i / BITS], q.val)
    requires i - matched <= c && (c / BITS == i / BITS || c < i)
    ensures !Fit(q, c)
  {
    var bad := if c < i then i else c;
    assert bad / BITS == i / BITS && bad < Size(q.words);
    SkippedBit(q.words, q.val, bad);
    hide BitAt, Skippable;
  }

  lemma SkipPlaces(q: Request, i: nat, matched: nat)
    requires q.Valid() && Regular(q.align) && Seeking(q, i, matched)
    ensures Places(q, i + BITS)
  {
    hide Skippable, AllBits, Shadowed, FirstInWord, Fit;
    if BITS % q.align == 0 {
      if matched > 0 {
        BoundaryAligned(i, q.align);
      }
      NarrowOn(q, i);
    } else {
      BothInWord(i + q.base, BITS);
      BothInWord(i, BITS);
    }
  }

  lemma NarrowOn(q: Request, i: nat)
    requires q.Valid() && BITS % q.align == 0 && (Aligned(q, i) || i % q.align == 0)
    ensures Aligned(q, i + BITS) || (i + BITS) % q.align == 0
  {
    AddMod(i + q.base, BITS, q.align);
    AddMod(i, BITS, q.align);
  }

  lemma SkipFirst(q: Request, i: nat, matched: nat)
    requires q.Valid() && Regular(q.align) && Seeking(q, i, matched) && i < Size(q.words)
    requires Skippable(q.words[i / BITS], q.val)
    ensures FirstInWord(q, i + BITS)
  {
    hide Skippable, AllBits, Shadowed, Fit, FirstInWord, Places;
    NothingBefore(q, i);
    SkipPlaces(q, i, matched);
    if BITS % q.align == 0 {
      NarrowFirst(q, i);
    } else {
      BroadPlaces(q, i + BITS);
      BroadFirst(q, i + BITS);
    }
  }

  lemma BroadPlaces(q: Request, i: nat)
    requires q.Valid() && BITS % q.align != 0 && Places(q, i)
    ensures (i + q.base) % BITS == 0 || i % BITS == 0
  {
  }

  lemma NothingBefore(q: Request, i: nat)
    requires q.Valid()
    ensures i % BITS == 0 ==> FirstInWord(q, i)
  {
  }

  lemma NarrowFirst(q: Request, i: nat)
    requires q.Valid() && BITS % q.align == 0 && FirstInWord(q, i)
    ensures FirstInWord(q, i + BITS)
  {
    hide Aligned;
    assert (i + BITS) / BITS * BITS == i / BITS * BITS + BITS;
    forall x: nat | i / BITS * BITS + BITS <= x < i + BITS
      ensures !Aligned(q, x)
    {
      WordBack(q, x);
    }
  }

  lemma BroadFirst(q: Request, i: nat)
    requires q.Valid() && q.align % BITS == 0 && ((i + q.base) % BITS == 0 || i % BITS == 0)
    ensures FirstInWord(q, i)
  {
    hide Aligned;
    forall x: nat | i / BITS * BITS <= x < i
      ensures !Aligned(q, x)
    {
      if Aligned(q, x) {
        AlignedWord(q, x);
        WordSpan(x, i);
        SameWordSamePlace(x, i, q.base);
      }
    }
  }

  lemma WordSpan(x: nat, i: nat)
    requires i / BITS * BITS <= x < i
    ensures i < x + BITS && i % BITS != 0
  {
  }

  lemma SkipSeeks(q: Request, i: nat, matched: nat)
    requires q.Valid() && Regular(q.align) && Seeking(q, i, matched) && i < Size(q.words)
    requires Skippable(q.words[i / BITS], q.val)
    ensures Seeking(q, i + BITS, 0)
  {
    SkipPlaces(q, i, matched);
    SkipFirst(q, i, matched);
    hide Skippable, AllBits, Shadowed, FirstInWord, Places, Fit;
    forall c: nat | c < i + BITS && Fit(q, c)
      ensures Shadowed(q, c)
    {
      if c >= i - matched {
        SkipsNone(q, i, matched, c);
      }
    }
  }

  // A candidate that fails at once

  /** Rounding up finds the next candidate, in the same word if the alignment divides it. */
  lemma NextCandidate(q: Request, i: nat)
    requires q.Valid()
    ensures var at := AlignUp(i, q.align, q.base);
            Aligned(q, at) && forall c: nat :: Aligned(q, c) && i <= c ==> at <= c
  {
    hide AlignUp;
    var at := AlignUp(i, q.align, q.base);
    AlignUpNear(i, q.align, q.base);
    forall c: nat | Aligned(q, c) && i <= c
      ensures at <= c
    {
      NotBetween(c, at, q.base, q.align);
    }
  }

  lemma NextAfter(q: Request, at: nat, c: nat)
    requires q.Valid() && Aligned(q, at) && Aligned(q, c) && c < at + q.align
    ensures c <= at
  {
    NotBetween(at, c, q.base, q.align);
  }

  lemma AtInWord(q: Request, i: nat)
    requires q.Valid() && BITS % q.align == 0 && Places(q, i)
    ensures AlignUp(i, q.align, q.base) / BITS == i / BITS
  {
    hide AlignUp;
    if Aligned(q, i) {
      AlignedStays(i, q.align, q.base);
    } else {
      AlignUpNear(i, q.align, q.base);
      var end := (i / BITS + 1) * BITS;
      BoundaryAligned(end, q.align);
      SameRemainder(i, end, q.align);
    }
  }

  lemma FailFirst(q: Request, i: nat)
    requires q.Valid() && Regular(q.align) && Places(q, i) && i < Size(q.words) && !Skippable(q.words[i / BITS], q.val)
    ensures var next := AlignUp(i, q.align, q.base) + q.align;
            && Places(q, next)
            && (next < Size(q.words) && Skippable(q.words[next / BITS], q.val) ==> FirstInWord(q, next))
  {
    hide AlignUp, Skippable;
    var at := AlignUp(i, q.align, q.base);
    var next := at + q.align;
    AddMod(at + q.base, q.align, q.align);
    assert Aligned(q, next);
    if BITS % q.align == 0 {
      AtInWord(q, i);
      if next / BITS != at / BITS {
        FirstOfNext(q, at, next);
      }
    } else {
      AlignedWord(q, next);
      BroadFirst(q, next);
    }
  }

  lemma FirstOfNext(q: Request, at: nat, next: nat)
    requires q.Valid() && Aligned(q, at) && next == at + q.align && next / BITS != at / BITS
    ensures FirstInWord(q, next)
  {
    hide Aligned;
    forall x: nat | next / BITS * BITS <= x < next
      ensures !Aligned(q, x)
    {
      assert at < x;
      if Aligned(q, x) {
        NextAfter(q, at, x);
      }
    }
  }

  lemma FailSeeks(q: Request, i: nat)
    requires q.Valid() && Regular(q.align) && Seeking(q, i, 0) && i < Size(q.words)
    requires !Skippable(q.words[i / BITS], q.val)
    requires var at := AlignUp(i, q.align, q.base); !AllBits(q.words, q.val, at, at + Chunk(q.num, 0, at))
    ensures Seeking(q, AlignUp(i, q.align, q.base) + q.align, 0)
  {
    FailFirst(q, i);
    NextCandidate(q, i);
    hide Skippable, Shadowed, FirstInWord, Places, AlignUp, BitAt;
    var at := AlignUp(i, q.align, q.base);
    forall c: nat | c < at + q.align && Fit(q, c)
      ensures Shadowed(q, c)
    {
      if c >= i {
        NextAfter(q, at, c);
      }
    }
  }

  // A candidate that fails at a word boundary

  lemma BoundaryFirst(q: Request, i: nat)
    requires q.Valid() && Regular(q.align) && i % BITS == 0 && i < Size(q.words) && !Skippable(q.words[i / BITS], q.val)
    ensures var next := i + q.align;
            && Places(q, next)
            && (next < Size(q.words) && Skippable(q.words[next / BITS], q.val) ==> FirstInWord(q, next))
  {
    hide Skippable, FirstInWord, Places;
    NothingBefore(q, i + q.align);
    if BITS % q.align == 0 {
      BoundaryAligned(i, q.align);
      AddMod(i, q.align, q.align);
      SmallStep(i, q.align);
    } else {
      BothInWord(i, q.align);
    }
    BoundaryPlaces(q, i + q.align);
  }

  lemma BoundaryPlaces(q: Request, i: nat)
    requires q.Valid() && (BITS % q.align == 0 ==> i % q.align == 0) && (BITS % q.align != 0 ==> i % BITS == 0)
    ensures Places(q, i)
  {
  }

  lemma SmallStep(i: nat, align: nat)
    requires align > 0 && BITS % align == 0 && i % BITS == 0
    ensures (i + align) % BITS == 0 || (i + align) / BITS == i / BITS
  {
    if align > BITS {
      SmallMod64(align);
    }
  }

  lemma SmallMod64(align: nat)
    requires align > BITS
    ensures BITS % align == BITS
  {
  }

  lemma BoundarySeeks(q: Request, i: nat, matched: nat)
    requires q.Valid() && Regular(q.align) && Seeking(q, i, matched) && matched > 0 && i < Size(q.words)
    requires !Skippable(q.words[i / BITS], q.val) && !AllBits(q.words, q.val, i, i + Chunk(q.num, matched, i))
    ensures Seeking(q, i + q.align, 0)
  {
    BoundaryFirst(q, i);
    hide Skippable, FirstInWord, Places, BitAt;
    var p := i - matched;
    forall c: nat | c < i + q.align && Fit(q, c)
      ensures Shadowed(q, c)
    {
      if c > p {
        assert BlockedBy(q, c, p, i);
      }
    }
  }

  // A run that goes on

  lemma MatchSeeks(q: Request, i: nat, matched: nat)
    requires q.Valid() && Seeking(q, i, matched)
    requires var at := if matched == 0 then AlignUp(i, q.align, q.base) else i;
             var chunk := Chunk(q.num, matched, at);
             matched + chunk < q.num && AllBits(q.words, q.val, at, at + chunk)
    ensures var at := if matched == 0 then AlignUp(i, q.align, q.base) else i;
            var chunk := Chunk(q.num, matched, at);
            Seeking(q, at + chunk, matched + chunk)
  {
    hide Skippable, Shadowed, FirstInWord, Places, AlignUp, BitAt, Chunk;
    NextCandidate(q, i);
    var at := if matched == 0 then AlignUp(i, q.align, q.base) else i;
    ChunkEnds(q.num, matched, at);
    var chunk := Chunk(q.num, matched, at);
    BitsJoin(q.words, q.val, at - matched, at, at + chunk);
    NothingSkipped(q, i, matched, at);
  }

  lemma NothingSkipped(q: Request, i: nat, matched: nat, at: nat)
    requires q.Valid() && Seeking(q, i, matched) && (matched > 0 ==> at == i)
    requires matched == 0 ==> forall c: nat :: Aligned(q, c) && i <= c ==> at <= c
    ensures forall c: nat :: c < at - matched && Fit(q, c) ==> Shadowed(q, c)
  {
    hide Skippable, Shadowed, FirstInWord, Places, AllBits;
    assert forall c: nat :: Fit(q, c) ==> Aligned(q, c);
    hide Fit, Aligned;
  }

  lemma ChunkEnds(num: nat, matched: nat, at: nat)
    requires matched < num
    ensures Chunk(num, matched, at) > 0
    ensures matched + Chunk(num, matched, at) < num ==> (at + Chunk(num, matched, at)) % BITS == 0
  {
  }

  lemma BitsJoin(words: seq<Word>, val: bool, a: int, b: nat, c: nat)
    requires 0 <= a <= b <= c && AllBits(words, val, b, c) && (a < b ==> AllBits(words, val, a, b))
    ensures AllBits(words, val, a, c)
  {
    hide BitAt;
  }

  /** Every fit the search has passed is shadowed, and if it gives up every fit is. */
  ghost predicate Explained(q: Request, r: Outcome)
    requires q.Valid()
  {
    forall c: nat :: Fit(q, c) && (r.Found? ==> c < r.at) ==> Shadowed(q, c)
  }

  lemma {:induction false} SearchExplained(q: Request, i: nat, matched: nat)
    requires q.Valid() && Regular(q.align) && Seeking(q, i, matched)
    ensures Explained(q, FindFrom(q, i, matched))
    decreases if i < Size(q.words) then Size(q.words) - i else 0
  {
    hide Skippable, AllBits, AlignUp, FindFrom, Shadowed, FirstInWord, Places;
    FindFromUnfold(q, i, matched);
    if i - matched > Size(q.words) - q.num {
      AllPassed(q, i, matched);
    } else if Skippable(q.words[i / BITS], q.val) {
      SkipSeeks(q, i, matched);
      SearchExplained(q, i + BITS, 0);
    } else {
      var at := if matched == 0 then AlignUp(i, q.align, q.base) else i;
      var chunk := Chunk(q.num, matched, at);
      if at >= Size(q.words) {
        NonePast(q, i, matched);
      } else if !AllBits(q.words, q.val, at, at + chunk) {
        if matched == 0 {
          FailSeeks(q, i);
        } else {
          BoundarySeeks(q, i, matched);
        }
        SearchExplained(q, at + q.align, 0);
      } else if matched + chunk == q.num {
        FoundExplained(q, i, matched);
      } else {
        MatchSeeks(q, i, matched);
        SearchExplained(q, at + chunk, matched + chunk);
      }
    }
  }

  lemma AllPassed(q: Request, i: nat, matched: nat)
    requires q.Valid() && Seeking(q, i, matched) && i - matched > Size(q.words) - q.num
    ensures Explained(q, NotFound)
  {
    hide Skippable, BitAt, Shadowed, FirstInWord, Places;
    assert forall c: nat :: Fit(q, c) ==> c + q.num <= Size(q.words);
  }

  lemma NonePast(q: Request, i: nat, matched: nat)
    requires q.Valid() && Seeking(q, i, matched) && i - matched <= Size(q.words) - q.num
    requires (if matched == 0 then AlignUp(i, q.align, q.base) else i) >= Size(q.words)
    ensures Explained(q, Stray)
  {
    NextCandidate(q, i);
    hide Skippable, BitAt, Shadowed, FirstInWord, Places, AlignUp;
    assert forall c: nat :: Fit(q, c) ==> c + q.num <= Size(q.words) && Aligned(q, c);
  }

  lemma FoundExplained(q: Request, i: nat, matched: nat)
    requires q.Valid() && Seeking(q, i, matched)
    ensures var at := if matched == 0 then AlignUp(i, q.align, q.base) else i; Explained(q, Found(at - matched))
  {
    NextCandidate(q, i);
    hide Skippable, BitAt, Shadowed, FirstInWord, Places, AlignUp;
    assert forall c: nat :: Fit(q, c) ==> Aligned(q, c);
  }

  /** Whatever is found is an aligned run, and every aligned run below it, or any at all if the
      search gives up, lies right behind one that matched up to a word boundary and failed there. */
  lemma MissesExplained(q: Request, logAlign: nat)
    requires q.Valid() && q.align == Pow2(logAlign)
    ensures RangeSearch(q).Found? ==> Fit(q, RangeSearch(q).at)
    ensures Explained(q, RangeSearch(q))
  {
    hide AlignUp, FindFrom, Pow2, Shadowed, Skippable;
    RangeSearchIsFit(q);
    Pow2Words(logAlign);
    SeekStarts(q);
    SearchExplained(q, AlignUp(0, q.align, q.base), 0);
  }

  lemma SeekStarts(q: Request)
    requires q.Valid() && Regular(q.align)
    ensures Seeking(q, AlignUp(0, q.align, q.base), 0)
  {
    hide AlignUp, Skippable, AllBits, Shadowed, Fit;
    NextCandidate(q, 0);
    var first := AlignUp(0, q.align, q.base);
    if BITS % q.align != 0 {
      AlignedWord(q, first);
    }
    NoFitBelow(q, first);
    hide Aligned;
  }

  lemma NoFitBelow(q: Request, first: nat)
    requires q.Valid() && forall c: nat :: Aligned(q, c) && 0 <= c ==> first <= c
    ensures forall c: nat :: c < first ==> !Fit(q, c) && !Aligned(q, c)
  {
    hide AllBits;
    assert forall c: nat :: Fit(q, c) ==> Aligned(q, c);
    hide Fit, Aligned;
  }

  /** A run that never crosses a word boundary is found first fit, at any alignment and base. */
  lemma ShortRunsFirstFit(q: Request, logAlign: nat)
    requires q.Valid() && q.align == Pow2(logAlign) && RangeSearch(q) != Stray
    requires forall p: nat :: Aligned(q, p) ==> p % BITS + q.num <= BITS
    ensures FirstFit(q, RangeSearch(q))
  {
    hide RangeSearch, Pow2, AllBits;
    MissesExplained(q, logAlign);
    forall c: nat
      ensures !Shadowed(q, c)
    {
      forall p: nat, b: nat
        ensures !BlockedBy(q, c, p, b)
      {
        if p < b < p + q.num && b % BITS == 0 && Aligned(q, p) {
          BoundaryInside(p, b, q.num);
        }
      }
    }
  }

  lemma BoundaryInside(p: nat, b: nat, num: nat)
    requires p < b < p + num && b % BITS == 0
    ensures p % BITS + num > BITS
  {
  }
}
