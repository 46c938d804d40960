/** Page-table entries of 32-bit paging (include/x86/mmu_defs.h): page address in the upper
    twenty bits, flags in the lower twelve. */
module Pte {

  type Entry = bv32

  const INVALID: Entry := 0xFFFF_FFFF

  // Fields of an entry: page address, flags, and the flags P, PS, RW and D.
  function PageAddr(e: Entry): Entry { e & 0xFFFF_F000 }
  function Flags(e: Entry): Entry { e & 0x0FFF }
  predicate Present(e: Entry) { e & 0x001 != 0 }
  predicate Large(e: Entry) { e & 0x080 != 0 }
  predicate Writable(e: Entry) { e & 0x002 != 0 }
  predicate Dirty(e: Entry) { e & 0x040 != 0 }
  function Rest(e: Entry): Entry { e & 0x0FFD }   // all flags but RW
  function ReadOnly(e: Entry): Entry { e & 0xFFFF_FFFD }
  function Compose(p: Entry, flags: Entry): Entry { p | flags }

  lemma ZeroAbsent()
    ensures !Present(0)
  {
  }

  lemma PageIsValid(e: Entry)
    ensures PageAddr(e) != INVALID
  {
    assert (e & 0xFFFF_F000) & 0x001 == 0;
  }

  lemma FlagsApart(p: Entry, flags: Entry)
    requires PageAddr(p) == p && Flags(flags) == flags
    ensures PageAddr(Compose(p, flags)) == p && Flags(Compose(p, flags)) == flags
    ensures Present(Compose(p, flags)) == Present(flags) && Large(Compose(p, flags)) == Large(flags)
  {
    MaskOr(p, flags, 0xFFFF_F000);
    MaskOr(p, flags, 0x0FFF);
    MaskOr(p, flags, 0x001);
    MaskOr(p, flags, 0x080);
    MaskApart(p, flags);
  }

  lemma MaskOr(p: Entry, f: Entry, m: Entry)
    ensures (p | f) & m == (p & m) | (f & m)
  {
  }

  lemma MaskApart(p: Entry, f: Entry)
    ensures (f & 0x0FFF) & 0xFFFF_F000 == 0 && (p & 0xFFFF_F000) & 0x0FFF == 0
    ensures (p & 0xFFFF_F000) & 0x001 == 0 && (p & 0xFFFF_F000) & 0x080 == 0
  {
  }

  lemma PageAddrTwice(e: Entry)
    ensures PageAddr(PageAddr(e)) == PageAddr(e)
  {
  }

  lemma FlagsTwice(e: Entry)
    ensures Flags(Flags(e)) == Flags(e)
  {
  }

  lemma FlagsPresent(e: Entry)
    ensures Present(Flags(e)) == Present(e)
  {
  }

  lemma FlagsLarge(e: Entry)
    ensures Large(Flags(e)) == Large(e)
  {
  }

  lemma ReadOnlyPage(e: Entry)
    ensures PageAddr(ReadOnly(e)) == PageAddr(e)
  {
    hide PageAddr, ReadOnly;
    ReadOnlyIs(e);
    PageAddrIs(ReadOnly(e));
    PageAddrIs(e);
    MaskWithin(e);
  }

  lemma ReadOnlyIs(e: Entry)
    ensures ReadOnly(e) == e & 0xFFFF_FFFD
  {
  }

  lemma PageAddrIs(e: Entry)
    ensures PageAddr(e) == e & 0xFFFF_F000
  {
  }

  lemma MaskWithin(e: Entry)
    ensures (e & 0xFFFF_FFFD) & 0xFFFF_F000 == e & 0xFFFF_F000
  {
  }

  lemma ReadOnlyPresent(e: Entry)
    ensures Present(ReadOnly(e)) == Present(e)
  {
  }

  lemma ReadOnlyLarge(e: Entry)
    ensures Large(ReadOnly(e)) == Large(e)
  {
  }

  lemma ReadOnlyWritable(e: Entry)
    ensures !Writable(ReadOnly(e))
  {
  }

  lemma ComposeBits(p: Entry, e: Entry)
    requires PageAddr(p) == p
    ensures Writable(Compose(p, Flags(e))) == Writable(e) && Dirty(Compose(p, Flags(e))) == Dirty(e)
  {
    MaskOr(p, Flags(e), 0x002);
    MaskOr(p, Flags(e), 0x040);
    assert (p & 0xFFFF_F000) & 0x002 == 0 && (p & 0xFFFF_F000) & 0x040 == 0;
    assert (e & 0x0FFF) & 0x002 == e & 0x002 && (e & 0x0FFF) & 0x040 == e & 0x040;
  }

  lemma ReadOnlyRest(e: Entry)
    ensures Rest(ReadOnly(e)) == Rest(e)
  {
    assert (e & 0xFFFF_FFFD) & 0x0FFD == e & 0x0FFD;
  }

  lemma ComposeRest(p: Entry, e: Entry)
    requires PageAddr(p) == p
    ensures Rest(Compose(p, Flags(e))) == Rest(e)
  {
    MaskOr(p, Flags(e), 0x0FFD);
    assert (p & 0xFFFF_F000) & 0x0FFD == 0;
    assert (e & 0x0FFF) & 0x0FFD == e & 0x0FFD;
  }

  /** Page, write permission and the other flags make up an entry. */
  lemma EntryParts(a: Entry, b: Entry)
    requires PageAddr(a) == PageAddr(b) && Rest(a) == Rest(b) && Writable(a) == Writable(b)
    ensures a == b
  {
    assert a & 0x0002 == b & 0x0002;
    assert a == (a & 0xFFFF_F000) | (a & 0x0FFD) | (a & 0x0002);
    assert b == (b & 0xFFFF_F000) | (b & 0x0FFD) | (b & 0x0002);
  }

  lemma ComposeFaithful(p: Entry, e: Entry)
    requires PageAddr(p) == p
    ensures var pte := Compose(p, Flags(e)); var s := if Dirty(pte) then pte else ReadOnly(pte);
            && PageAddr(s) == p && Present(s) == Present(e) && Large(s) == Large(e)
            && (Writable(s) <==> Writable(e) && Dirty(e)) && Rest(s) == Rest(e)
  {
    hide Present, PageAddr, Large, Writable, Dirty, Compose, ReadOnly, Flags, Rest;
    FlagsTwice(e);
    FlagsPresent(e);
    FlagsLarge(e);
    FlagsApart(p, Flags(e));
    ComposeBits(p, e);
    var pte := Compose(p, Flags(e));
    ReadOnlyPage(pte);
    ReadOnlyPresent(pte);
    ReadOnlyLarge(pte);
    ReadOnlyWritable(pte);
    ComposeRest(p, e);
    ReadOnlyRest(pte);
  }
}
