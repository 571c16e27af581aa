/** What user_mem_check decides, byte by byte and page by page, in 32-bit
    arithmetic. */
module UserMemCheck {
  import opened Layout
  import opened Paging
  import opened AddressSpace

  /** Below ULIM, 0xef800000; for a virtual page, below ULIM's page. */
  predicate BelowUlim(b: nat) {
    b < 4018143232
  }

  predicate PageBelowUlim(v: nat) {
    v < 980992
  }

  /** An address the user program may access with perm. */
  predicate ByteOk(m: Mem, d: nat, b: nat, perm: set<Flag>) {
    BelowUlim(b) && PageOk(m, d, PGNUM(b), perm)
  }

  /** The PTE of virtual page v is present with all of perm. */
  predicate PageOk(m: Mem, d: nat, v: nat, perm: set<Flag>) {
    Present(Pte(m, d, v)) && perm <= Pte(m, d, v).flags
  }

  predicate Passes(m: Mem, d: nat, v: nat, perm: set<Flag>) {
    PageBelowUlim(v) && PageOk(m, d, v, perm)
  }

  function RoundDown(a: nat): (r: nat)
    ensures r == PGNUM(a) * 4096
  {
    a - a % 4096
  }

  /** ROUNDUP((char *)va + len, PGSIZE) on 32-bit words. */
  function End32(va: nat, len: nat): nat {
    RoundDown((va + len + 4095) % 4294967296)
  }

  ghost predicate BytesOk(m: Mem, d: nat, va: nat, len: nat, perm: set<Flag>) {
    forall b :: va <= b < va + len ==> ByteOk(m, d, b, perm)
  }

  /** The answer of the loop: every page it visits passes. */
  ghost predicate PagesOk(m: Mem, d: nat, va: nat, len: nat, perm: set<Flag>) {
    forall v :: PGNUM(va) <= v < PGNUM(End32(va, len)) ==> Passes(m, d, v, perm)
  }

  predicate NoWrap(va: nat, len: nat) {
    va + len + 4095 < 4294967296
  }

  lemma ByteIsPage(m: Mem, d: nat, b: nat, perm: set<Flag>)
    ensures ByteOk(m, d, b, perm) <==> Passes(m, d, PGNUM(b), perm)
  {
  }

  lemma PageStart(v: nat)
    ensures PGNUM(v * 4096) == v
  {
  }

  /** The pages of a range whose rounded end does not wrap. */
  lemma RangePages(va: nat, len: nat, b: nat)
    requires len > 0 && NoWrap(va, len)
    ensures va <= b < va + len ==> PGNUM(va) <= PGNUM(b) < PGNUM(End32(va, len))
    ensures PGNUM(va) <= PGNUM(b) < PGNUM(End32(va, len)) && b == PGNUM(b) * 4096 ==>
              b < va + len && (b < va ==> PGNUM(b) == PGNUM(va))
  {
  }

  lemma PagesAreBytes(m: Mem, d: nat, va: nat, len: nat, perm: set<Flag>)
    requires len > 0 && NoWrap(va, len)
    ensures PagesOk(m, d, va, len, perm) <==> BytesOk(m, d, va, len, perm)
  {
    if BytesOk(m, d, va, len, perm) {
      forall v | PGNUM(va) <= v < PGNUM(End32(va, len)) ensures Passes(m, d, v, perm) {
        PageStart(v);
        RangePages(va, len, v * 4096);
        var b := if v * 4096 < va then va else v * 4096;
        assert ByteOk(m, d, b, perm);
        ByteIsPage(m, d, b, perm);
      }
    }
    if PagesOk(m, d, va, len, perm) {
      forall b | va <= b < va + len ensures ByteOk(m, d, b, perm) {
        RangePages(va, len, b);
        ByteIsPage(m, d, b, perm);
      }
    }
  }

  /** A range whose rounded-up end wraps reaches past ULIM, so the byte check refuses
      it. */
  lemma WrapRefusedByBytes(m: Mem, d: nat, va: nat, len: nat, perm: set<Flag>)
    requires len > 0 && !NoWrap(va, len)
    ensures !BytesOk(m, d, va, len, perm)
  {
    assert !ByteOk(m, d, va + len - 1, perm);
  }

  /** The page loop and the byte check agree exactly when rounding up the end of
      the range does not wrap, or a page the loop visits fails anyway. */
  lemma CheckAgreesIff(m: Mem, d: nat, va: nat, len: nat, perm: set<Flag>)
    requires va < 4294967296 && 0 < len < 4294967296
    ensures (PagesOk(m, d, va, len, perm) <==> BytesOk(m, d, va, len, perm)) <==>
            NoWrap(va, len) || !PagesOk(m, d, va, len, perm)
  {
    if NoWrap(va, len) {
      PagesAreBytes(m, d, va, len, perm);
    } else {
      WrapRefusedByBytes(m, d, va, len, perm);
    }
  }

  /** But for the last 4095 lengths a wrapping range makes the loop visit no page at
      all: it is accepted unchecked. */
  lemma WrapAccepted(m: Mem, d: nat, va: nat, len: nat, perm: set<Flag>)
    requires va < 4294967296 && 0 < len <= 4294963200 && !NoWrap(va, len)
    ensures PagesOk(m, d, va, len, perm) && !BytesOk(m, d, va, len, perm)
  {
    assert PGNUM(End32(va, len)) <= PGNUM(va);
    WrapRefusedByBytes(m, d, va, len, perm);
  }

  /** What a caller can see to: short of those lengths, the answer is right exactly
      when the rounded-up end does not wrap. */
  lemma CheckRightIff(m: Mem, d: nat, va: nat, len: nat, perm: set<Flag>)
    requires va < 4294967296 && 0 < len <= 4294963200
    ensures (PagesOk(m, d, va, len, perm) <==> BytesOk(m, d, va, len, perm)) <==> NoWrap(va, len)
  {
    if NoWrap(va, len) {
      PagesAreBytes(m, d, va, len, perm);
    } else {
      WrapAccepted(m, d, va, len, perm);
    }
  }

  /** The answer is the byte check's; on a refusal, a is the least bad byte. */
  ghost predicate Decides(m: Mem, d: nat, va: nat, len: nat, perm: set<Flag>, ok: bool, a: nat) {
    && (ok <==> BytesOk(m, d, va, len, perm))
    && (!ok ==>
          && va <= a < va + len && !ByteOk(m, d, a, perm)
          && forall b :: va <= b < a ==> ByteOk(m, d, b, perm))
  }

  lemma AllPassed(m: Mem, d: nat, va: nat, len: nat, perm: set<Flag>, a: nat)
    requires PagesOk(m, d, va, len, perm)
    ensures len > 0 && NoWrap(va, len) ==> Decides(m, d, va, len, perm, true, a)
  {
    if len > 0 && NoWrap(va, len) {
      PagesAreBytes(m, d, va, len, perm);
    }
  }

  /** The address recorded for the first failing page. */
  lemma FirstBadByte(m: Mem, d: nat, va: nat, len: nat, perm: set<Flag>, u: nat)
    requires PGNUM(va) <= u < PGNUM(End32(va, len)) && !Passes(m, d, u, perm)
    requires forall v :: PGNUM(va) <= v < u ==> Passes(m, d, v, perm)
    ensures !PagesOk(m, d, va, len, perm)
    ensures len > 0 && NoWrap(va, len) ==>
              Decides(m, d, va, len, perm, false, if u * 4096 < va then va else u * 4096)
  {
    if len > 0 && NoWrap(va, len) {
      var a := if u * 4096 < va then va else u * 4096;
      PageStart(u);
      RangePages(va, len, u * 4096);
      assert PGNUM(a) == u;
      ByteIsPage(m, d, a, perm);
      forall b | va <= b < a ensures ByteOk(m, d, b, perm) {
        assert PGNUM(va) <= PGNUM(b) < u;
        ByteIsPage(m, d, b, perm);
      }
    }
  }
}
