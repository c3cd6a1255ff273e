/**
 The bit fields of mmu.h. An address or an entry is a 32-bit word in the
 source and a pair of numbers in the model; here the two are tied together.
 */
module VmBits {
  import opened VmModel
  import opened VmEffects

  // The number that a word stands for.
  function Value(b: bv32): (r: nat)
    decreases b
  {
    if b == 0 then 0 else 2 * Value(b >> 1) + if b & 1 == 1 then 1 else 0
  }

  lemma Half(b: bv32)
    ensures Value(b >> 1) == Value(b) / 2
    ensures Value(b) % 2 == if b & 1 == 1 then 1 else 0
  {
    if b == 0 {
      assert b >> 1 == 0 && b & 1 == 0;
    }
  }

  lemma Shift2(b: bv32)
    ensures Value(b >> 2) == Value(b) / 0x4
  {
    hide Value;
    assert (b >> 1) >> 1 == b >> 2;
    Half(b);
    Half(b >> 1);
    assert Value(b) / 0x2 / 0x2 == Value(b) / 0x4;
  }

  lemma Shift4(b: bv32)
    ensures Value(b >> 4) == Value(b) / 0x10
  {
    hide Value;
    assert (b >> 2) >> 2 == b >> 4;
    Shift2(b);
    Shift2(b >> 2);
    assert Value(b) / 0x4 / 0x4 == Value(b) / 0x10;
  }

  lemma Shift8(b: bv32)
    ensures Value(b >> 8) == Value(b) / 0x100
  {
    hide Value;
    assert (b >> 4) >> 4 == b >> 8;
    Shift4(b);
    Shift4(b >> 4);
    assert Value(b) / 0x10 / 0x10 == Value(b) / 0x100;
  }

  lemma Shift12(b: bv32)
    ensures Value(b >> 12) == Value(b) / 0x1000
  {
    hide Value;
    assert (b >> 8) >> 4 == b >> 12;
    Shift8(b);
    Shift4(b >> 8);
    assert Value(b) / 0x100 / 0x10 == Value(b) / 0x1000;
  }

  lemma Shift20(b: bv32)
    ensures Value(b >> 20) == Value(b) / 0x100000
  {
    hide Value;
    assert (b >> 12) >> 8 == b >> 20;
    Shift12(b);
    Shift8(b >> 12);
    assert Value(b) / 0x1000 / 0x100 == Value(b) / 0x100000;
  }

  lemma Shift22(b: bv32)
    ensures Value(b >> 22) == Value(b) / 0x400000
  {
    hide Value;
    assert (b >> 20) >> 2 == b >> 22;
    Shift20(b);
    Shift2(b >> 20);
    assert Value(b) / 0x100000 / 0x4 == Value(b) / 0x400000;
  }

  // Ones from bit 0 up.
  predicate LowMask(m: bv32) {
    m & (m + 1) == 0
  }

  lemma MaskBits(b: bv32, m: bv32)
    requires LowMask(m) && m != 0
    ensures m & 1 == 1 && LowMask(m >> 1) && m >> 1 < m
    ensures (b & m) >> 1 == (b >> 1) & (m >> 1) && (b & m) & 1 == b & 1
  {}

  lemma {:induction false} MaskMod(b: bv32, m: bv32)
    requires LowMask(m)
    ensures Value(b & m) == Value(b) % (Value(m) + 1)
    decreases m
  {
    hide LowMask;
    if m == 0 {
      MaskNone(b);
    } else {
      MaskBits(b, m);
      MaskMod(b >> 1, m >> 1);
      MaskStep(b, m, b & m);
    }
  }

  lemma MaskNone(b: bv32)
    ensures Value(b & 0) == 0 && Value(0) == 0
  {}

  lemma MaskStep(b: bv32, m: bv32, r: bv32)
    requires m & 1 == 1 && r & 1 == b & 1 && Value(r >> 1) == Value(b >> 1) % (Value(m >> 1) + 1)
    ensures Value(r) == Value(b) % (Value(m) + 1)
  {
    hide Value;
    Half(r);
    Half(b);
    Half(m);
    Modulo(Value(b), Value(m >> 1) + 1);
  }

  lemma Modulo(x: nat, n: nat)
    requires n > 0
    ensures x % (2 * n) == 2 * (x / 2 % n) + x % 2
  {
    var q, r := x / 2 / n, x / 2 % n;
    assert x == 2 * (q * n + r) + x % 2;
    assert x == q * (2 * n) + (2 * r + x % 2);
    DivUnique(x, 2 * n, q, 2 * r + x % 2);
  }

  lemma DivUnique(x: int, n: int, q: int, r: int)
    requires n > 0 && 0 <= r < n && x == q * n + r
    ensures x % n == r
  {
    assert x == (x / n) * n + x % n;
    var k := x / n - q;
    assert k * n == r - x % n;
    NoMultiple(k, n);
  }

  lemma NoMultiple(k: int, n: int)
    requires -n < k * n < n
    ensures k == 0
  {
    assert k >= 1 ==> k * n >= n;
    assert k <= -1 ==> k * n <= -n;
  }

  lemma Masks()
    ensures Value(0x3ff) == 0x3ff && Value(0xfff) == 0xfff
  {
    assert Value(3) == 3 && Value(0xf) == 0xf && Value(0x3f) == 0x3f && Value(0xff) == 0xff;
  }

  // ------------------------------------------------------------ addresses

  lemma TopBits(va: bv32)
    ensures (va >> 22) & 0x3ff == va >> 22
  {}

  // PDX, PTX and the offset of an address are the directory index and table
  // index of its page, and the rest.
  lemma AddressFields(va: bv32)
    ensures Value((va >> 22) & 0x3ff) == Pdx(Value(va) / PGSIZE)
    ensures Value((va >> 12) & 0x3ff) == Ptx(Value(va) / PGSIZE)
    ensures Value(va & 0xfff) == Value(va) % PGSIZE
  {
    hide Value;
    Masks();
    Shift12(va);
    Shift22(va);
    TopBits(va);
    assert Value(va) / 0x1000 / 0x400 == Value(va) / 0x40_0000;
    MaskMod(va >> 12, 0x3ff);
    MaskMod(va, 0xfff);
  }

  // -------------------------------------------------------------- entries

  // What a word in a directory or table says: PTE_P, PTE_ADDR and PTE_FLAGS.
  function Decode(pte: bv32): (r: Pte) {
    if pte & 1 == 0 then Absent else Entry(Value(pte & 0xffff_f000) / PGSIZE, Value(pte & 0xfff))
  }

  lemma EntryBits(pa: bv32, perm: bv32)
    requires pa & 0xfff == 0 && perm & 0xffff_f000 == 0
    ensures (pa | perm | 1) & 1 == 1
    ensures (pa | perm | 1) & 0xffff_f000 == pa && (pa | perm | 1) & 0xfff == perm | 1
    ensures (perm | 1) >> 1 == perm >> 1 && (perm | 1) & 1 == 1
  {}

  // The word that mappages and walkpgdir store for a page-aligned address.
  lemma EntryFields(pa: bv32, perm: bv32)
    requires pa & 0xfff == 0 && perm & 0xffff_f000 == 0
    ensures Decode(pa | perm | 1) == Entry(Value(pa) / PGSIZE, OrP(Value(perm)))
    ensures Decode(0) == Absent
  {
    hide Value;
    EntryBits(pa, perm);
    SetPresent(perm);
  }

  lemma FlagBits(pte: bv32)
    ensures ((pte & 0xfff) >> 1) & 1 == 1 <==> pte & 2 != 0
    ensures (((pte & 0xfff) >> 1) >> 1) & 1 == 1 <==> pte & 4 != 0
  {}

  // PTE_W and PTE_U of a word are those of its flags.
  lemma Permissions(pte: bv32)
    requires pte & 1 == 1
    ensures HasW(Decode(pte).flags) <==> pte & 2 != 0
    ensures HasU(Decode(pte).flags) <==> pte & 4 != 0
  {
    hide Value;
    var f := pte & 0xfff;
    FlagBits(pte);
    Half(f);
    Half(f >> 1);
    Half((f >> 1) >> 1);
  }

  lemma SetPresent(perm: bv32)
    requires (perm | 1) >> 1 == perm >> 1 && (perm | 1) & 1 == 1
    ensures Value(perm | 1) == OrP(Value(perm))
  {
    hide Value;
    Half(perm);
    Half(perm | 1);
  }
}
