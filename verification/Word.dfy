/** 64-bit blocks: single bits, and the bit searches and counts done on them. */
module Word {

  // ---- Offsets ----

  lemma OffsetFacts(i: nat)
    requires i < 64
    ensures i as bv7 < 64 && (i as bv7) as nat == i
  {
  }

  lemma SameOffset(i: nat, j: nat)
    requires i < 64 && j < 64
    ensures i as bv7 == j as bv7 <==> i == j
  {
    OffsetFacts(i);
    OffsetFacts(j);
  }

  lemma OffsetOrder(a: bv7, b: bv7)
    ensures a < b <==> (a as nat) < (b as nat)
    ensures a == b <==> (a as nat) == (b as nat)
  {
  }

  lemma NextOffset(o: bv7)
    requires o < 64
    ensures (o + 1) as nat == o as nat + 1
  {
  }

  // ---- Bits ----

  predicate At(w: bv64, o: bv7)
    requires o < 64
  {
    (w >> o) & 1 == 1
  }

  function BitsFrom(w: bv64, o: bv7): set<nat>
    requires o <= 64
    decreases 64 - o
  {
    if o == 64 then {} else (if At(w, o) then {o as nat} else {}) + BitsFrom(w, o + 1)
  }

  /** The bits of a block, numbered from 0. */
  function Bits(w: bv64): set<nat> {
    BitsFrom(w, 0)
  }

  predicate Has(w: bv64, i: nat) {
    i in Bits(w)
  }

  lemma {:induction false} BitsFromAt(w: bv64, o: bv7, i: nat)
    requires o <= 64
    ensures i in BitsFrom(w, o) <==> o as nat <= i < 64 && At(w, i as bv7)
    decreases 64 - o
  {
    if o < 64 {
      NextOffset(o);
      BitsFromAt(w, o + 1, i);
      if i < 64 {
        OffsetFacts(i);
        OffsetOrder(o, i as bv7);
      }
    }
  }

  lemma HasAt(w: bv64, i: nat)
    ensures Has(w, i) <==> i < 64 && At(w, i as bv7)
  {
    BitsFromAt(w, 0, i);
  }

  /** Bits at an offset, as an index. */
  lemma AtHas(w: bv64, o: bv7)
    requires o < 64
    ensures o as nat < 64 && (Has(w, o as nat) <==> At(w, o))
  {
    OffsetOrder(o, 64);
    HasAt(w, o as nat);
  }

  // ---- Operations, bit by bit ----

  function Or(v: bv64, w: bv64): bv64 {
    v | w
  }

  function And(v: bv64, w: bv64): bv64 {
    v & w
  }

  /** v & ~w. */
  function AndNot(v: bv64, w: bv64): bv64 {
    v & !w
  }

  function Not(w: bv64): bv64 {
    !w
  }

  lemma OrWithZero()
    ensures forall w {:trigger Or(w, 0)} :: Or(w, 0) == w
  {
  }

  lemma OrNonzero(v: bv64, w: bv64)
    ensures Or(v, w) == 0 ==> v == 0 && w == 0
  {
  }

  lemma AndWithZero()
    ensures forall w {:trigger And(w, 0)} :: And(w, 0) == 0
    ensures forall w {:trigger And(0, w)} :: And(0, w) == 0
  {
  }

  lemma AndNotZero()
    ensures forall w {:trigger AndNot(w, 0)} :: AndNot(w, 0) == w
    ensures forall w {:trigger AndNot(0, w)} :: AndNot(0, w) == 0
  {
  }

  lemma OrBit(v: bv64, w: bv64, o: bv7)
    requires o < 64
    ensures At(v | w, o) <==> At(v, o) || At(w, o)
  {
  }

  lemma AndBit(v: bv64, w: bv64, o: bv7)
    requires o < 64
    ensures At(v & w, o) <==> At(v, o) && At(w, o)
  {
  }

  lemma AndNotBit(v: bv64, w: bv64, o: bv7)
    requires o < 64
    ensures At(v & !w, o) <==> At(v, o) && !At(w, o)
  {
  }

  lemma AllBit(w: bv64, o: bv7)
    requires o < 64 && !w == 0
    ensures At(w, o)
  {
  }

  lemma NotIsAndNot(v: bv64, w: bv64)
    requires !v == 0
    ensures Not(w) == AndNot(v, w)
  {
  }

  lemma OrHas(v: bv64, w: bv64, i: nat)
    ensures Has(Or(v, w), i) <==> Has(v, i) || Has(w, i)
  {
    HasAt(Or(v, w), i);
    HasAt(v, i);
    HasAt(w, i);
    if i < 64 {
      OrBit(v, w, i as bv7);
    }
  }

  lemma AndHas(v: bv64, w: bv64, i: nat)
    ensures Has(And(v, w), i) <==> Has(v, i) && Has(w, i)
  {
    HasAt(And(v, w), i);
    HasAt(v, i);
    HasAt(w, i);
    if i < 64 {
      AndBit(v, w, i as bv7);
    }
  }

  lemma AndNotHas(v: bv64, w: bv64, i: nat)
    ensures Has(AndNot(v, w), i) <==> Has(v, i) && !Has(w, i)
  {
    HasAt(AndNot(v, w), i);
    HasAt(v, i);
    HasAt(w, i);
    if i < 64 {
      AndNotBit(v, w, i as bv7);
    }
  }

  lemma AllHas(w: bv64, i: nat)
    requires i < 64 && !w == 0
    ensures Has(w, i)
  {
    OffsetFacts(i);
    var o := i as bv7;
    AllBit(w, o);
    AtHas(w, o);
  }

  lemma NotHas(w: bv64, i: nat)
    requires i < 64
    ensures Has(Not(w), i) <==> !Has(w, i)
  {
    var all: bv64 := 0xFFFF_FFFF_FFFF_FFFF;
    NotIsAndNot(all, w);
    AndNotHas(all, w, i);
    AllHas(all, i);
  }

  lemma ZeroBit(o: bv7)
    requires o < 64
    ensures !At(0, o)
  {
  }

  lemma ZeroHas(w: bv64, i: nat)
    requires w == 0
    ensures !Has(w, i)
  {
    HasAt(w, i);
    if i < 64 {
      ZeroBit(i as bv7);
    }
  }

  // ---- Setting, clearing and testing one bit ----

  /** 1LL << o. */
  function Single(o: bv7): bv64
    requires o < 64
  {
    1 << o
  }

  function Added(w: bv64, o: bv7): bv64
    requires o < 64
  {
    w | Single(o)
  }

  function Cleared(w: bv64, o: bv7): bv64
    requires o < 64
  {
    w & !Single(o)
  }

  function With(w: bv64, i: nat): bv64
    requires i < 64
  {
    Added(w, i as bv7)
  }

  function Without(w: bv64, i: nat): bv64
    requires i < 64
  {
    Cleared(w, i as bv7)
  }

  predicate Tested(w: bv64, i: nat)
    requires i < 64
  {
    TestedAt(w, i as bv7)
  }

  predicate TestedAt(w: bv64, o: bv7)
    requires o < 64
  {
    w & (1 << o) != 0
  }

  lemma AddedBit(w: bv64, o: bv7, p: bv7)
    requires o < 64 && p < 64
    ensures At(Added(w, o), p) <==> p == o || At(w, p)
    ensures Added(w, o) != 0
  {
  }

  lemma ClearedItself(w: bv64, o: bv7)
    requires o < 64
    ensures !At(Cleared(w, o), o)
  {
  }

  lemma ClearedOther(w: bv64, o: bv7, p: bv7)
    requires o < 64 && p < 64 && o != p
    ensures At(Cleared(w, o), p) <==> At(w, p)
  {
  }

  lemma ClearedBit(w: bv64, o: bv7, p: bv7)
    requires o < 64 && p < 64
    ensures At(Cleared(w, o), p) <==> p != o && At(w, p)
  {
    if p == o {
      ClearedItself(w, o);
    } else {
      ClearedOther(w, o, p);
    }
  }

  lemma TestedBit(w: bv64, o: bv7)
    requires o < 64
    ensures TestedAt(w, o) <==> At(w, o)
  {
  }

  lemma WithHas(w: bv64, i: nat, j: nat)
    requires i < 64
    ensures Has(With(w, i), j) <==> Has(w, j) || i == j
    ensures With(w, i) != 0
  {
    HasAt(With(w, i), j);
    HasAt(w, j);
    AddedBit(w, i as bv7, i as bv7);
    if j < 64 {
      SameOffset(i, j);
      AddedBit(w, i as bv7, j as bv7);
    }
  }

  lemma WithNonzero(w: bv64, i: nat)
    requires i < 64
    ensures With(w, i) != 0
  {
    WithHas(w, i, i);
  }

  lemma WithoutHas(w: bv64, i: nat, j: nat)
    requires i < 64
    ensures Has(Without(w, i), j) <==> Has(w, j) && i != j
  {
    HasAt(Without(w, i), j);
    HasAt(w, j);
    if j < 64 {
      SameOffset(i, j);
      ClearedBit(w, i as bv7, j as bv7);
    }
  }

  lemma TestedHas(w: bv64, i: nat)
    requires i < 64
    ensures Tested(w, i) <==> Has(w, i)
  {
    HasAt(w, i);
    TestedBit(w, i as bv7);
  }

  /** The bits from 0 below o. */
  function Below(o: bv7): bv64
    requires o < 64
  {
    Single(o) - 1
  }

  lemma BelowBit(o: bv7, p: bv7)
    requires o < 64 && p < 64
    ensures At(Below(o), p) <==> p < o
  {
  }

  /** The bits from 0 through i. */
  function Low(i: nat): bv64
    requires i < 63
  {
    Below((i + 1) as bv7)
  }

  lemma LowHas(i: nat, j: nat)
    requires i < 63
    ensures Has(Low(i), j) <==> j <= i
  {
    HasAt(Low(i), j);
    if j < 64 {
      OffsetFacts(i + 1);
      OffsetFacts(j);
      OffsetOrder(j as bv7, (i + 1) as bv7);
      BelowBit((i + 1) as bv7, j as bv7);
    }
  }

  // ---- Lowest set bit ----

  predicate NoneBelow(w: bv64, o: bv7)
    requires o <= 64
  {
    if o == 64 then w == 0 else w & ((1 << o) - 1) == 0
  }

  lemma NoneBelowStep(w: bv64, o: bv7)
    requires o < 64 && NoneBelow(w, o) && !At(w, o)
    ensures NoneBelow(w, o + 1)
  {
  }

  lemma NoneBelowBit(w: bv64, o: bv7, p: bv7)
    requires o < 64 && NoneBelow(w, o) && p < o
    ensures !At(w, p)
  {
  }

  /** Every block that is not zero has a lowest bit. */
  lemma LowestBit(w: bv64) returns (o: bv7)
    requires w != 0
    ensures o < 64 && At(w, o) && NoneBelow(w, o)
  {
    o := 0;
    while o < 64 && !At(w, o)
      invariant o <= 64 && NoneBelow(w, o)
      decreases 64 - o
    {
      NoneBelowStep(w, o);
      o := o + 1;
    }
  }

  /** Bit i is the lowest. */
  ghost predicate Lowest(w: bv64, i: nat) {
    Has(w, i) && i < 64 && forall j: nat {:trigger Has(w, j)} :: j < i ==> !Has(w, j)
  }

  lemma LowestIndex(w: bv64, o: bv7)
    requires o < 64 && At(w, o) && NoneBelow(w, o)
    ensures Lowest(w, o as nat)
  {
    AtHas(w, o);
    forall j: nat | j < o as nat ensures !Has(w, j) {
      OffsetFacts(j);
      OffsetOrder(j as bv7, o);
      NoneBelowBit(w, o, j as bv7);
      HasAt(w, j);
    }
  }

  lemma LowestExists(w: bv64) returns (i: nat)
    requires w != 0
    ensures Lowest(w, i)
  {
    var o := LowestBit(w);
    LowestIndex(w, o);
    i := o as nat;
  }

  lemma XorBit(v: bv64, w: bv64, o: bv7)
    requires o < 64
    ensures At(v ^ w, o) <==> At(v, o) != At(w, o)
  {
  }

  lemma XorZero(v: bv64, w: bv64)
    ensures v ^ w == 0 <==> v == w
  {
  }

  lemma DifferentBit(v: bv64, w: bv64) returns (i: nat)
    requires v != w
    ensures i < 64 && Has(v, i) != Has(w, i)
  {
    XorZero(v, w);
    var o := LowestBit(v ^ w);
    XorBit(v, w, o);
    AtHas(v, o);
    AtHas(w, o);
    i := o as nat;
  }

  /** Blocks with the same bits are equal. */
  lemma SameBits(v: bv64, w: bv64)
    requires forall i: nat {:trigger Has(v, i)} :: i < 64 ==> (Has(v, i) <==> Has(w, i))
    ensures v == w
  {
    if v != w {
      var i := DifferentBit(v, w);
    }
  }

  // ---- Searches; positions are numbered from 1 and 0 means that there is none ----

  predicate At32(x: bv32, o: bv7)
    requires o < 32
  {
    (x >> o) & 1 == 1
  }

  predicate NoneBelow32(x: bv32, o: bv7)
    requires o <= 32
  {
    if o == 32 then x == 0 else x & ((1 << o) - 1) == 0
  }

  lemma NoneBelow32Step(x: bv32, o: bv7)
    requires o < 32 && NoneBelow32(x, o) && !At32(x, o)
    ensures NoneBelow32(x, o + 1)
  {
  }

  /** ffs of the C library, less 1; 32 if no bit is set. */
  method Ffs(x: bv32) returns (o: bv7)
    ensures o <= 32 && NoneBelow32(x, o) && (o < 32 ==> At32(x, o))
  {
    o := 0;
    while o < 32 && !At32(x, o)
      invariant o <= 32 && NoneBelow32(x, o)
      decreases 32 - o
    {
      NoneBelow32Step(x, o);
      o := o + 1;
    }
  }

  function Lower(w: bv64): bv32 {
    (w & 0xFFFF_FFFF) as bv32
  }

  function Upper(w: bv64): bv32 {
    (w >> 32) as bv32
  }

  lemma LowerHalf(w: bv64, o: bv7)
    requires o < 32 && At32(Lower(w), o) && NoneBelow32(Lower(w), o)
    ensures At(w, o) && NoneBelow(w, o)
  {
  }

  lemma UpperHalf(w: bv64, o: bv7)
    requires Lower(w) == 0 && o < 32 && At32(Upper(w), o) && NoneBelow32(Upper(w), o)
    ensures At(w, o + 32) && NoneBelow(w, o + 32)
  {
  }

  lemma BothHalves(w: bv64)
    ensures Lower(w) == 0 && Upper(w) == 0 ==> w == 0
  {
  }

  /** The offset of the lowest set bit, looked for in the lower half first; 64 if there is none. */
  method FirstOffset(w: bv64) returns (o: bv7)
    ensures o <= 64 && NoneBelow(w, o) && (o < 64 ==> At(w, o))
  {
    var lower := Lower(w);
    o := Ffs(lower);
    if o < 32 {
      LowerHalf(w, o);
    } else {
      o := UpperOffset(w);
    }
  }

  method UpperOffset(w: bv64) returns (o: bv7)
    requires Lower(w) == 0
    ensures o <= 64 && NoneBelow(w, o) && (o < 64 ==> At(w, o))
  {
    var upper := Upper(w);
    var bit := Ffs(upper);
    if bit < 32 {
      UpperHalf(w, bit);
      return bit + 32;
    }
    BothHalves(w);
    return 64;
  }

  method FindFirstSet64(w: bv64) returns (bit: nat)
    ensures w == 0 ==> bit == 0
    ensures w != 0 ==> 0 < bit <= 64 && Lowest(w, bit - 1)
  {
    var o := FirstOffset(w);
    if o == 64 {
      return 0;
    }
    LowestIndex(w, o);
    ZeroBit(o);
    return o as nat + 1;
  }

  method FindFirstClear64(w: bv64) returns (bit: nat)
    ensures bit == 0 ==> forall j: nat {:trigger Has(w, j)} :: j < 64 ==> Has(w, j)
    ensures bit > 0 ==> bit <= 64 && !Has(w, bit - 1) && forall j: nat {:trigger Has(w, j)} :: j < bit - 1 ==> Has(w, j)
  {
    bit := FindFirstSet64(Not(w));
    forall j: nat | j < 64 ensures Has(Not(w), j) <==> !Has(w, j) {
      NotHas(w, j);
    }
    if bit == 0 {
      forall j: nat | j < 64 ensures Has(w, j) {
        ZeroHas(Not(w), j);
      }
    }
  }

  /** The highest set bit, 32 standing for none. */
  predicate Highest32(x: bv32, o: bv7)
    requires o <= 32
  {
    if o == 32 then x == 0 else x >> o == 1
  }

  predicate Highest64(w: bv64, o: bv7)
    requires o <= 64
  {
    if o == 64 then w == 0 else w >> o == 1
  }

  /** Binary search for the highest set bit; 32 if there is none. */
  method FindLastSet32(x: bv32) returns (o: bv7)
    ensures o <= 32 && Highest32(x, o)
  {
    if x == 0 {
      return 32;
    }
    var value := x;
    var bit: bv7 := 32;
    if value & 0xFFFF_0000 == 0 {
      value := value << 16;
      bit := bit - 16;
    }
    if value & 0xFF00_0000 == 0 {
      value := value << 8;
      bit := bit - 8;
    }
    if value & 0xF000_0000 == 0 {
      value := value << 4;
      bit := bit - 4;
    }
    if value & 0xC000_0000 == 0 {
      value := value << 2;
      bit := bit - 2;
    }
    if value & 0x8000_0000 == 0 {
      value := value << 1;
      bit := bit - 1;
    }
    return bit - 1;
  }

  /** Bit i is the highest. */
  ghost predicate Highest(w: bv64, i: nat) {
    Has(w, i) && i < 64 && forall j: nat {:trigger Has(w, j)} :: i < j ==> !Has(w, j)
  }

  lemma HighestBit(w: bv64, o: bv7, p: bv7)
    requires o < 64 && w >> o == 1 && o < p < 64
    ensures !At(w, p)
  {
  }

  lemma HighestIndex(w: bv64, o: bv7)
    requires o < 64 && w >> o == 1
    ensures Highest(w, o as nat)
  {
    AtHas(w, o);
    forall j: nat | o as nat < j ensures !Has(w, j) {
      HasAt(w, j);
      if j < 64 {
        OffsetFacts(j);
        OffsetOrder(o, j as bv7);
        HighestBit(w, o, j as bv7);
      }
    }
  }

  lemma Widen(x: bv32, o: bv7)
    requires o < 32 && x >> o == 1
    ensures (x as bv64) >> o == 1
  {
  }

  lemma OnlyLower(w: bv64)
    requires (w >> 32) as bv32 == 0
    ensures w == ((w & 0xFFFF_FFFF) as bv32) as bv64
  {
  }

  lemma HighUpper(w: bv64, upper: bv32, o: bv7)
    requires o < 32 && upper == (w >> 32) as bv32 && upper >> o == 1
    ensures w >> (o + 32) == 1
  {
  }

  lemma UpperHighest(w: bv64, o: bv7)
    requires o < 32 && Highest32((w >> 32) as bv32, o)
    ensures Highest64(w, o + 32)
  {
    HighUpper(w, (w >> 32) as bv32, o);
  }

  lemma LowerHighest(x: bv32, o: bv7)
    requires o <= 32 && Highest32(x, o)
    ensures Highest64(x as bv64, if o == 32 then 64 else o)
  {
    if o < 32 {
      Widen(x, o);
    }
  }

  /** The offset of the highest set bit, looked for in the upper half first; 64 if there is none. */
  method LastOffset(w: bv64) returns (o: bv7)
    ensures o <= 64 && Highest64(w, o)
  {
    o := FindLastSet32((w >> 32) as bv32);
    if o < 32 {
      UpperHighest(w, o);
      return o + 32;
    }
    OnlyLower(w);
    o := FindLastSet32((w & 0xFFFF_FFFF) as bv32);
    LowerHighest((w & 0xFFFF_FFFF) as bv32, o);
    if o == 32 {
      o := 64;
    }
  }

  method FindLastSet64(w: bv64) returns (bit: nat)
    ensures w == 0 ==> bit == 0
    ensures w != 0 ==> 0 < bit <= 64 && Highest(w, bit - 1)
  {
    var o := LastOffset(w);
    if o == 64 {
      return 0;
    }
    HighestIndex(w, o);
    HighestNonzero(w, o);
    return o as nat + 1;
  }

  lemma HighestNonzero(w: bv64, o: bv7)
    requires o < 64 && w >> o == 1
    ensures w != 0
  {
  }

  // ---- Count ----

  lemma LowestCleared(w: bv64, o: bv7)
    requires o < 64 && At(w, o) && NoneBelow(w, o)
    ensures w & (w - 1) == Cleared(w, o)
  {
  }

  lemma OneLess(w: bv64, v: bv64, i: nat)
    requires i < 64 && Has(w, i) && v == Without(w, i)
    ensures |Bits(v)| == |Bits(w)| - 1
  {
    forall j | j in Bits(v) ensures j in Bits(w) - {i} {
      WithoutHas(w, i, j);
      assert Has(v, j);
    }
    forall j | j in Bits(w) - {i} ensures j in Bits(v) {
      WithoutHas(w, i, j);
      assert Has(w, j);
    }
    assert Bits(v) == Bits(w) - {i};
  }

  /** w & (w - 1) has one bit less. */
  lemma DropLowest(w: bv64)
    requires w != 0
    ensures |Bits(w & (w - 1))| == |Bits(w)| - 1
  {
    var o := LowestBit(w);
    LowestCleared(w, o);
    AtHas(w, o);
    OneLess(w, w & (w - 1), o as nat);
  }

  /** Number of set bits, by clearing the lowest until none is left. */
  method NumBitsSet(w: bv64) returns (count: nat)
    ensures count == |Bits(w)|
  {
    var value := w;
    count := 0;
    while value != 0
      invariant |Bits(value)| + count == |Bits(w)|
      decreases |Bits(value)|
    {
      DropLowest(value);
      value := value & (value - 1);
      count := count + 1;
    }
    NoBits(value);
  }

  lemma NoBits(w: bv64)
    requires w == 0
    ensures Bits(w) == {}
  {
    forall i: nat ensures i !in Bits(w) {
      ZeroHas(w, i);
      assert !Has(w, i);
    }
  }
}
