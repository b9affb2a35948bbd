/** The two multicast hash filters: the four MAHTR registers of the chip and the 64-bit mask of getmcaf. */
module MulticastFilter {
  import opened Words
  import opened CrcRegister

  type MacAddr = seq<Byte>

  datatype MacFilterEntry = MacFilterEntry(addr: MacAddr, refCount: nat)

  /** The source counts in 16 bits and never returns on longer data (CalcCrcEnds). */
  method CalcCrc(data: seq<Byte>) returns (crc: Word32)
    requires |data| < 0x10000
    ensures crc == Crc(IEEE, data)
  {
    crc := Ones(32);
    var i := 0;
    while i < |data|
      invariant 0 <= i <= |data|
      invariant crc == Crc(IEEE, data[..i])
    {
      var j := 0;
      while j < 8
        invariant 0 <= j <= 8
        invariant crc == Run(IEEE, Crc(IEEE, data[..i]), ByteBits(data[i])[..j])
      {
        RunOneMore(IEEE, Crc(IEEE, data[..i]), ByteBits(data[i]), j);
        if crc[31] != ByteBits(data[i])[j] {
          crc := Xor(Shl(crc), IEEE);
        } else {
          crc := Shl(crc);
        }
        j := j + 1;
      }
      CrcOneMore(IEEE, data, i);
      i := i + 1;
    }
    assert data[..i] == data;
  }

  /** The loop's 16-bit counter reaches the length in some round exactly if the length has 16 bits. */
  lemma CalcCrcEnds(length: nat)
    ensures (exists rounds: nat :: !(rounds % 0x10000 < length)) <==> length < 0x10000
  {
    if length < 0x10000 {
      assert !(length % 0x10000 < length);
    }
  }

  lemma RunOneMore(g: Word32, r: Word32, bits: Bits, j: nat)
    requires j < |bits|
    ensures Run(g, r, bits[..j + 1]) == Step(g, Run(g, r, bits[..j]), bits[j])
  {
    assert bits[..j + 1] == bits[..j] + [bits[j]];
    RunConcat(g, r, bits[..j], [bits[j]]);
    var s := Run(g, r, bits[..j]);
    assert Run(g, s, [bits[j]]) == Run(g, Step(g, s, bits[j]), []);
  }

  lemma CrcOneMore(g: Word32, data: seq<Byte>, i: nat)
    requires i < |data|
    ensures Crc(g, data[..i + 1]) == Run(g, Crc(g, data[..i]), ByteBits(data[i])[..8])
  {
    var x := data[i];
    assert data[..i + 1] == data[..i] + [x];
    CrcComposes(g, data[..i], [x]);
    StreamOfOne(x);
    assert ByteBits(x)[..8] == ByteBits(x);
  }

  lemma CrcOfNothing(g: Word32, data: seq<Byte>)
    ensures Crc(g, data[..0]) == Ones(32)
  {
    assert BitStream(data[..0]) == [];
  }

  lemma NoBits(g: Word32, r: Word32, x: Byte)
    ensures FromNat(x, 8) == ByteBits(x)[0..] && Run(g, r, ByteBits(x)[..0]) == r
  {
  }

  lemma LowBit(c: nat, i: nat)
    ensures FromNat(c, i + 1)[0] == (c % 2 == 1) && FromNat(c, i + 1)[1..] == FromNat(c / 2, i)
  {
  }

  lemma StreamOfOne(x: Byte)
    ensures BitStream([x]) == ByteBits(x)
  {
    assert [x][1..] == [];
    assert BitStream([x]) == ByteBits(x) + BitStream([]);
  }

  function TopSix(crc: Word32): (k: nat)
    ensures k < Pow2(6) == 64
  {
    ToNat(crc[26..])
  }

  /** The top six bits of the CRC select one of 64 hash bits. */
  function HashIndex(addr: MacAddr): (k: nat)
    ensures k < 64
  {
    TopSix(Crc(IEEE, addr))
  }

  /** The CRC of the address, as a number, lies in the k-th of 64 equal ranges. */
  ghost predicate Selects(addr: MacAddr, k: nat) {
    0x400_0000 * k <= ToNat(Crc(IEEE, addr)) < 0x400_0000 * (k + 1)
  }

  /** A hash bit is selected by the range of the CRC alone. */
  lemma IndexByRange(addr: MacAddr, k: nat)
    ensures HashIndex(addr) == k <==> Selects(addr, k)
  {
    var crc := Crc(IEEE, addr);
    assert Pow2(26) == 0x400_0000 by {
      TwentySixBits();
    }
    assert crc == crc[..26] + crc[26..];
    ToNatConcat(crc[..26], crc[26..]);
    hide Crc, ToNat, Pow2;
    RangeIndex(ToNat(crc[..26]), ToNat(crc[26..]), k);
  }

  lemma TwentySixBits()
    ensures Pow2(26) == 0x400_0000
  {
    assert Pow2(8) == 256;
    assert Pow2(16) == 0x10000;
    assert Pow2(24) == 0x100_0000;
  }

  lemma RangeIndex(low: nat, high: nat, k: nat)
    requires low < 0x400_0000
    ensures high == k <==> 0x400_0000 * k <= low + 0x400_0000 * high < 0x400_0000 * (k + 1)
  {
  }

  ghost predicate Hashed(addrs: set<MacAddr>, k: nat) {
    exists a :: a in addrs && HashIndex(a) == k
  }

  /** Bit k of the table, 16 bits a register, is set exactly when a registered address hashes to k. */
  ghost predicate IsHashTable(mahtr: seq<Bits>, addrs: set<MacAddr>) {
    && |mahtr| == 4
    && (forall r :: 0 <= r < 4 ==> |mahtr[r]| == 16)
    && forall k :: 0 <= k < 64 ==> (mahtr[k / 16][k % 16] <==> Hashed(addrs, k))
  }

  ghost function Live(filter: seq<MacFilterEntry>): (addrs: set<MacAddr>) {
    set i | 0 <= i < |filter| && filter[i].refCount > 0 :: filter[i].addr
  }

  method SetMulticastFilter(filter: seq<MacFilterEntry>, entries: nat, mahtr: array<Bits>)
    requires entries <= |filter| && entries < 256 && mahtr.Length == 4
    requires forall i :: 0 <= i < entries ==> |filter[i].addr| == 6
    modifies mahtr
    ensures IsHashTable(mahtr[..], Live(filter[..entries]))
    ensures forall k :: 0 <= k < 64 ==>
              (mahtr[k / 16][k % 16] <==>
               exists i :: 0 <= i < entries && filter[i].refCount > 0 && Selects(filter[i].addr, k))
  {
    var hashTable := [Zeros(16), Zeros(16), Zeros(16), Zeros(16)];
    var i := 0;
    assert Live(filter[..0]) == {};
    while i < entries
      invariant 0 <= i <= entries
      invariant IsHashTable(hashTable, Live(filter[..i]))
    {
      var entry := filter[i];
      LiveOneMore(filter, i);
      if entry.refCount > 0 {
        var crc := CalcCrc(entry.addr);
        var k := TopSix(crc);
        TableWith(hashTable, Live(filter[..i]), entry.addr);
        hashTable := hashTable[k / 16 := hashTable[k / 16][k % 16 := true]];
      }
      i := i + 1;
    }
    mahtr[0], mahtr[1], mahtr[2], mahtr[3] := hashTable[0], hashTable[1], hashTable[2], hashTable[3];
    assert mahtr[..] == hashTable;
    forall k | 0 <= k < 64
      ensures mahtr[..][k / 16][k % 16] <==>
              exists i :: 0 <= i < entries && filter[i].refCount > 0 && Selects(filter[i].addr, k)
    {
      HashedByRange(filter, entries, k);
    }
  }

  lemma HashedByRange(filter: seq<MacFilterEntry>, entries: nat, k: nat)
    requires entries <= |filter|
    ensures Hashed(Live(filter[..entries]), k) <==>
            exists i :: 0 <= i < entries && filter[i].refCount > 0 && Selects(filter[i].addr, k)
  {
    hide HashIndex, Selects;
    if Hashed(Live(filter[..entries]), k) {
      var a :| a in Live(filter[..entries]) && HashIndex(a) == k;
      var i :| 0 <= i < entries && filter[..entries][i].refCount > 0 && filter[..entries][i].addr == a;
      IndexByRange(a, k);
      assert Selects(filter[i].addr, k);
    }
    if i :| 0 <= i < entries && filter[i].refCount > 0 && Selects(filter[i].addr, k) {
      IndexByRange(filter[i].addr, k);
      assert filter[..entries][i] == filter[i];
      assert filter[i].addr in Live(filter[..entries]);
    }
  }

  lemma LiveOneMore(filter: seq<MacFilterEntry>, i: nat)
    requires i < |filter|
    ensures Live(filter[..i + 1]) == Live(filter[..i]) + (if filter[i].refCount > 0 then {filter[i].addr} else {})
  {
    var before, after := filter[..i], filter[..i + 1];
    assert after == before + [filter[i]];
    forall a | a in Live(before) ensures a in Live(after) {
      var j :| 0 <= j < i && before[j].refCount > 0 && before[j].addr == a;
      assert after[j] == before[j];
    }
    assert after[i] == filter[i];
  }

  lemma HashedWith(addrs: set<MacAddr>, addr: MacAddr, k: nat)
    ensures Hashed(addrs + {addr}, k) <==> Hashed(addrs, k) || HashIndex(addr) == k
  {
    if Hashed(addrs, k) {
      var a :| a in addrs && HashIndex(a) == k;
      assert a in addrs + {addr};
    }
    if HashIndex(addr) == k {
      assert addr in addrs + {addr};
    }
  }

  lemma TableWith(table: seq<Bits>, addrs: set<MacAddr>, addr: MacAddr)
    requires IsHashTable(table, addrs)
    ensures var k := HashIndex(addr);
            IsHashTable(table[k / 16 := table[k / 16][k % 16 := true]], addrs + {addr})
  {
    var k := HashIndex(addr);
    var after := table[k / 16 := table[k / 16][k % 16 := true]];
    forall j | 0 <= j < 64 ensures after[j / 16][j % 16] <==> Hashed(addrs + {addr}, j) {
      HashedWith(addrs, addr, j);
      assert j == 16 * (j / 16) + j % 16 && k == 16 * (k / 16) + k % 16;
    }
  }

  /** j xor 24 on five bits. */
  function Permuted(j: nat): (p: nat)
    requires j < 32
    ensures p < Pow2(5) == 32
  {
    ToNat(Xor(FromNat(j, 5), FromNat(24, 5)))
  }

  lemma PermutedInvolutive(j: nat)
    requires j < 32
    ensures Permuted(Permuted(j)) == j
  {
    assert Pow2(5) == 32;
    var m := FromNat(24, 5);
    FromToNat(Xor(FromNat(j, 5), m));
    assert Xor(Xor(FromNat(j, 5), m), m) == FromNat(j, 5);
    ToFromNat(j, 5);
  }

  /** In numbers: the two high bits of the five are complemented. */
  lemma PermutedIs(j: nat)
    requires j < 32
    ensures Permuted(j) == 24 - 8 * (j / 8) + j % 8
  {
    assert Pow2(3) == 8;
    var q := j / 8;
    var low, high := FromNat(j % 8, 3), FromNat(q, 2);
    assert Permuted(j) == ToNat(Xor(FromNat(j, 5), FromNat(24, 5)));
    hide *;
    ThreeAndTwo(j);
    TwoBits(q);
    FlipHigh(low, high);
    ToNatConcat(low, Not(high));
  }

  lemma ThreeAndTwo(j: nat)
    requires j < 32
    ensures FromNat(j, 5) == FromNat(j % 8, 3) + FromNat(j / 8, 2) && ToNat(FromNat(j % 8, 3)) == j % 8
  {
    assert Pow2(3) == 8;
    var low, high := FromNat(j % 8, 3), FromNat(j / 8, 2);
    ToFromNat(j % 8, 3);
    TwoBits(j / 8);
    hide FromNat, ToNat;
    ToNatConcat(low, high);
    FromToNat(low + high);
  }

  lemma FlipHigh(low: Bits, high: Bits)
    requires |low| == 3 && |high| == 2
    ensures Xor(low + high, FromNat(24, 5)) == low + Not(high)
  {
    assert FromNat(24, 5) == [false] + FromNat(12, 4);
    assert FromNat(12, 4) == [false] + FromNat(6, 3);
    assert FromNat(6, 3) == [false] + FromNat(3, 2);
    assert FromNat(3, 2) == [true] + FromNat(1, 1);
    assert FromNat(1, 1) == [true] + FromNat(0, 0);
    hide FromNat;
    assert FromNat(24, 5) == [false, false, false, true, true];
  }

  lemma TwoBits(q: nat)
    requires q < 4
    ensures ToNat(FromNat(q, 2)) == q && ToNat(Not(FromNat(q, 2))) == 3 - q
  {
    assert Pow2(2) == 4;
    ToFromNat(q, 2);
    var high := FromNat(q, 2);
    assert high == [q % 2 == 1, q / 2 % 2 == 1];
    assert Not(high) == [q % 2 != 1, q / 2 % 2 != 1];
    assert Not(high) == FromNat(3 - q, 2);
    ToFromNat(3 - q, 2);
  }

  /** Bit j of word w is set exactly when some address of that word's half is permuted onto j. */
  ghost predicate IsMcaf(af: seq<Word32>, addrs: set<MacAddr>) {
    && |af| == 2
    && forall w, j :: 0 <= w < 2 && 0 <= j < 32 ==>
         (af[w][j] <==> exists a :: a in addrs && HashIndex(a) / 32 == w && Permuted(HashIndex(a) % 32) == j)
  }

  /** The copy of the CRC loop inside getmcaf, which shifts the data byte instead of indexing it. */
  method McafCrc(addr: MacAddr) returns (crc: Word32)
    requires |addr| == 6
    ensures crc == Crc(IEEE, addr)
  {
    hide Crc, Run, FromNat, Shl, Xor;
    CrcOfNothing(IEEE, addr);
    crc := Ones(32);
    var len := 6;
    while len > 0
      invariant 0 <= len <= 6
      invariant crc == Crc(IEEE, addr[..6 - len])
    {
      len := len - 1;
      var c := addr[5 - len];
      var i := 8;
      NoBits(IEEE, Crc(IEEE, addr[..5 - len]), c);
      while i > 0
        invariant 0 <= i <= 8
        invariant FromNat(c, i) == ByteBits(addr[5 - len])[8 - i..]
        invariant crc == Run(IEEE, Crc(IEEE, addr[..5 - len]), ByteBits(addr[5 - len])[..8 - i])
      {
        i := i - 1;
        RunOneMore(IEEE, Crc(IEEE, addr[..5 - len]), ByteBits(addr[5 - len]), 7 - i);
        LowBit(c, i);
        assert FromNat(c, i + 1)[0] == ByteBits(addr[5 - len])[7 - i];
        if crc[31] != (c % 2 == 1) {
          crc := Shl(crc);
          crc := Xor(crc, IEEE);
        } else {
          crc := Shl(crc);
        }
        c := c / 2;
      }
      assert ByteBits(addr[5 - len])[..8] == ByteBits(addr[5 - len]);
      CrcOneMore(IEEE, addr, 5 - len);
    }
    assert addr[..6] == addr;
  }

  ghost function Elements(addrs: seq<MacAddr>): (r: set<MacAddr>) {
    set a | a in addrs
  }

  lemma ElementsOneMore(addrs: seq<MacAddr>, n: nat)
    requires n < |addrs|
    ensures Elements(addrs[..n + 1]) == Elements(addrs[..n]) + {addrs[n]}
  {
    assert addrs[..n + 1] == addrs[..n] + [addrs[n]];
  }

  method GetMcaf(promiscuous: bool, mcaf: seq<MacAddr>, af: array<Word32>)
    requires af.Length == 2 && forall a :: a in mcaf ==> |a| == 6
    modifies af
    ensures promiscuous ==> af[0] == af[1] == Ones(32)
    ensures !promiscuous ==> IsMcaf(af[..], Elements(mcaf))
    ensures !promiscuous ==>
              forall w, b :: 0 <= w < 2 && 0 <= b < 32 ==>
                (af[w][b] <==> exists a :: a in mcaf && Selects(a, 32 * w + (24 - 8 * (b / 8) + b % 8)))
  {
    if promiscuous {
      af[0], af[1] := Ones(32), Ones(32);
      return;
    }
    af[0], af[1] := Zeros(32), Zeros(32);
    var n := 0;
    while n < |mcaf|
      invariant 0 <= n <= |mcaf|
      invariant IsMcaf(af[..], Elements(mcaf[..n]))
    {
      var crc := McafCrc(mcaf[n]);
      var k := TopSix(crc);
      McafWith(af[..], Elements(mcaf[..n]), mcaf[n]);
      ElementsOneMore(mcaf, n);
      af[k / 32] := af[k / 32][Permuted(k % 32) := true];
      n := n + 1;
    }
    assert mcaf[..n] == mcaf;
    forall w, b | 0 <= w < 2 && 0 <= b < 32
      ensures af[..][w][b] <==> exists a :: a in mcaf && Selects(a, 32 * w + (24 - 8 * (b / 8) + b % 8))
    {
      McafByRange(af[..], mcaf, w, b);
    }
  }

  lemma McafByRange(af: seq<Word32>, mcaf: seq<MacAddr>, w: nat, b: nat)
    requires IsMcaf(af, Elements(mcaf)) && w < 2 && b < 32
    ensures af[w][b] <==> exists a :: a in mcaf && Selects(a, 32 * w + (24 - 8 * (b / 8) + b % 8))
  {
    var k := 32 * w + (24 - 8 * (b / 8) + b % 8);
    hide HashIndex, Selects, Permuted;
    if af[w][b] {
      var a :| a in Elements(mcaf) && HashIndex(a) / 32 == w && Permuted(HashIndex(a) % 32) == b;
      BitOfIndex(HashIndex(a), w, b);
      IndexByRange(a, k);
      assert a in mcaf && Selects(a, k);
    }
    if a :| a in mcaf && Selects(a, k) {
      IndexByRange(a, k);
      BitOfIndex(HashIndex(a), w, b);
      assert a in Elements(mcaf) && HashIndex(a) / 32 == w && Permuted(HashIndex(a) % 32) == b;
    }
  }

  lemma BitOfIndex(h: nat, w: nat, b: nat)
    requires h < 64 && w < 2 && b < 32
    ensures h / 32 == w && Permuted(h % 32) == b <==> h == 32 * w + (24 - 8 * (b / 8) + b % 8)
  {
    PermutedIs(h % 32);
    PermutedIs(b);
    PermutedInvolutive(h % 32);
    PermutedInvolutive(b);
    hide Permuted;
    var p := Permuted(b);
    assert h == 32 * w + p <==> h / 32 == w && h % 32 == p;
  }

  lemma McafWith(af: seq<Word32>, addrs: set<MacAddr>, addr: MacAddr)
    requires IsMcaf(af, addrs)
    ensures var k := HashIndex(addr);
            IsMcaf(af[k / 32 := af[k / 32][Permuted(k % 32) := true]], addrs + {addr})
  {
    hide HashIndex;
    var k := HashIndex(addr);
    var after := af[k / 32 := af[k / 32][Permuted(k % 32) := true]];
    forall w, j | 0 <= w < 2 && 0 <= j < 32
      ensures after[w][j] <==> exists a :: a in addrs + {addr} && HashIndex(a) / 32 == w && Permuted(HashIndex(a) % 32) == j
    {
      assert addr in addrs + {addr};
      if a :| a in addrs && HashIndex(a) / 32 == w && Permuted(HashIndex(a) % 32) == j {
        assert a in addrs + {addr};
      }
    }
  }

  /** For one address set the 64-bit mask is the chip's hash table under the permutation (k mod 32) xor 24. */
  lemma FiltersAgree(mahtr: seq<Bits>, af: seq<Word32>, addrs: set<MacAddr>, k: nat)
    requires IsHashTable(mahtr, addrs) && IsMcaf(af, addrs) && k < 64
    ensures af[k / 32][Permuted(k % 32)] == mahtr[k / 16][k % 16]
  {
    PermutedInvolutive(k % 32);
    if af[k / 32][Permuted(k % 32)] {
      var a :| a in addrs && HashIndex(a) / 32 == k / 32 && Permuted(HashIndex(a) % 32) == Permuted(k % 32);
      PermutedInvolutive(HashIndex(a) % 32);
      assert HashIndex(a) == k;
    }
  }

  /** The table depends on the live addresses only: neither their order nor repeated entries matter. */
  lemma OrderIrrelevant(filter: seq<MacFilterEntry>, other: seq<MacFilterEntry>, mahtr: seq<Bits>, mahtr': seq<Bits>)
    requires IsHashTable(mahtr, Live(filter)) && IsHashTable(mahtr', Live(other))
    requires Live(filter) == Live(other)
    ensures mahtr == mahtr'
  {
    forall r | 0 <= r < 4 ensures mahtr[r] == mahtr'[r] {
      forall b | 0 <= b < 16 ensures mahtr[r][b] == mahtr'[r][b] {
        var k := 16 * r + b;
        assert k / 16 == r && k % 16 == b;
      }
    }
  }
}
