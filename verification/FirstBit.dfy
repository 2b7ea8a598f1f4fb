/** Finding the lowest bit of a word by a table of bytes. */
module FirstBit {
  import opened EventBits

  /** Bit i is up and no bit below it is. */
  ghost predicate Lowest(w: bv32, i: nat)
  {
    i < 32 && Up(w, i) && forall j: nat :: j < i ==> !Up(w, j)
  }

  const LOW := [0, 0, 1, 0, 2, 0, 1, 0, 3, 0, 1, 0, 2, 0, 1, 0]

  /** __lowest_bit_bitmap, in its sixteen rows. */
  const TABLE: seq<seq<nat>> := [
    [0, 0, 1, 0, 2, 0, 1, 0, 3, 0, 1, 0, 2, 0, 1, 0],
    [4, 0, 1, 0, 2, 0, 1, 0, 3, 0, 1, 0, 2, 0, 1, 0],
    [5, 0, 1, 0, 2, 0, 1, 0, 3, 0, 1, 0, 2, 0, 1, 0],
    [4, 0, 1, 0, 2, 0, 1, 0, 3, 0, 1, 0, 2, 0, 1, 0],
    [6, 0, 1, 0, 2, 0, 1, 0, 3, 0, 1, 0, 2, 0, 1, 0],
    [4, 0, 1, 0, 2, 0, 1, 0, 3, 0, 1, 0, 2, 0, 1, 0],
    [5, 0, 1, 0, 2, 0, 1, 0, 3, 0, 1, 0, 2, 0, 1, 0],
    [4, 0, 1, 0, 2, 0, 1, 0, 3, 0, 1, 0, 2, 0, 1, 0],
    [7, 0, 1, 0, 2, 0, 1, 0, 3, 0, 1, 0, 2, 0, 1, 0],
    [4, 0, 1, 0, 2, 0, 1, 0, 3, 0, 1, 0, 2, 0, 1, 0],
    [5, 0, 1, 0, 2, 0, 1, 0, 3, 0, 1, 0, 2, 0, 1, 0],
    [4, 0, 1, 0, 2, 0, 1, 0, 3, 0, 1, 0, 2, 0, 1, 0],
    [6, 0, 1, 0, 2, 0, 1, 0, 3, 0, 1, 0, 2, 0, 1, 0],
    [4, 0, 1, 0, 2, 0, 1, 0, 3, 0, 1, 0, 2, 0, 1, 0],
    [5, 0, 1, 0, 2, 0, 1, 0, 3, 0, 1, 0, 2, 0, 1, 0],
    [4, 0, 1, 0, 2, 0, 1, 0, 3, 0, 1, 0, 2, 0, 1, 0]]

  /** The number in the low four bits of a word. */
  function Nibble(w: bv32): (n: nat)
    ensures n < 16
  {
    match w & 15
    case 0 => 0 case 1 => 1 case 2 => 2 case 3 => 3 case 4 => 4 case 5 => 5 case 6 => 6 case 7 => 7
    case 8 => 8 case 9 => 9 case 10 => 10 case 11 => 11 case 12 => 12 case 13 => 13 case 14 => 14 case _ => 15
  }

  lemma RowOf(r: nat)
    requires r < 16
    ensures |TABLE| == 16 && |TABLE[r]| == 16
    ensures forall c :: 1 <= c < 16 ==> TABLE[r][c] == LOW[c]
    ensures r > 0 ==> TABLE[r][0] == 4 + LOW[r]
  {
  }

  /** The table entry for the low byte of a word. */
  function Entry(w: bv32): nat
  {
    RowOf(Nibble(Halves(w, 4)));
    TABLE[Nibble(Halves(w, 4))][Nibble(w)]
  }

  /** __rt_ffs. */
  function Ffs(value: bv32): nat
  {
    if value == 0 then 0
    else if value & 0xff != 0 then Entry(value) + 1
    else if value & 0xff00 != 0 then Entry(Halves(value, 8)) + 9
    else if value & 0xff0000 != 0 then Entry(Halves(value, 16)) + 17
    else Entry(Halves(value, 24)) + 25
  }

  // ---- __rt_ffs finds the lowest bit

  lemma {:induction false} UpHalves(w: bv32, k: nat, i: nat)
    ensures Up(w, k + i) <==> Up(Halves(w, k), i)
    decreases k
  {
    if k > 0 { UpHalves(w, k - 1, i + 1); }
  }

  /** With the low k bits down, the lowest bit is that of the word shifted by k. */
  lemma LowestSkips(w: bv32, k: nat, i: nat)
    requires forall j: nat :: j < k ==> !Up(w, j)
    requires Lowest(Halves(w, k), i) && k + i < 32
    ensures Lowest(w, k + i)
  {
    UpHalves(w, k, i);
    forall j: nat | k <= j < k + i ensures !Up(w, j) { UpHalves(w, k, j - k); }
  }

  /** The low four bits, one by one. */
  lemma FourBits(w: bv32)
    ensures Up(w, 0) <==> w & 1 != 0
    ensures Up(w, 1) <==> w & 2 != 0
    ensures Up(w, 2) <==> w & 4 != 0
    ensures Up(w, 3) <==> w & 8 != 0
  {
    assert Up(w, 1) <==> Half(w) & 1 == 1;
    assert Up(w, 2) <==> Half(Half(w)) & 1 == 1;
    assert Up(w, 3) <==> Half(Half(Half(w))) & 1 == 1;
  }

  lemma NibbleLowest(w: bv32)
    ensures w & 15 != 0 ==> Lowest(w, LOW[Nibble(w)])
    ensures w & 15 == 0 ==> forall j: nat :: j < 4 ==> !Up(w, j)
  {
    FourBits(w);
    NibbleBits(w);
    var e := LOW[Nibble(w)];
    if w & 15 != 0 {
      forall j: nat | j < e ensures !Up(w, j) { assert j == 0 || j == 1 || j == 2; }
    } else {
      forall j: nat | j < 4 ensures !Up(w, j) { assert j == 0 || j == 1 || j == 2 || j == 3; }
    }
  }

  /** What the table of four bits says. */
  lemma NibbleBits(w: bv32)
    ensures w & 15 == 0 <==> Nibble(w) == 0
    ensures w & 15 == 0 ==> w & 1 == 0 && w & 2 == 0 && w & 4 == 0 && w & 8 == 0
    ensures w & 15 != 0 ==>
      var e := LOW[Nibble(w)];
      (e == 0 && w & 1 != 0) || (e == 1 && w & 1 == 0 && w & 2 != 0) ||
      (e == 2 && w & 1 == 0 && w & 2 == 0 && w & 4 != 0) || (e == 3 && w & 1 == 0 && w & 2 == 0 && w & 4 == 0 && w & 8 != 0)
  {
    BitsOfNibble(w);
  }

  lemma BitsOfNibble(w: bv32)
    ensures w & 1 == (w & 15) & 1 && w & 2 == (w & 15) & 2 && w & 4 == (w & 15) & 4 && w & 8 == (w & 15) & 8
  {
  }

  lemma ByteSplits(w: bv32)
    ensures w & 255 == 0 <==> w & 15 == 0 && Half(Half(Half(Half(w)))) & 15 == 0
  {
  }

  lemma FourHalves(w: bv32)
    ensures Halves(w, 4) == Half(Half(Half(Half(w))))
  {
    assert Halves(w, 1) == Half(w);
    assert Halves(w, 2) == Half(Halves(w, 1));
    assert Halves(w, 3) == Half(Halves(w, 2));
  }

  /** The entry of a byte is its lowest bit. */
  lemma ByteLowest(w: bv32)
    ensures w & 255 != 0 ==> Lowest(w, Entry(w)) && Entry(w) < 8
    ensures w & 255 == 0 ==> forall j: nat :: j < 8 ==> !Up(w, j)
  {
    var h := Halves(w, 4);
    FourHalves(w);
    ByteSplits(w);
    NibbleLowest(w);
    NibbleLowest(h);
    NibbleBits(w);
    NibbleBits(h);
    RowOf(Nibble(h));
    if w & 15 != 0 {
    } else if h & 15 != 0 {
      LowestSkips(w, 4, LOW[Nibble(h)]);
    } else {
      forall j: nat | j < 8 ensures !Up(w, j) { if j >= 4 { UpHalves(w, 4, j - 4); } }
    }
  }

  lemma {:induction false} HalvesSplit(w: bv32, k: nat, n: nat)
    ensures Halves(Halves(w, k), n) == Halves(w, k + n)
    decreases n
  {
    if n > 0 { HalvesSplit(w, k, n - 1); }
  }

  ghost predicate Shifted8(w: bv32, v: bv32)
  {
    v == w >> 8
  }

  /** The three upper bytes of w are the low bytes of a, b and c. */
  ghost predicate SameBytes(w: bv32, a: bv32, b: bv32, c: bv32)
  {
    && (w & 0xff00 == 0 <==> a & 255 == 0)
    && (w & 0xff0000 == 0 <==> b & 255 == 0)
    && (w & 0xff00_0000 == 0 <==> c & 255 == 0)
  }

  lemma EightHalves(w: bv32, v: bv32)
    requires v == Halves(w, 8)
    ensures Shifted8(w, v)
  {
    FourHalves(w);
    FourHalves(Halves(w, 4));
    HalvesSplit(w, 4, 4);
    FourTwice(w, Halves(w, 4), v);
  }

  lemma FourTwice(w: bv32, u: bv32, v: bv32)
    requires u == Half(Half(Half(Half(w)))) && v == Half(Half(Half(Half(u))))
    ensures Shifted8(w, v)
  {
  }

  lemma BytesOf(w: bv32)
    ensures SameBytes(w, Halves(w, 8), Halves(w, 16), Halves(w, 24))
  {
    HalvesSplit(w, 8, 8);
    HalvesSplit(w, 16, 8);
    EightHalves(w, Halves(w, 8));
    EightHalves(Halves(w, 8), Halves(w, 16));
    EightHalves(Halves(w, 16), Halves(w, 24));
    ShiftedBytes(w, Halves(w, 8), Halves(w, 16), Halves(w, 24));
  }

  lemma ShiftedBytes(w: bv32, a: bv32, b: bv32, c: bv32)
    requires Shifted8(w, a) && Shifted8(a, b) && Shifted8(b, c)
    ensures SameBytes(w, a, b, c)
  {
  }

  lemma SomeByte(w: bv32)
    requires w != 0
    ensures w & 0xff != 0 || w & 0xff00 != 0 || w & 0xff0000 != 0 || w & 0xff00_0000 != 0
  {
  }

  lemma DownBelow(w: bv32, k: nat)
    requires forall j: nat :: j < k ==> !Up(w, j)
    requires forall j: nat :: j < 8 ==> !Up(Halves(w, k), j)
    ensures forall j: nat :: j < k + 8 ==> !Up(w, j)
  {
    forall j: nat | j < k + 8 ensures !Up(w, j) { if j >= k { UpHalves(w, k, j - k); } }
  }

  /** __rt_ffs counts from 1 and gives 0 for the empty word. */
  lemma FfsIsLowest(w: bv32)
    ensures Ffs(w) == 0 <==> w == 0
    ensures w != 0 ==> Lowest(w, Ffs(w) - 1)
  {
    ByteLowest(w);
    ByteLowest(Halves(w, 8));
    ByteLowest(Halves(w, 16));
    ByteLowest(Halves(w, 24));
    BytesOf(w);
    if w != 0 {
      SomeByte(w);
      if w & 0xff != 0 {
      } else if w & 0xff00 != 0 {
        LowestSkips(w, 8, Entry(Halves(w, 8)));
      } else if w & 0xff0000 != 0 {
        DownBelow(w, 8);
        LowestSkips(w, 16, Entry(Halves(w, 16)));
      } else {
        DownBelow(w, 8);
        DownBelow(w, 16);
        LowestSkips(w, 24, Entry(Halves(w, 24)));
      }
    }
  }
}
