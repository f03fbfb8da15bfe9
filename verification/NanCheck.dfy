// The NaN check run before a collective.  One launch covers a tensor of any length
// at any address: elements before the first 16-byte boundary one by one, then whole
// 16-byte packs in a strided loop unrolled eight times, then single strided packs,
// then the elements after the last whole pack.
module NanCheck {
  import opened Arithmetic

  const UNROLL := 8
  const PACK_BYTES := 16
  const MAX_BLOCKS := 24

  // ---- The geometry of a launch ----

  // `size` elements of `width` bytes at address `addr`, and the device's limit on the
  // work-group size.
  datatype Launch = Launch(size: nat, width: nat, addr: nat, limit: nat)
  {
    // C++ gives typed pointers: the address is a multiple of the element width.
    predicate Valid()
    {
      size > 0 && limit > 0 && width in {1, 2, 4, 8} && addr % width == 0
    }

    function PerPack(): nat
      requires Valid()
      ensures PerPack() > 1 && PerPack() * width == PACK_BYTES
    {
      PACK_BYTES / width
    }

    // Elements before the first pack boundary.
    function Head(): (h: nat)
      requires Valid()
      ensures h <= size
    {
      var aligned := (addr + PACK_BYTES - 1) / PACK_BYTES * PACK_BYTES;
      var elts := (aligned - addr) / width;
      if elts < size then elts else size
    }

    function Packs(): nat
      requires Valid()
    {
      (size - Head()) * width / PACK_BYTES
    }

    // Elements after the last whole pack.
    function Tail(): (t: nat)
      requires Valid()
      ensures t <= size - Head()
    {
      (size - Head()) % PerPack()
    }

    function PerBlock(): (t: nat)
      requires Valid()
      ensures t > 0
    {
      if limit < size then limit else size
    }

    function Blocks(): (b: nat)
      requires Valid()
      ensures b > 0
    {
      var needed := (size + PerBlock() - 1) / PerBlock();
      assert needed >= 1 by { Quotient(size + PerBlock() - 1, PerBlock()); }
      if MAX_BLOCKS < needed then MAX_BLOCKS else needed
    }

    function Range(): nat
      requires Valid()
    {
      Blocks() * PerBlock()
    }
  }

  lemma Quotient(a: nat, b: nat)
    requires b > 0 && a >= b
    ensures a / b >= 1
  {
  }

  // Head, packs and tail make up the tensor, and head and tail are short.
  lemma Layout(z: Launch)
    requires z.Valid()
    ensures z.Head() < z.PerPack() && z.Tail() < z.PerPack()
    ensures z.Head() + z.Packs() * z.PerPack() + z.Tail() == z.size
    ensures z.PerBlock() <= z.Range()
  {
    HeadIsShort(z);
    PacksAreQuotient(z.size - z.Head(), z.width, z.PerPack());
    RangeIsBlocks(z.Blocks(), z.PerBlock());
    hide Launch.Head, Launch.Blocks, Launch.PerBlock;
  }

  lemma HeadIsShort(z: Launch)
    requires z.Valid()
    ensures z.Head() < z.PerPack()
  {
    var q := (z.addr + PACK_BYTES - 1) / PACK_BYTES;
    DivMod(z.addr + PACK_BYTES - 1, PACK_BYTES);
    DivideBelow(q * PACK_BYTES - z.addr, z.width, z.PerPack());
  }

  lemma RangeIsBlocks(n: nat, m: nat)
    requires n > 0
    ensures m <= n * m
  {
    MulMonotone(1, n, m);
  }

  lemma DivideBelow(d: nat, w: nat, e: nat)
    requires w in {1, 2, 4, 8} && e * w == PACK_BYTES && d < PACK_BYTES
    ensures d / w < e
  {
  }

  lemma PacksAreQuotient(left: nat, w: nat, e: nat)
    requires w in {1, 2, 4, 8} && e * w == PACK_BYTES
    ensures left * w / PACK_BYTES == left / e && left / e * e + left % e == left
  {
    if w == 1 { assert e == 16; } else if w == 2 { assert e == 8; } else if w == 4 { assert e == 4; } else { assert e == 2; }
  }

  // ---- Packs and their tests ----

  predicate HasNan<T>(s: seq<T>, isNan: T -> bool)
  {
    exists i :: 0 <= i < |s| && isNan(s[i])
  }

  // The NaN test of a whole pack finds exactly the packs with a NaN in them.
  ghost predicate PackTest<T(!new)>(e: nat, isNan: T -> bool, checkPack: seq<T> -> bool)
  {
    forall p: seq<T> :: |p| == e ==> (checkPack(p) <==> HasNan(p, isNan))
  }

  // Elements of pack b.
  function Pack<T>(z: Launch, data: seq<T>, b: nat): (p: seq<T>)
    requires z.Valid() && |data| == z.size && b < z.Packs()
    ensures |p| == z.PerPack()
  {
    Layout(z);
    InPacks(b, z.Packs(), z.PerPack());
    data[z.Head() + b * z.PerPack()..z.Head() + (b + 1) * z.PerPack()]
  }

  lemma InPacks(b: nat, n: nat, e: nat)
    requires b < n
    ensures (b + 1) * e <= n * e && (b + 1) * e == b * e + e
  {
  }

  function Nth(start: nat, stride: nat, k: nat): nat { start + k * stride }

  // start, start + stride, ..., n packs in all
  function Strided(start: nat, stride: nat, n: nat): (s: seq<nat>)
    ensures |s| == n && forall k :: 0 <= k < n ==> s[k] == Nth(start, stride, k)
  {
    seq(n, k requires 0 <= k < n => Nth(start, stride, k))
  }

  lemma NthAdd(start: nat, stride: nat, n: nat, k: nat)
    ensures Nth(Nth(start, stride, n), stride, k) == Nth(start, stride, n + k) == Nth(start, stride, n) + stride * k
  {
    Distribute(n, k, stride);
  }

  lemma NthBefore(start: nat, stride: nat, n: nat)
    requires n > 0
    ensures Nth(start, stride, n - 1) == Nth(start, stride, n) - stride
  {
    Distribute(n, 1, stride);
  }

  lemma StridedMore(start: nat, stride: nat, n: nat, m: nat)
    ensures Strided(start, stride, n) + Strided(Nth(start, stride, n), stride, m) == Strided(start, stride, n + m)
    ensures Nth(start, stride, n + m) == Nth(start, stride, n) + stride * m
    ensures m > 0 ==> Nth(start, stride, n + m - 1) == Nth(start, stride, n) + stride * m - stride
  {
    NthAdd(start, stride, n, m);
    if m > 0 {
      NthBefore(start, stride, n + m);
    }
    hide Nth;
    forall k | 0 <= k < m ensures Nth(Nth(start, stride, n), stride, k) == Nth(start, stride, n + k) {
      NthAdd(start, stride, n, k);
    }
  }

  // Some pack in the list fails the test.
  ghost predicate FoundIn<T>(z: Launch, data: seq<T>, checkPack: seq<T> -> bool, packs: seq<nat>)
    requires z.Valid() && |data| == z.size
  {
    exists k :: 0 <= k < |packs| && packs[k] < z.Packs() && checkPack(Pack(z, data, packs[k]))
  }

  lemma FoundInConcat<T>(z: Launch, data: seq<T>, checkPack: seq<T> -> bool, a: seq<nat>, b: seq<nat>)
    requires z.Valid() && |data| == z.size
    ensures FoundIn(z, data, checkPack, a + b) <==> FoundIn(z, data, checkPack, a) || FoundIn(z, data, checkPack, b)
  {
    var c := a + b;
    if k :| 0 <= k < |a| && a[k] < z.Packs() && checkPack(Pack(z, data, a[k])) {
      assert c[k] == a[k];
    }
    if k :| 0 <= k < |b| && b[k] < z.Packs() && checkPack(Pack(z, data, b[k])) {
      assert c[|a| + k] == b[k];
    }
  }

  // checkChunk: loads eight packs a stride apart, then tests them.
  method CheckChunk<T>(z: Launch, data: seq<T>, offset: nat, stride: nat, checkPack: seq<T> -> bool) returns (found: bool)
    requires z.Valid() && |data| == z.size && offset + 7 * stride < z.Packs()
    ensures found <==> FoundIn(z, data, checkPack, Strided(offset, stride, UNROLL))
  {
    hide Pack, Launch.Head, Launch.Packs, Launch.PerPack, Launch.Range, Launch.Tail, Launch.PerBlock, Launch.Blocks, Launch.Valid;
    ghost var packs := Strided(offset, stride, UNROLL);
    var tmp: seq<seq<T>> := [];
    for j := 0 to UNROLL
      invariant |tmp| == j
      invariant forall k :: 0 <= k < j ==> packs[k] < z.Packs() && tmp[k] == Pack(z, data, packs[k])
    {
      assert stride * j <= stride * 7 && packs[j] == offset + stride * j;
      tmp := tmp + [Pack(z, data, offset + stride * j)];
    }
    found := false;
    for j := 0 to UNROLL
      invariant found <==> exists k :: 0 <= k < j && packs[k] < z.Packs() && checkPack(Pack(z, data, packs[k]))
    {
      if checkPack(tmp[j]) {
        found := true;
      }
    }
  }

  // Everything a strided walk from gid has visited when it leaves the packs is its
  // residue class.
  lemma ResidueClass(gid: nat, stride: nat, n: nat, packs: nat, b: nat)
    requires gid < stride && Nth(gid, stride, n) >= packs && (n > 0 ==> Nth(gid, stride, n - 1) < packs)
    ensures b in Strided(gid, stride, n) <==> b < packs && b % stride == gid
  {
    DivMod(b, stride);
    if b < packs && b % stride == gid {
      if b / stride >= n {
        MulMonotone(n, b / stride, stride);
      }
      assert Strided(gid, stride, n)[b / stride] == b;
    }
    if b in Strided(gid, stride, n) {
      var k :| 0 <= k < n && Strided(gid, stride, n)[k] == b;
      MulMonotone(k, n - 1, stride);
      DivModUnique(b, stride, k, gid);
    }
  }

  lemma NthIncreases(start: nat, stride: nat, i: nat, j: nat)
    requires stride > 0 && i < j
    ensures Nth(start, stride, i) < Nth(start, stride, j)
  {
    MulMonotone(i + 1, j, stride);
  }

  // The two strided loops of a work-item: chunks of eight packs, then single packs.
  method WalkPacks<T>(z: Launch, data: seq<T>, gid: nat, checkPack: seq<T> -> bool) returns (found: bool, ghost n: nat)
    requires z.Valid() && |data| == z.size && gid < z.Range()
    ensures Nth(gid, z.Range(), n) >= z.Packs() && (n > 0 ==> Nth(gid, z.Range(), n - 1) < z.Packs())
    ensures found <==> FoundIn(z, data, checkPack, Strided(gid, z.Range(), n))
    ensures found <==> exists b: nat :: b < z.Packs() && b % z.Range() == gid && checkPack(Pack(z, data, b))
  {
    var offset := gid;
    var range, body := z.Range(), z.Packs();
    assert Nth(gid, range, 0) == gid;
    found, n := false, 0;
    hide Nth, Strided, FoundIn, Pack, Launch.Head, Launch.Packs, Launch.PerPack, Launch.Range, Launch.Tail, Launch.PerBlock, Launch.Blocks, Launch.Valid;
    var loopSize := range * UNROLL;
    while offset + loopSize <= body
      invariant offset == Nth(gid, range, n)
      invariant n > 0 ==> Nth(gid, range, n - 1) < body
      invariant found <==> FoundIn(z, data, checkPack, Strided(gid, range, n))
    {
      var bad := CheckChunk(z, data, offset, range, checkPack);
      found := found || bad;
      FoundInConcat(z, data, checkPack, Strided(gid, range, n), Strided(offset, range, UNROLL));
      StridedMore(gid, range, n, UNROLL);
      offset := offset + loopSize;
      n := n + UNROLL;
    }
    while offset < body
      invariant offset == Nth(gid, range, n)
      invariant n > 0 ==> Nth(gid, range, n - 1) < body
      invariant found <==> FoundIn(z, data, checkPack, Strided(gid, range, n))
      decreases body - offset
    {
      var tmp := Pack(z, data, offset);
      var bad := checkPack(tmp);
      found := found || bad;
      OnePack(z, data, checkPack, offset, range);
      FoundInConcat(z, data, checkPack, Strided(gid, range, n), Strided(offset, range, 1));
      StridedMore(gid, range, n, 1);
      offset := offset + range;
      n := n + 1;
    }
    FoundInResidueClass(z, data, checkPack, gid, n);
  }

  lemma FoundInResidueClass<T>(z: Launch, data: seq<T>, checkPack: seq<T> -> bool, gid: nat, n: nat)
    requires z.Valid() && |data| == z.size && gid < z.Range()
    requires Nth(gid, z.Range(), n) >= z.Packs() && (n > 0 ==> Nth(gid, z.Range(), n - 1) < z.Packs())
    ensures FoundIn(z, data, checkPack, Strided(gid, z.Range(), n))
            <==> exists b: nat :: b < z.Packs() && b % z.Range() == gid && checkPack(Pack(z, data, b))
  {
    hide Nth, Strided, Pack, Launch.Head, Launch.Packs, Launch.PerPack, Launch.Range, Launch.Tail, Launch.PerBlock, Launch.Blocks, Launch.Valid;
    var packs := Strided(gid, z.Range(), n);
    forall b: nat ensures b in packs <==> b < z.Packs() && b % z.Range() == gid {
      ResidueClass(gid, z.Range(), n, z.Packs(), b);
    }
    if k :| 0 <= k < |packs| && packs[k] < z.Packs() && checkPack(Pack(z, data, packs[k])) {
      assert packs[k] in packs;
    }
    if b: nat :| b < z.Packs() && b % z.Range() == gid && checkPack(Pack(z, data, b)) {
      assert b in packs;
      var k :| 0 <= k < |packs| && packs[k] == b;
    }
  }

  lemma OnePack<T>(z: Launch, data: seq<T>, checkPack: seq<T> -> bool, b: nat, stride: nat)
    requires z.Valid() && |data| == z.size && b < z.Packs()
    ensures FoundIn(z, data, checkPack, Strided(b, stride, 1)) <==> checkPack(Pack(z, data, b))
  {
    assert Strided(b, stride, 1)[0] == b;
  }

  // The kernel, as one work-item executes it.  `packs` are the packs it read.
  method RunItem<T(!new)>(z: Launch, data: seq<T>, gid: nat, local: nat, isNan: T -> bool, checkPack: seq<T> -> bool)
    returns (found: bool, ghost packs: seq<nat>)
    requires z.Valid() && |data| == z.size && gid < z.Range() && PackTest(z.PerPack(), isNan, checkPack)
    ensures forall i, j :: 0 <= i < j < |packs| ==> packs[i] < packs[j]
    ensures forall b: nat :: b in packs <==> b < z.Packs() && b % z.Range() == gid
    ensures found <==>
            || (gid < z.Head() && isNan(data[gid]))
            || FoundIn(z, data, checkPack, packs)
            || (local < z.Tail() && isNan(data[z.size - z.Tail() + local]))
    ensures found <==> ItemFinds(z, data, gid, local, isNan)
  {
    Layout(z);
    hide ItemFinds, PackTest;
    hide Nth, Strided, FoundIn, Pack, Launch.Head, Launch.Packs, Launch.PerPack, Launch.Range, Launch.Tail, Launch.PerBlock, Launch.Blocks, Launch.Valid;
    var range, body := z.Range(), z.Packs();
    var headElts := z.Head();
    found := false;
    if gid < headElts {
      if isNan(data[gid]) {
        found := true;
      }
    }
    var bad, n := WalkPacks(z, data, gid, checkPack);
    found := found || bad;
    packs := Strided(gid, range, n);
    forall b: nat ensures b in packs <==> b < body && b % range == gid {
      ResidueClass(gid, range, n, body, b);
    }
    forall i, j | 0 <= i < j < n ensures packs[i] < packs[j] {
      NthIncreases(gid, range, i, j);
    }
    if local < z.Tail() {
      if isNan(data[headElts + body * z.PerPack() + local]) {
        found := true;
      }
    }
    ItemFindsWhatItReads(z, data, gid, local, packs, isNan, checkPack);
  }

  // ---- The launch as a whole ----

  // Work-item `local` of block `block` has this global id.
  function GlobalId(z: Launch, block: nat, local: nat): nat
    requires z.Valid()
  {
    block * z.PerBlock() + local
  }

  predicate IsItem(z: Launch, block: nat, local: nat)
    requires z.Valid()
  {
    block < z.Blocks() && local < z.PerBlock()
  }

  lemma ItemInRange(z: Launch, block: nat, local: nat)
    requires z.Valid() && IsItem(z, block, local)
    ensures GlobalId(z, block, local) < z.Range()
  {
    var n, m := z.Blocks(), z.PerBlock();
    hide Launch.Blocks, Launch.PerBlock, Launch.Head;
    MulMonotone(block + 1, n, m);
    Distribute(block, 1, m);
  }

  lemma ItemOf(z: Launch, gid: nat) returns (block: nat, local: nat)
    requires z.Valid() && gid < z.Range()
    ensures IsItem(z, block, local) && GlobalId(z, block, local) == gid
  {
    var n, m := z.Blocks(), z.PerBlock();
    hide Launch.Blocks, Launch.PerBlock, Launch.Head, Launch.Valid;
    DivMod(gid, m);
    QuotientBelow(gid, n, m);
    block, local := gid / m, gid % m;
  }

  function Body(z: Launch): nat
    requires z.Valid()
  {
    z.Head() + z.Packs() * z.PerPack()
  }

  // The pack that holds element i of the body.
  function PackIndex(z: Launch, i: nat): nat
    requires z.Valid() && z.Head() <= i
  {
    (i - z.Head()) / z.PerPack()
  }

  // An element of the head goes to the item with that global id, an element of a pack
  // to the pack's residue class, an element of the tail to that local id in every block.
  predicate ReadsElement(z: Launch, gid: nat, local: nat, i: nat)
    requires z.Valid()
  {
    if i < z.Head() then i == gid
    else if i < Body(z) then PackIndex(z, i) % z.Range() == gid
    else i - Body(z) == local
  }

  ghost predicate ElementRead(z: Launch, i: nat)
    requires z.Valid()
  {
    exists block: nat, local: nat :: IsItem(z, block, local) && ReadsElement(z, GlobalId(z, block, local), local, i)
  }

  predicate Covering(z: Launch)
    requires z.Valid()
  {
    z.Head() <= z.Range() && z.Tail() <= z.PerBlock()
  }

  // Every element is read by some item exactly when the launch has an item for each
  // head element and each block has one for each tail element.
  lemma EveryElementReadIff(z: Launch)
    requires z.Valid()
    ensures (forall i :: 0 <= i < z.size ==> ElementRead(z, i)) <==> Covering(z)
  {
    Layout(z);
    hide Launch.Head, Launch.Packs, Launch.PerPack, Launch.Range, Launch.Tail, Launch.PerBlock, Launch.Blocks, Launch.Valid;
    if Covering(z) {
      forall i | 0 <= i < z.size ensures ElementRead(z, i) {
        CoveringReads(z, i);
      }
    } else {
      var i := if z.Head() > z.Range() then z.Range() else Body(z) + z.PerBlock();
      forall block: nat, local: nat | IsItem(z, block, local) ensures !ReadsElement(z, GlobalId(z, block, local), local, i) {
        ItemInRange(z, block, local);
      }
      assert i < z.size && !ElementRead(z, i);
    }
  }

  lemma CoveringReads(z: Launch, i: nat)
    requires z.Valid() && Covering(z) && i < z.size
    ensures ElementRead(z, i)
  {
    Layout(z);
    hide Launch.Head, Launch.Packs, Launch.PerPack, Launch.Range, Launch.Tail, Launch.PerBlock, Launch.Blocks, Launch.Valid;
    if i < Body(z) {
      hide GlobalId, IsItem, PackIndex;
      var gid := if i < z.Head() then i else PackIndex(z, i) % z.Range();
      var block, local := ItemOf(z, gid);
    } else {
      assert GlobalId(z, 0, i - Body(z)) == i - Body(z) && IsItem(z, 0, i - Body(z));
    }
  }

  // A device whose work-groups hold a pack's worth of items, less one, always covers.
  lemma LargeGroupsCover(z: Launch)
    requires z.Valid() && z.limit >= z.PerPack() - 1
    ensures Covering(z)
  {
    Layout(z);
  }

  // Each whole pack is read by one item only.
  lemma PackReadByOne(z: Launch, b: nat, block1: nat, local1: nat, block2: nat, local2: nat)
    requires z.Valid() && b < z.Packs() && IsItem(z, block1, local1) && IsItem(z, block2, local2)
    requires b % z.Range() == GlobalId(z, block1, local1) && b % z.Range() == GlobalId(z, block2, local2)
    ensures block1 == block2 && local1 == local2
  {
    DivModUnique(b % z.Range(), z.PerBlock(), block1, local1);
    DivModUnique(b % z.Range(), z.PerBlock(), block2, local2);
  }

  // What RunItem reports, said about the elements it read.
  ghost predicate ItemFinds<T>(z: Launch, data: seq<T>, gid: nat, local: nat, isNan: T -> bool)
    requires z.Valid() && |data| == z.size
  {
    exists i :: 0 <= i < z.size && ReadsElement(z, gid, local, i) && isNan(data[i])
  }

  lemma PackElements<T(!new)>(z: Launch, data: seq<T>, b: nat, isNan: T -> bool, checkPack: seq<T> -> bool)
    requires z.Valid() && |data| == z.size && b < z.Packs() && PackTest(z.PerPack(), isNan, checkPack)
    ensures checkPack(Pack(z, data, b)) <==>
            exists i :: 0 <= i < z.size && InPack(z, i, b) && isNan(data[i])
  {
    var p := Pack(z, data, b);
    assert checkPack(p) <==> HasNan(p, isNan);
    hide PackTest, Pack, Launch.Valid;
    if k :| 0 <= k < |p| && isNan(p[k]) {
      var i := ElementOfPack(z, data, b, k);
    }
    if i :| 0 <= i < z.size && InPack(z, i, b) && isNan(data[i]) {
      var k := PlaceInPack(z, data, b, i);
    }
  }

  lemma ElementOfPack<T>(z: Launch, data: seq<T>, b: nat, k: nat) returns (i: nat)
    requires z.Valid() && |data| == z.size && b < z.Packs() && k < z.PerPack()
    ensures i < z.size && InPack(z, i, b) && data[i] == Pack(z, data, b)[k]
  {
    Layout(z);
    var e := z.PerPack();
    hide Launch.Head, Launch.Packs, Launch.PerPack, Launch.Valid, Launch.Range;
    InPacks(b, z.Packs(), e);
    DivModUnique(b * e + k, e, b, k);
    i := z.Head() + b * e + k;
  }

  lemma PlaceInPack<T>(z: Launch, data: seq<T>, b: nat, i: nat) returns (k: nat)
    requires z.Valid() && |data| == z.size && b < z.Packs() && i < z.size && InPack(z, i, b)
    ensures k < z.PerPack() && data[i] == Pack(z, data, b)[k]
  {
    Layout(z);
    hide Launch.Head, Launch.Packs, Launch.PerPack, Launch.Valid, Launch.Range;
    InPacks(b, z.Packs(), z.PerPack());
    DivMod(i - z.Head(), z.PerPack());
    k := (i - z.Head()) % z.PerPack();
  }

  predicate InPack(z: Launch, i: nat, b: nat)
    requires z.Valid()
  {
    z.Head() <= i < Body(z) && PackIndex(z, i) == b
  }

  lemma FoundPackHasNan<T(!new)>(z: Launch, data: seq<T>, gid: nat, local: nat, packs: seq<nat>,
                                 isNan: T -> bool, checkPack: seq<T> -> bool)
    requires z.Valid() && |data| == z.size && gid < z.Range() && PackTest(z.PerPack(), isNan, checkPack)
    requires forall b: nat :: b in packs <==> b < z.Packs() && b % z.Range() == gid
    requires FoundIn(z, data, checkPack, packs)
    ensures ItemFinds(z, data, gid, local, isNan)
  {
    var k :| 0 <= k < |packs| && packs[k] < z.Packs() && checkPack(Pack(z, data, packs[k]));
    assert packs[k] in packs;
    PackElements(z, data, packs[k], isNan, checkPack);
    hide Launch.Head, Launch.Packs, Launch.PerPack, Launch.Range, Launch.Tail, Launch.PerBlock, Launch.Blocks, Launch.Valid;
    var i :| 0 <= i < z.size && InPack(z, i, packs[k]) && isNan(data[i]);
    assert ReadsElement(z, gid, local, i);
  }

  lemma NanPackIsFound<T(!new)>(z: Launch, data: seq<T>, gid: nat, local: nat, packs: seq<nat>,
                                isNan: T -> bool, checkPack: seq<T> -> bool, i: nat)
    requires z.Valid() && |data| == z.size && gid < z.Range() && PackTest(z.PerPack(), isNan, checkPack)
    requires forall b: nat :: b in packs <==> b < z.Packs() && b % z.Range() == gid
    requires z.Head() <= i < Body(z) && i < z.size && ReadsElement(z, gid, local, i) && isNan(data[i])
    ensures FoundIn(z, data, checkPack, packs)
  {
    PackOf(z, i);
    var b := PackIndex(z, i);
    PackElements(z, data, b, isNan, checkPack);
    hide Launch.Head, Launch.Packs, Launch.PerPack, Launch.Range, Launch.Tail, Launch.PerBlock, Launch.Blocks, Launch.Valid;
    assert InPack(z, i, b) && b in packs;
    var k :| 0 <= k < |packs| && packs[k] == b;
  }

  lemma ItemFindsWhatItReads<T(!new)>(z: Launch, data: seq<T>, gid: nat, local: nat, packs: seq<nat>,
                                      isNan: T -> bool, checkPack: seq<T> -> bool)
    requires z.Valid() && |data| == z.size && gid < z.Range() && PackTest(z.PerPack(), isNan, checkPack)
    requires forall b: nat :: b in packs <==> b < z.Packs() && b % z.Range() == gid
    ensures ItemFinds(z, data, gid, local, isNan) <==>
            || (gid < z.Head() && isNan(data[gid]))
            || FoundIn(z, data, checkPack, packs)
            || (local < z.Tail() && isNan(data[z.size - z.Tail() + local]))
  {
    Layout(z);
    hide Launch.Head, Launch.Packs, Launch.PerPack, Launch.Range, Launch.Tail, Launch.PerBlock, Launch.Blocks, Launch.Valid;
    hide FoundIn, PackTest;
    assert gid < z.Head() ==> ReadsElement(z, gid, local, gid);
    assert local < z.Tail() ==> ReadsElement(z, gid, local, z.size - z.Tail() + local);
    if FoundIn(z, data, checkPack, packs) {
      FoundPackHasNan(z, data, gid, local, packs, isNan, checkPack);
    }
    if i :| 0 <= i < z.size && ReadsElement(z, gid, local, i) && isNan(data[i]) {
      if z.Head() <= i < Body(z) {
        NanPackIsFound(z, data, gid, local, packs, isNan, checkPack, i);
      }
    }
  }

  lemma PackOf(z: Launch, i: nat)
    requires z.Valid() && z.Head() <= i < Body(z)
    ensures PackIndex(z, i) < z.Packs()
  {
    QuotientBelow(i - z.Head(), z.Packs(), z.PerPack());
  }

  // Some item reports a NaN exactly when the tensor holds one.
  lemma LaunchDetects<T>(z: Launch, data: seq<T>, isNan: T -> bool)
    requires z.Valid() && |data| == z.size && Covering(z)
    ensures HasNan(data, isNan) <==>
            exists block: nat, local: nat :: IsItem(z, block, local) && ItemFinds(z, data, GlobalId(z, block, local), local, isNan)
  {
    if i :| 0 <= i < |data| && isNan(data[i]) {
      CoveringReads(z, i);
      var block: nat, local: nat :| IsItem(z, block, local) && ReadsElement(z, GlobalId(z, block, local), local, i);
      assert ItemFinds(z, data, GlobalId(z, block, local), local, isNan);
    }
  }

  // An uncovered element hides its NaN from every item.
  lemma UncoveredIsMissed<T>(z: Launch, data: seq<T>, isNan: T -> bool, i: nat)
    requires z.Valid() && |data| == z.size && i < z.size && !ElementRead(z, i)
    requires forall j :: 0 <= j < z.size && j != i ==> !isNan(data[j])
    ensures forall block: nat, local: nat :: IsItem(z, block, local) ==>
              !ItemFinds(z, data, GlobalId(z, block, local), local, isNan)
  {
  }

  // Three bytes before the last pack boundary, work-groups of two: the third byte of
  // the tail belongs to no work-item, and a NaN there is not reported.
  lemma SmallGroupsMiss<T>(data: seq<T>, isNan: T -> bool)
    requires |data| == 3 && !isNan(data[0]) && !isNan(data[1])
    ensures var z := Launch(3, 1, 0, 2);
            && z.Valid() && !Covering(z)
            && forall block: nat, local: nat :: IsItem(z, block, local) ==> !ItemFinds(z, data, GlobalId(z, block, local), local, isNan)
  {
    var z := Launch(3, 1, 0, 2);
    assert z.Valid() && z.Head() == 0 && z.Packs() == 0 && z.Tail() == 3 && z.PerBlock() == 2;
    forall block: nat, local: nat | IsItem(z, block, local) ensures !ReadsElement(z, GlobalId(z, block, local), local, 2) {
    }
    assert !ElementRead(z, 2);
    UncoveredIsMissed(z, data, isNan, 2);
  }

  // ---- The geometry in plain terms ----

  predicate Aligned(z: Launch, i: nat)
  {
    (z.addr + i * z.width) % PACK_BYTES == 0
  }

  // The packs start at the first element with an address that is a multiple of 16 bytes,
  // if there is one.
  lemma FirstAligned(z: Launch)
    requires z.Valid()
    ensures forall i :: 0 <= i < z.Head() ==> !Aligned(z, i)
    ensures z.Head() < z.size ==> Aligned(z, z.Head())
  {
    var aligned := (z.addr + PACK_BYTES - 1) / PACK_BYTES * PACK_BYTES;
    var elts := (aligned - z.addr) / z.width;
    assert elts * z.width == aligned - z.addr by {
      WholeElements(aligned - z.addr, aligned, z.addr, z.width);
    }
    forall i | 0 <= i < elts ensures !Aligned(z, i) {
      MulMonotone(i + 1, elts, z.width);
      Distribute(i, 1, z.width);
      MulMonotone(0, i, z.width);
      NotAligned(z.addr, i * z.width);
    }
  }

  lemma WholeElements(d: nat, aligned: nat, addr: nat, width: nat)
    requires width in {1, 2, 4, 8} && aligned % 16 == 0 && addr % width == 0 && d == aligned - addr
    ensures d / width * width == d
  {
    var q, a := aligned / 16, addr / width;
    DivMod(aligned, 16);
    DivMod(addr, width);
    if width == 1 {
      DivModUnique(d, 1, 16 * q - a, 0);
    } else if width == 2 {
      DivModUnique(d, 2, 8 * q - a, 0);
    } else if width == 4 {
      DivModUnique(d, 4, 4 * q - a, 0);
    } else {
      DivModUnique(d, 8, 2 * q - a, 0);
    }
  }

  // There is no boundary before the next one.
  lemma NotAligned(addr: nat, offset: nat)
    requires addr + offset < (addr + PACK_BYTES - 1) / PACK_BYTES * PACK_BYTES
    ensures (addr + offset) % PACK_BYTES != 0
  {
  }

  // Work-groups are as large as the device allows, but not larger than the tensor; there
  // are as many as the tensor needs, but at most 24.
  lemma LaunchGeometry(z: Launch)
    requires z.Valid()
    ensures z.PerBlock() <= z.limit && z.PerBlock() <= z.size && (z.PerBlock() == z.limit || z.PerBlock() == z.size)
    ensures z.Blocks() <= MAX_BLOCKS && (z.Blocks() < MAX_BLOCKS ==> z.size <= z.Range()) && (z.Blocks() - 1) * z.PerBlock() < z.size
  {
    var m := z.PerBlock();
    var needed := (z.size + m - 1) / m;
    DivMod(z.size + m - 1, m);
    Distribute(needed, 1, m);
    MulMonotone(z.Blocks(), needed, m);
    Distribute(z.Blocks(), 1, m);
  }
}
