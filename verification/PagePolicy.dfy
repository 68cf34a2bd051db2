/** The SMM page policy of SmmProfile.c: which addresses are present and executable in SMM, where the identity
    map needs 4KB pages to say so, and the patching of the map. */
module PagePolicy {
  import opened Common

  const UINT32_LIMIT: nat := 0x1_0000_0000

  /** MEMORY_RANGE. */
  datatype Range = Range(base: nat, top: nat)

  /** MEMORY_PROTECTION_RANGE. */
  datatype Protection = Protection(range: Range, present: bool, nx: bool)

  /** The answer of IsAddressValid. */
  datatype Access = Access(present: bool, nx: bool)

  /** What decides about an address: PcdCpuSmmProfileEnable, the protected and the split ranges, and the SMRR. */
  datatype Policy = Policy(profile: bool, protect: seq<Protection>, split: seq<Range>, smrrBase: nat, smrrSize: nat) {
    ghost predicate Valid() { smrrBase < UINT32_LIMIT && smrrSize < UINT32_LIMIT }
  }

  predicate Within(r: Range, a: nat) { r.base <= a < r.top }

  /** The first range that holds the address decides. */
  function FirstMatch(protect: seq<Protection>, a: nat): Access {
    if |protect| == 0 then Access(false, true)
    else if Within(protect[0].range, a) then Access(protect[0].present, protect[0].nx)
    else FirstMatch(protect[1..], a)
  }

  /** The end of the SMRR as the UINT32 sum that the source computes. */
  function SmrrTop(p: Policy): nat { (p.smrrBase + p.smrrSize) % UINT32_LIMIT }

  /** The policy: what IsAddressValid says of an address. */
  function AccessAt(p: Policy, a: nat): Access {
    if p.profile then FirstMatch(p.protect, a)
    else Access(true, a < p.smrrBase || a >= SmrrTop(p))
  }

  /** The i-th protected range is the first one that holds address a. */
  ghost predicate Decides(protect: seq<Protection>, i: nat, a: nat) {
    && i < |protect| && protect[i].range.base <= a < protect[i].range.top
    && forall j {:trigger protect[j]} :: 0 <= j < i ==> !(protect[j].range.base <= a < protect[j].range.top)
  }

  ghost predicate NoneHolds(protect: seq<Protection>, a: nat) {
    forall j {:trigger protect[j]} :: 0 <= j < |protect| ==> !(protect[j].range.base <= a < protect[j].range.top)
  }

  /** In profile mode the first range that holds an address decides, and an address in none is absent and
      execute-disabled; otherwise all addresses are present, and those outside the SMRR execute-disabled. */
  ghost predicate Answers(p: Policy, a: nat, present: bool, nx: bool) {
    if p.profile then
      && (NoneHolds(p.protect, a) ==> !present && nx)
      && (forall i: nat {:trigger Decides(p.protect, i, a)} :: Decides(p.protect, i, a) ==>
           present == p.protect[i].present && nx == p.protect[i].nx)
    else present && (nx <==> a < p.smrrBase || a >= (p.smrrBase + p.smrrSize) % 0x1_0000_0000)
  }

  lemma {:induction false} FirstMatchIs(protect: seq<Protection>, a: nat)
    ensures NoneHolds(protect, a) ==> FirstMatch(protect, a) == Access(false, true)
    ensures forall i: nat {:trigger Decides(protect, i, a)} :: Decides(protect, i, a) ==>
      FirstMatch(protect, a) == Access(protect[i].present, protect[i].nx)
  {
    if |protect| > 0 {
      FirstMatchIs(protect[1..], a);
      forall i: nat | Decides(protect, i, a)
        ensures FirstMatch(protect, a) == Access(protect[i].present, protect[i].nx)
      {
        if i > 0 {
          assert !Within(protect[0].range, a);
          assert Decides(protect[1..], i - 1, a);
        }
      }
      if NoneHolds(protect, a) { assert !Within(protect[0].range, a); }
    }
  }

  lemma AccessIs(p: Policy, a: nat)
    ensures Answers(p, a, AccessAt(p, a).present, AccessAt(p, a).nx)
  {
    FirstMatchIs(p.protect, a);
  }

  predicate InAny(split: seq<Range>, a: nat) {
    exists i :: 0 <= i < |split| && Within(split[i], a)
  }

  /** SmrrBase + SmrrSize - BASE_2MB, in UINT32. */
  function SmrrLastBlock(p: Policy): nat {
    (p.smrrBase + p.smrrSize + UINT32_LIMIT - SIZE_2MB) % UINT32_LIMIT
  }

  /** What IsAddressSplit says. */
  predicate SplitAt(p: Policy, a: nat) {
    if p.profile then InAny(p.split, a)
    else if a < p.smrrBase then p.smrrBase - a < SIZE_2MB
    else a > SmrrLastBlock(p) && a - SmrrLastBlock(p) < SIZE_2MB
  }

  // ---------------------------------------------------------------- blocks that need no split

  /** The policy is the same for the whole 2MB block at address b. */
  ghost predicate Constant(p: Policy, b: nat) {
    forall a :: b <= a < b + SIZE_2MB ==> AccessAt(p, a) == AccessAt(p, b)
  }

  /** No block that is left whole needs splitting. */
  ghost predicate Fits(p: Policy) {
    forall b: nat {:trigger Constant(p, b)} :: b % SIZE_2MB == 0 && !SplitAt(p, b) ==> Constant(p, b)
  }

  /** Outside profile mode a block left whole lies on one side of each SMRR boundary; there is exactly one
      exception, an SMRR of less than 2MB at address 0. */
  lemma SmrrWholeBlocks(p: Policy)
    requires p.Valid() && !p.profile
    ensures Fits(p) <==> !(p.smrrBase == 0 && 0 < p.smrrSize < SIZE_2MB)
  {
    if p.smrrBase == 0 && 0 < p.smrrSize < SIZE_2MB {
      assert !SplitAt(p, 0) && AccessAt(p, 0) != AccessAt(p, p.smrrSize);
      assert !Constant(p, 0);
    } else {
      forall b: nat | b % SIZE_2MB == 0 && !SplitAt(p, b) ensures Constant(p, b) {
        SmrrWholeBlock(p, b);
      }
    }
  }

  lemma SmrrWholeBlock(p: Policy, b: nat)
    requires p.Valid() && !p.profile && !(p.smrrBase == 0 && 0 < p.smrrSize < SIZE_2MB)
    requires b % SIZE_2MB == 0 && !SplitAt(p, b)
    ensures Constant(p, b)
  {
  }

  // ---------------------------------------------------------------- the split ranges

  function Down2MB(a: nat): nat { a / SIZE_2MB * SIZE_2MB }

  function Up2MB(a: nat): nat { (a + SIZE_2MB - 1) / SIZE_2MB * SIZE_2MB }

  /** The 4KB-mapped ranges that one protected range makes necessary. */
  function SplitOf(r: Range): seq<Range> {
    if r.base % SIZE_2MB == 0 && r.top % SIZE_2MB == 0 then []
    else if Down2MB(r.top) > Up2MB(r.base) && Down2MB(r.top) - Up2MB(r.base) >= SIZE_2MB then
      (if Up2MB(r.top) - Down2MB(r.top) != 0 then [Range(Down2MB(r.top), Up2MB(r.top))] else [])
      + (if Up2MB(r.base) - Down2MB(r.base) != 0 then [Range(Down2MB(r.base), Up2MB(r.base))] else [])
    else [Range(Down2MB(r.base), Up2MB(r.top))]
  }

  function SplitRanges(protect: seq<Protection>): seq<Range> {
    if |protect| == 0 then [] else SplitRanges(protect[..|protect| - 1]) + SplitOf(protect[|protect| - 1].range)
  }

  /** A block without split ranges of r is inside r or apart from it. */
  lemma SplitOfCovers(r: Range, b: nat, a: nat)
    requires b % SIZE_2MB == 0 && !InAny(SplitOf(r), b) && b <= a < b + SIZE_2MB
    ensures Within(r, a) <==> Within(r, b)
  {
    var s := SplitOf(r);
    assert |s| > 0 ==> !Within(s[0], b);
    assert |s| > 1 ==> !Within(s[1], b);
  }

  /** The range begins or ends inside the 2MB block at address b; of an empty range both have to lie inside. */
  ghost predicate CutBy(r: Range, b: nat) {
    if r.base <= r.top then b < r.base < b + 0x20_0000 || b < r.top < b + 0x20_0000
    else b < r.top && r.base < b + 0x20_0000
  }

  /** The blocks in the split ranges of r are exactly those that r cuts. */
  lemma SplitOfIff(r: Range, b: nat)
    requires b % SIZE_2MB == 0
    ensures InAny(SplitOf(r), b) <==> CutBy(r, b)
  {
    InOneOrTwo(SplitOf(r), b);
    var n, low, high := b / SIZE_2MB, r.base / SIZE_2MB, r.top / SIZE_2MB;
    assert b == n * SIZE_2MB && Down2MB(r.base) == low * SIZE_2MB && Down2MB(r.top) == high * SIZE_2MB;
    Rounded(r.base);
    Rounded(r.top);
    BlockOrder(n, r.base);
    BlockOrder(n, r.top);
  }

  lemma Rounded(a: nat)
    ensures Up2MB(a) == if a % SIZE_2MB == 0 then Down2MB(a) else Down2MB(a) + SIZE_2MB
    ensures Down2MB(a) + a % SIZE_2MB == a
  {
  }

  /** Where an address lies to block n. */
  lemma BlockOrder(n: nat, a: nat)
    ensures n * SIZE_2MB < a < n * SIZE_2MB + SIZE_2MB <==> a % SIZE_2MB != 0 && a / SIZE_2MB == n
    ensures a / SIZE_2MB < n ==> a < n * SIZE_2MB
    ensures a / SIZE_2MB > n ==> a >= n * SIZE_2MB + SIZE_2MB
  {
  }

  lemma InOneOrTwo(s: seq<Range>, b: nat)
    requires |s| <= 2
    ensures InAny(s, b) <==> (|s| > 0 && Within(s[0], b)) || (|s| > 1 && Within(s[1], b))
  {
    if |s| > 0 && Within(s[0], b) { assert InAny(s, b); }
    if |s| > 1 && Within(s[1], b) { assert InAny(s, b); }
  }

  lemma InAnyMore(a: seq<Range>, c: seq<Range>, b: nat)
    ensures InAny(a + c, b) <==> InAny(a, b) || InAny(c, b)
  {
    if i :| 0 <= i < |a| && Within(a[i], b) { assert Within((a + c)[i], b); }
    if i :| 0 <= i < |c| && Within(c[i], b) { assert Within((a + c)[|a| + i], b); }
  }

  /** A block is in a split range if and only if some protected range begins or ends inside it. */
  lemma {:induction false} SplitRangesIff(protect: seq<Protection>, b: nat)
    requires b % SIZE_2MB == 0
    ensures InAny(SplitRanges(protect), b) <==> exists i :: 0 <= i < |protect| && CutBy(protect[i].range, b)
  {
    if |protect| > 0 {
      var front := protect[..|protect| - 1];
      SplitRangesIff(front, b);
      SplitOfIff(protect[|protect| - 1].range, b);
      InAnyMore(SplitRanges(front), SplitOf(protect[|protect| - 1].range), b);
      if i :| 0 <= i < |protect| && CutBy(protect[i].range, b) {
        if i < |front| { assert CutBy(front[i].range, b); }
      }
      if i :| 0 <= i < |front| && CutBy(front[i].range, b) { assert CutBy(protect[i].range, b); }
    }
  }

  lemma {:induction false} SplitRangesCover(protect: seq<Protection>, b: nat, i: nat)
    requires !InAny(SplitRanges(protect), b) && i < |protect|
    ensures !InAny(SplitOf(protect[i].range), b)
  {
    var front, last := SplitRanges(protect[..|protect| - 1]), SplitOf(protect[|protect| - 1].range);
    var all := SplitRanges(protect);
    if i < |protect| - 1 {
      assert !InAny(front, b) by {
        forall k | 0 <= k < |front| ensures !Within(front[k], b) { assert all[k] == front[k]; }
      }
      SplitRangesCover(protect[..|protect| - 1], b, i);
    } else {
      forall k | 0 <= k < |last| ensures !Within(last[k], b) { assert all[|front| + k] == last[k]; }
    }
  }

  lemma {:induction false} FirstMatchSame(protect: seq<Protection>, a: nat, b: nat)
    requires forall i :: 0 <= i < |protect| ==> (Within(protect[i].range, a) <==> Within(protect[i].range, b))
    ensures FirstMatch(protect, a) == FirstMatch(protect, b)
  {
    if |protect| > 0 { FirstMatchSame(protect[1..], a, b); }
  }

  /** In profile mode the policy is constant on every block that the protected ranges' split ranges leave whole. */
  lemma ProfileWholeBlock(p: Policy, b: nat)
    requires p.profile && p.split == SplitRanges(p.protect) && b % SIZE_2MB == 0 && !SplitAt(p, b)
    ensures Constant(p, b)
  {
    forall a | b <= a < b + SIZE_2MB ensures AccessAt(p, a) == AccessAt(p, b) {
      forall i | 0 <= i < |p.protect| ensures Within(p.protect[i].range, a) <==> Within(p.protect[i].range, b) {
        SplitRangesCover(p.protect, b, i);
        SplitOfCovers(p.protect[i].range, b, a);
      }
      FirstMatchSame(p.protect, a, b);
    }
  }

  lemma ProfileFits(p: Policy)
    requires p.profile && p.split == SplitRanges(p.protect)
    ensures Fits(p)
  {
    forall b: nat | b % SIZE_2MB == 0 && !SplitAt(p, b) ensures Constant(p, b) {
      ProfileWholeBlock(p, b);
    }
  }

  // ---------------------------------------------------------------- room for the split ranges

  predicate Aligned(r: Range) { r.base % SIZE_2MB == 0 && r.top % SIZE_2MB == 0 }

  /** A range that starts and ends inside a 2MB block and holds at least one whole one. */
  predicate TwoSided(r: Range) {
    r.base % SIZE_2MB != 0 && r.top % SIZE_2MB != 0 && Up2MB(r.base) < Down2MB(r.top)
  }

  function CountIf(f: Range -> bool, protect: seq<Protection>): nat {
    if |protect| == 0 then 0
    else CountIf(f, protect[..|protect| - 1]) + if f(protect[|protect| - 1].range) then 1 else 0
  }

  lemma SplitOfCount(r: Range)
    ensures |SplitOf(r)| == if Aligned(r) then 0 else if TwoSided(r) then 2 else 1
  {
  }

  /** Each range takes one slot, but a two-sided one takes two and an aligned one none. */
  lemma {:induction false} SplitCount(protect: seq<Protection>)
    ensures |SplitRanges(protect)| == |protect| + CountIf(TwoSided, protect) - CountIf(Aligned, protect)
  {
    if |protect| > 0 {
      SplitCount(protect[..|protect| - 1]);
      SplitOfCount(protect[|protect| - 1].range);
    }
  }

  lemma {:induction false} NoneSplit(protect: seq<Protection>)
    ensures |SplitRanges(protect)| == 0 <==> forall i :: 0 <= i < |protect| ==> Aligned(protect[i].range)
  {
    if |protect| > 0 {
      var front := protect[..|protect| - 1];
      NoneSplit(front);
      SplitOfCount(protect[|protect| - 1].range);
      if forall i :: 0 <= i < |front| ==> Aligned(front[i].range) {
        assert forall i :: 0 <= i < |front| ==> Aligned(protect[i].range);
      } else {
        var i :| 0 <= i < |front| && !Aligned(front[i].range);
        assert !Aligned(protect[i].range);
      }
    }
  }

  /** The slots allocated for the split ranges: one per protected range, but none where there is no MMIO. */
  function Room(template: seq<Protection>, mmio: seq<(nat, nat)>): nat {
    if |mmio| == 0 then 0 else |template| + |mmio|
  }

  /** The ranges fit: with MMIO when aligned ranges make up for two-sided ones, without when all are aligned. */
  ghost predicate Roomy(template: seq<Protection>, mmio: seq<(nat, nat)>) {
    if |mmio| == 0 then forall i :: 0 <= i < |template| ==> Aligned(template[i].range)
    else CountIf(TwoSided, Protected(template, mmio)) <= CountIf(Aligned, Protected(template, mmio))
  }

  /** The slots are written one after the other, so that all writes are in bounds if and only if this holds. */
  lemma RoomIff(template: seq<Protection>, mmio: seq<(nat, nat)>)
    ensures |SplitRanges(Protected(template, mmio))| <= Room(template, mmio) <==> Roomy(template, mmio)
  {
    SplitCount(Protected(template, mmio));
    NoneSplit(template);
  }

  /** The template's ranges as InitSmmProfileInternal fills them in: the SMRAM, and the profile data. */
  function Template(smrrBase: nat, smrrSize: nat, dataBase: nat, dataSize: nat): seq<Protection> {
    [Protection(Range(smrrBase, (smrrBase + smrrSize) % UINT32_LIMIT), true, false),
     Protection(Range(dataBase, dataBase + dataSize), true, true)]
  }

  /** With SMRAM of 8MB, profile data that is not aligned to 2MB and one MMIO range that is two-sided, four slots are
      needed and three allocated; without MMIO two are needed for the profile data, and none allocated. */
  lemma RoomCanRunOut()
    ensures var t := Template(0x8000_0000, 0x80_0000, 0x7F00_1000, 0x60_0000);
      && !Roomy(t, [(0xE000_1000, 0x60_0000)]) && |SplitRanges(Protected(t, [(0xE000_1000, 0x60_0000)]))| == 4
      && !Roomy(t, []) && |SplitRanges(Protected(t, []))| == 2
  {
    var t := Template(0x8000_0000, 0x80_0000, 0x7F00_1000, 0x60_0000);
    var all := Protected(t, [(0xE000_1000, 0x60_0000)]);
    assert all == t + [Protection(Range(0xE000_1000, 0xE060_1000), true, true)];
    assert all[..2] == t && t[..1] == [t[0]] && [t[0]][..0] == [];
    assert Aligned(t[0].range) && TwoSided(t[1].range) && TwoSided(all[2].range);
    SplitCount(all);
    SplitCount(t);
    assert CountIf(TwoSided, [t[0]]) == 0 && CountIf(Aligned, [t[0]]) == 1;
    assert CountIf(TwoSided, t) == 1 && CountIf(Aligned, t) == 1;
    assert CountIf(TwoSided, all) == 2 && CountIf(Aligned, all) == 1;
  }

  // ---------------------------------------------------------------- the page table

  /** A leaf entry: P, RW, NX and the address it maps. */
  datatype Entry = Entry(p: bool, rw: bool, nx: bool, addr: nat)

  /** A page directory entry: a 2MB page, or a table of 4KB pages. */
  datatype Block = Large(e: Entry) | Small(p: bool, pt: seq<Entry>)

  /** Blocks addressed by one PML4 entry. */
  const PER_PML4E: nat := 262144

  /** The Address that InitPaging computes for block n: it leaves the PML4 index out. */
  function BlockAddress(n: nat): nat { n % PER_PML4E * SIZE_2MB }

  /** Split the block at address a if the policy asks for it. */
  function SplitBlock(p: Policy, a: nat, block: Block): Block {
    if block.Large? && block.e.p && SplitAt(p, a)
    then Small(true, seq(512, k requires 0 <= k < 512 => Entry(true, true, false, a + SIZE_4KB * k)))
    else block
  }

  function PatchEntry(access: Access, xd: bool, e: Entry): Entry {
    var absent := if access.present then e else e.(p := false, rw := false);
    if access.nx && xd then absent.(nx := true) else absent
  }

  /** Patch the block at address a. */
  function PatchBlock(p: Policy, xd: bool, a: nat, block: Block): Block {
    match block
    case Large(e) => if e.p then Large(PatchEntry(AccessAt(p, a), xd, e)) else block
    case Small(present, pt) =>
      if present then
        Small(present, seq(|pt|, k requires 0 <= k < |pt| => PatchEntry(AccessAt(p, a + SIZE_4KB * k), xd, pt[k])))
      else block
  }

  /** How the k-th 4KB page of a block is mapped. */
  function PageOf(block: Block, k: nat): (r: Entry)
    requires block.Small? ==> |block.pt| == 512
    requires k < 512
  {
    match block
    case Large(e) => e.(addr := e.addr + SIZE_4KB * k)
    case Small(present, pt) => if present then pt[k] else pt[k].(p := false)
  }

  /** What both passes make of the k-th page of a block is what the policy says for address x. */
  ghost predicate Follows(p: Policy, xd: bool, x: nat, was: Entry, now: Entry) {
    if was.p then
      && (now.p <==> AccessAt(p, x).present) && (now.nx <==> AccessAt(p, x).nx && xd)
      && now.addr == was.addr && (now.rw ==> now.p) && (now.p && was.rw ==> now.rw)
    else !now.p
  }

  /** After both passes every mapped 4KB page is present and executable exactly as the policy says for the address
      that InitPaging computes for it, maps what it mapped before, and is writable if it was and is present; a
      page that was not mapped stays so. */
  lemma PagingFollowsPolicy(p: Policy, xd: bool, n: nat, block: Block, k: nat)
    requires Fits(p) && k < 512 && (block.Small? ==> |block.pt| == 512) && !PageOf(block, k).nx
    requires Identity(p, n, block)
    ensures var now := PatchBlock(p, xd, BlockAddress(n), SplitBlock(p, BlockAddress(n), block));
      (now.Small? ==> |now.pt| == 512)
        && Follows(p, xd, BlockAddress(n) + k * SIZE_4KB, PageOf(block, k), PageOf(now, k))
  {
    var a := BlockAddress(n);
    assert a % SIZE_2MB == 0 && a + SIZE_4KB * k < a + SIZE_2MB;
    if !SplitAt(p, a) {
      assert Constant(p, a);
    }
  }

  /** Below 512GB that address is the page's own. */
  lemma PagingExact(p: Policy, xd: bool, n: nat, block: Block, k: nat)
    requires Fits(p) && n < PER_PML4E && k < 512 && (block.Small? ==> |block.pt| == 512) && !PageOf(block, k).nx
    requires Identity(p, n, block)
    ensures var now := PatchBlock(p, xd, BlockAddress(n), SplitBlock(p, BlockAddress(n), block));
      (now.Small? ==> |now.pt| == 512) && Follows(p, xd, n * SIZE_2MB + k * SIZE_4KB, PageOf(block, k), PageOf(now, k))
  {
    PagingFollowsPolicy(p, xd, n, block, k);
  }

  /** At any address the page follows the policy for its own address exactly when the policy says the same, as far as
      it is applied, for the address computed. */
  lemma PagingOwnAddress(p: Policy, xd: bool, n: nat, block: Block, k: nat)
    requires Fits(p) && k < 512 && (block.Small? ==> |block.pt| == 512) && !PageOf(block, k).nx
    requires Identity(p, n, block)
    ensures var now := PatchBlock(p, xd, BlockAddress(n), SplitBlock(p, BlockAddress(n), block));
      var own, computed := AccessAt(p, n * SIZE_2MB + k * SIZE_4KB), AccessAt(p, BlockAddress(n) + k * SIZE_4KB);
      (now.Small? ==> |now.pt| == 512) &&
      (Follows(p, xd, n * SIZE_2MB + k * SIZE_4KB, PageOf(block, k), PageOf(now, k)) <==>
         (PageOf(block, k).p ==> own.present == computed.present && (xd ==> own.nx == computed.nx)))
  {
    PagingFollowsPolicy(p, xd, n, block, k);
  }

  /** Above 512GB, outside profile mode: no address there is in the SMRR, so that a mapped page is wrong exactly when
      execute-disable is supported and the address computed for it lies in the SMRR. */
  lemma Above512GB(p: Policy, xd: bool, n: nat, block: Block, k: nat)
    requires p.Valid() && Fits(p) && !p.profile && n >= PER_PML4E && Identity(p, n, block)
    requires k < 512 && (block.Small? ==> |block.pt| == 512) && !PageOf(block, k).nx
    ensures var now := PatchBlock(p, xd, BlockAddress(n), SplitBlock(p, BlockAddress(n), block));
      var computed := BlockAddress(n) + k * SIZE_4KB;
      (now.Small? ==> |now.pt| == 512) &&
      (Follows(p, xd, n * SIZE_2MB + k * SIZE_4KB, PageOf(block, k), PageOf(now, k)) <==>
         !(PageOf(block, k).p && xd && p.smrrBase <= computed < SmrrTop(p)))
  {
    PagingOwnAddress(p, xd, n, block, k);
  }

  /** There, in profile mode: a mapped page is wrong exactly when the first range that matches says otherwise for the
      address computed, of its presence or, where execute-disable is supported, of that. */
  lemma Above512GBProfile(p: Policy, xd: bool, n: nat, block: Block, k: nat)
    requires Fits(p) && p.profile && n >= PER_PML4E && Identity(p, n, block)
    requires k < 512 && (block.Small? ==> |block.pt| == 512) && !PageOf(block, k).nx
    ensures var now := PatchBlock(p, xd, BlockAddress(n), SplitBlock(p, BlockAddress(n), block));
      var address := n * SIZE_2MB + k * SIZE_4KB;
      var own, computed := FirstMatch(p.protect, address), FirstMatch(p.protect, BlockAddress(n) + k * SIZE_4KB);
      (now.Small? ==> |now.pt| == 512) &&
      (Follows(p, xd, address, PageOf(block, k), PageOf(now, k)) <==>
        !(PageOf(block, k).p && (own.present != computed.present || (xd && own.nx != computed.nx))))
  {
    PagingOwnAddress(p, xd, n, block, k);
  }

  /** And the ASSERT that a block to be split maps the address computed holds for an identity map above 512GB exactly
      where no split is asked for. */
  lemma AssertAbove512GB(p: Policy, n: nat, e: Entry)
    requires n >= PER_PML4E && e.p && e.addr == n * SIZE_2MB
    ensures Identity(p, n, Large(e)) <==> !SplitAt(p, BlockAddress(n))
  {
    assert BlockAddress(n) < PER_PML4E * SIZE_2MB <= e.addr;
  }

  /** With SMRAM at 2MB, the page at 512GB + 2MB does not follow the policy for its own address. */
  lemma Above512GBDiffers()
    ensures var p, n := Policy(false, [], [], SIZE_2MB, SIZE_2MB), PER_PML4E + 1;
      var block := Large(Entry(true, true, false, n * SIZE_2MB));
      var now := PatchBlock(p, true, BlockAddress(n), SplitBlock(p, BlockAddress(n), block));
      p.Valid() && Identity(p, n, block) && now.Large?
        && !Follows(p, true, n * SIZE_2MB, PageOf(block, 0), PageOf(now, 0))
  {
    var p, n := Policy(false, [], [], SIZE_2MB, SIZE_2MB), PER_PML4E + 1;
    SmrrWholeBlocks(p);
    Above512GB(p, true, n, Large(Entry(true, true, false, n * SIZE_2MB)), 0);
  }

  // ---------------------------------------------------------------- the driver's state

  class SmmProfile {
    /** PcdCpuSmmProfileEnable, mXdSupported and the SMRR of mCpuHotPlugData. */
    const profile: bool
    const xdSupported: bool
    const smrrBase: nat
    const smrrSize: nat

    /** NumberOfPdpEntries. */
    const numberOfPdpEntries: nat

    /** mProtectionMemRange, and mSplitMemRange with its count. */
    var protect: seq<Protection>
    var splitMem: array<Range>
    var splitCount: nat

    /** The page table, block by block: the PML4 and PDPT entries present, and all page directory entries. */
    var pml4Present: seq<bool>
    var pdptPresent: seq<bool>
    var pde: array<Block>

    /** No range yet beside the template's; the table is the one the SMI handlers run on. */
    constructor (profile: bool, xdSupported: bool, smrrBase: nat, smrrSize: nat, numberOfPdpEntries: nat,
                 template: seq<Protection>, pml4Present: seq<bool>, pdptPresent: seq<bool>, pde: array<Block>)
      requires smrrBase < UINT32_LIMIT && smrrSize < UINT32_LIMIT && numberOfPdpEntries <= 512
      requires |pdptPresent| == |pml4Present| * 512 && pde.Length == |pml4Present| * PER_PML4E
      ensures Valid() && ThePolicy() == Policy(profile, template, [], smrrBase, smrrSize) && this.pde == pde
      ensures this.pml4Present == pml4Present && this.pdptPresent == pdptPresent
        && this.numberOfPdpEntries == numberOfPdpEntries
      ensures this.xdSupported == xdSupported && splitMem.Length == 0 && fresh(splitMem)
    {
      this.profile, this.xdSupported, this.smrrBase, this.smrrSize := profile, xdSupported, smrrBase, smrrSize;
      this.numberOfPdpEntries := numberOfPdpEntries;
      this.protect, this.splitMem, this.splitCount := template, new Range[0], 0;
      this.pml4Present, this.pdptPresent, this.pde := pml4Present, pdptPresent, pde;
    }

    ghost predicate Valid()
      reads this
    {
      && smrrBase < UINT32_LIMIT && smrrSize < UINT32_LIMIT && splitCount <= splitMem.Length
      && numberOfPdpEntries <= 512
      && |pdptPresent| == |pml4Present| * 512 && pde.Length == |pml4Present| * PER_PML4E
    }

    function ThePolicy(): Policy
      reads this, splitMem
      requires splitCount <= splitMem.Length
    {
      Policy(profile, protect, splitMem[..splitCount], smrrBase, smrrSize)
    }

    method IsAddressValid(address: nat) returns (present: bool, nx: bool)
      requires Valid()
      ensures Access(present, nx) == AccessAt(ThePolicy(), address) && Answers(ThePolicy(), address, present, nx)
    {
      AccessIs(ThePolicy(), address);
      if profile {
        var index := 0;
        while index < |protect|
          invariant index <= |protect| && FirstMatch(protect, address) == FirstMatch(protect[index..], address)
        {
          if protect[index].range.base <= address && address < protect[index].range.top {
            return protect[index].present, protect[index].nx;
          }
          index := index + 1;
        }
        return false, true;
      }
      nx := address < smrrBase || address >= (smrrBase + smrrSize) % UINT32_LIMIT;
      present := true;
    }

    method IsAddressSplit(address: nat) returns (split: bool)
      requires Valid()
      ensures split == SplitAt(ThePolicy(), address)
      ensures profile ==>
        (split <==> exists i :: 0 <= i < splitCount && splitMem[i].base <= address < splitMem[i].top)
      ensures !profile ==> (
        var last := (smrrBase + smrrSize + 0x1_0000_0000 - 0x20_0000) % 0x1_0000_0000;
        split <==> if address < smrrBase then smrrBase - address < 0x20_0000 else last < address < last + 0x20_0000)
    {
      if profile {
        var index := 0;
        while index < splitCount
          invariant index <= splitCount && forall i :: 0 <= i < index ==> !Within(splitMem[..splitCount][i], address)
        {
          if splitMem[index].base <= address && address < splitMem[index].top {
            assert Within(splitMem[..splitCount][index], address);
            return true;
          }
          index := index + 1;
        }
        return false;
      }
      if address < smrrBase {
        return smrrBase - address < SIZE_2MB;
      }
      var last := (smrrBase + smrrSize + UINT32_LIMIT - SIZE_2MB) % UINT32_LIMIT;
      return address > last && address - last < SIZE_2MB;
    }

    /** InitProtectedMemRange, given the base and length of each MMIO descriptor; without any, nothing is allocated for
        the split ranges.  They must fit (RoomIff). */
    method InitProtectedMemRange(mmio: seq<(nat, nat)>)
      requires Valid() && splitMem.Length == 0 && Roomy(protect, mmio)
      modifies this`protect, this`splitMem, this`splitCount, splitMem
      ensures Valid() && (splitMem == old(splitMem) || fresh(splitMem))
      ensures protect == Protected(old(protect), mmio) && splitMem[..splitCount] == SplitRanges(protect)
      ensures TemplateThenMmio(old(protect), mmio, protect)
    {
      RoomIff(protect, mmio);
      ProtectedIs(protect, mmio);
      if |mmio| != 0 {
        AddProtected(mmio);
        splitMem := new Range[|protect|];
      }
      splitCount := 0;
      CreateSplitRanges();
    }

    method AddProtected(mmio: seq<(nat, nat)>)
      modifies this`protect
      ensures protect == Protected(old(protect), mmio)
    {
      var index := 0;
      while index < |mmio|
        invariant index <= |mmio| && protect == Protected(old(protect), mmio[..index])
      {
        assert mmio[..index + 1][..index] == mmio[..index];
        protect := protect + [Protection(Range(mmio[index].0, mmio[index].0 + mmio[index].1), true, true)];
        index := index + 1;
      }
      assert mmio[..|mmio|] == mmio;
    }

    /** The loop that builds mSplitMemRange. */
    method CreateSplitRanges()
      requires splitCount == 0 && |SplitRanges(protect)| <= splitMem.Length
      modifies this`splitCount, splitMem
      ensures splitCount <= splitMem.Length && splitMem[..splitCount] == SplitRanges(protect)
    {
      var index := 0;
      while index < |protect|
        invariant index <= |protect| && splitCount <= splitMem.Length
          && splitMem[..splitCount] == SplitRanges(protect[..index])
      {
        assert protect[..index + 1][..index] == protect[..index];
        SplitRangesGrow(protect, index + 1);
        AddSplitOf(protect[index].range);
        index := index + 1;
      }
      assert protect[..|protect|] == protect;
    }

    /** One protected range's share. */
    method AddSplitOf(r: Range)
      requires splitCount + |SplitOf(r)| <= splitMem.Length
      modifies this`splitCount, splitMem
      ensures splitCount == old(splitCount) + |SplitOf(r)|
        && splitMem[..splitCount] == old(splitMem[..splitCount]) + SplitOf(r)
    {
      if r.base % SIZE_2MB != 0 || r.top % SIZE_2MB != 0 {
        var top, base := Down2MB(r.top), Up2MB(r.base);
        if top > base && top - base >= SIZE_2MB {
          var high, low := Up2MB(r.top) - Down2MB(r.top), Up2MB(r.base) - Down2MB(r.base);
          if high != 0 {
            Append(Range(Down2MB(r.top), Up2MB(r.top)));
          }
          if low != 0 {
            Append(Range(Down2MB(r.base), Up2MB(r.base)));
          }
        } else {
          Append(Range(Down2MB(r.base), Up2MB(r.top)));
        }
      }
    }

    method Append(r: Range)
      requires splitCount < splitMem.Length
      modifies this`splitCount, splitMem
      ensures splitCount == old(splitCount) + 1 && splitMem[..splitCount] == old(splitMem[..splitCount]) + [r]
    {
      splitMem[splitCount] := r;
      splitCount := splitCount + 1;
    }

    /** The first pass of InitPaging over the blocks of PDPT entry g. */
    method SplitPdt(g: nat)
      requires Valid() && (g + 1) * 512 <= pde.Length
      requires forall n :: g * 512 <= n < (g + 1) * 512 ==> Identity(ThePolicy(), n, pde[n])
      modifies pde
      ensures forall n :: 0 <= n < pde.Length ==>
        pde[n] == if g * 512 <= n < (g + 1) * 512 then SplitBlock(ThePolicy(), BlockAddress(n), old(pde[n]))
        else old(pde[n])
    {
      var level3 := 0;
      while level3 < 512
        invariant level3 <= 512
        invariant forall n :: 0 <= n < pde.Length ==>
          pde[n] == if g * 512 <= n < g * 512 + level3 then SplitBlock(ThePolicy(), BlockAddress(n), old(pde[n]))
          else old(pde[n])
      {
        var n := g * 512 + level3;
        var address := n % PER_PML4E * SIZE_2MB;
        if pde[n].Large? && pde[n].e.p {
          var split := IsAddressSplit(address);
          if split {
            pde[n] := Small(true,
              seq(512, k requires 0 <= k < 512 => Entry(true, true, false, address + SIZE_4KB * k)));
          }
        }
        level3 := level3 + 1;
      }
    }

    /** The blocks that InitPaging reaches. */
    ghost predicate Visited(n: nat)
      reads this
      requires Valid() && n < pde.Length
    {
      pml4Present[n / PER_PML4E] && n % PER_PML4E / 512 < numberOfPdpEntries && pdptPresent[n / 512]
    }

    /** The first pass: change 2MB pages into 4KB pages. */
    method SplitPass()
      requires Valid() && forall n :: 0 <= n < pde.Length && Visited(n) ==> Identity(ThePolicy(), n, pde[n])
      modifies pde
      ensures forall n :: 0 <= n < pde.Length ==>
        pde[n] == if Visited(n) then SplitBlock(ThePolicy(), BlockAddress(n), old(pde[n])) else old(pde[n])
    {
      var level1 := 0;
      while level1 < |pml4Present|
        invariant level1 <= |pml4Present|
        invariant forall n :: 0 <= n < pde.Length ==>
          pde[n] == if n < level1 * PER_PML4E && Visited(n) then SplitBlock(ThePolicy(), BlockAddress(n), old(pde[n]))
          else old(pde[n])
      {
        if pml4Present[level1] {
          SplitPdpt(level1);
        }
        level1 := level1 + 1;
      }
    }

    /** The first pass over the PDPT entries of PML4 entry level1. */
    method SplitPdpt(level1: nat)
      requires Valid() && level1 < |pml4Present| && pml4Present[level1]
      requires forall n :: level1 * PER_PML4E <= n < (level1 + 1) * PER_PML4E && Visited(n) ==>
        Identity(ThePolicy(), n, pde[n])
      modifies pde
      ensures forall n :: 0 <= n < pde.Length ==>
        pde[n] == if level1 * PER_PML4E <= n < (level1 + 1) * PER_PML4E
          && Visited(n) then SplitBlock(ThePolicy(), BlockAddress(n), old(pde[n])) else old(pde[n])
    {
      var level2 := 0;
      while level2 < numberOfPdpEntries
        invariant level2 <= numberOfPdpEntries
        invariant forall n :: level1 * PER_PML4E <= n < (level1 * 512 + level2) * 512 ==>
          pde[n] == if Visited(n) then SplitBlock(ThePolicy(), BlockAddress(n), old(pde[n])) else old(pde[n])
        invariant forall n :: 0 <= n < pde.Length && !(level1 * PER_PML4E <= n < (level1 * 512 + level2) * 512) ==>
          pde[n] == old(pde[n])
      {
        SplitPdpte(level1, level2);
        level2 := level2 + 1;
      }
      BeyondEntries(level1, numberOfPdpEntries);
    }

    /** The blocks under one PDPT entry. */
    method SplitPdpte(level1: nat, level2: nat)
      requires Valid() && level1 < |pml4Present| && pml4Present[level1] && level2 < numberOfPdpEntries
      requires forall n :: (level1 * 512 + level2) * 512 <= n < (level1 * 512 + level2 + 1) * 512 && Visited(n) ==>
        Identity(ThePolicy(), n, pde[n])
      modifies pde
      ensures forall n :: (level1 * 512 + level2) * 512 <= n < (level1 * 512 + level2 + 1) * 512 ==>
        pde[n] == if Visited(n) then SplitBlock(ThePolicy(), BlockAddress(n), old(pde[n])) else old(pde[n])
      ensures forall n ::
        0 <= n < pde.Length && !((level1 * 512 + level2) * 512 <= n < (level1 * 512 + level2 + 1) * 512) ==>
          pde[n] == old(pde[n])
    {
      BlocksOf(level1, level2);
      if pdptPresent[level1 * 512 + level2] {
        SplitPdt(level1 * 512 + level2);
      }
    }

    /** The second pass of InitPaging over the blocks of PDPT entry g. */
    method PatchPdt(g: nat)
      requires Valid() && (g + 1) * 512 <= pde.Length
      modifies pde
      ensures forall n :: 0 <= n < pde.Length ==>
        pde[n] == if g * 512 <= n < (g + 1) * 512 then
          PatchBlock(ThePolicy(), xdSupported, BlockAddress(n), old(pde[n])) else old(pde[n])
    {
      var level3 := 0;
      while level3 < 512
        invariant level3 <= 512
        invariant forall n :: 0 <= n < pde.Length ==>
          pde[n] == if g * 512 <= n < g * 512 + level3 then
            PatchBlock(ThePolicy(), xdSupported, BlockAddress(n), old(pde[n])) else old(pde[n])
      {
        var n := g * 512 + level3;
        var address := n % PER_PML4E * SIZE_2MB;
        match pde[n] {
          case Large(e) =>
            if e.p {
              var patched := PatchOne(address, e);
              pde[n] := Large(patched);
            }
          case Small(present, pt) =>
            if present {
              var patched := PatchPt(address, pt);
              pde[n] := Small(present, patched);
            }
        }
        level3 := level3 + 1;
      }
    }

    method PatchOne(address: nat, e: Entry) returns (r: Entry)
      requires Valid()
      ensures r == PatchEntry(AccessAt(ThePolicy(), address), xdSupported, e)
    {
      var present, nx := IsAddressValid(address);
      r := e;
      if !present {
        r := r.(p := false, rw := false);
      }
      if nx && xdSupported {
        r := r.(nx := true);
      }
    }

    /** The loop over a page table. */
    method PatchPt(base: nat, pt: seq<Entry>) returns (r: seq<Entry>)
      requires Valid()
      ensures |r| == |pt| && forall k :: 0 <= k < |pt| ==>
        r[k] == PatchEntry(AccessAt(ThePolicy(), base + SIZE_4KB * k), xdSupported, pt[k])
    {
      var address, level4 := base, 0;
      r := pt;
      while level4 < |pt|
        invariant level4 <= |pt| == |r| && address == base + SIZE_4KB * level4
        invariant forall k :: 0 <= k < level4 ==>
          r[k] == PatchEntry(AccessAt(ThePolicy(), base + SIZE_4KB * k), xdSupported, pt[k])
        invariant forall k :: level4 <= k < |pt| ==> r[k] == pt[k]
      {
        var patched := PatchOne(address, r[level4]);
        r := r[level4 := patched];
        address := address + SIZE_4KB;
        level4 := level4 + 1;
      }
    }

    /** The second pass: make pages absent or execute-disabled. */
    method PatchPass()
      requires Valid()
      modifies pde
      ensures forall n :: 0 <= n < pde.Length ==>
        pde[n] == if Visited(n) then PatchBlock(ThePolicy(), xdSupported, BlockAddress(n), old(pde[n])) else old(pde[n])
    {
      var level1 := 0;
      while level1 < |pml4Present|
        invariant level1 <= |pml4Present|
        invariant forall n :: 0 <= n < pde.Length ==>
          pde[n] == if n < level1 * PER_PML4E
            && Visited(n) then PatchBlock(ThePolicy(), xdSupported, BlockAddress(n), old(pde[n])) else old(pde[n])
      {
        if pml4Present[level1] {
          PatchPdpt(level1);
        }
        level1 := level1 + 1;
      }
    }

    /** The second pass over the PDPT entries of PML4 entry level1. */
    method PatchPdpt(level1: nat)
      requires Valid() && level1 < |pml4Present| && pml4Present[level1]
      modifies pde
      ensures forall n :: 0 <= n < pde.Length ==>
        pde[n] == if level1 * PER_PML4E <= n < (level1 + 1) * PER_PML4E
          && Visited(n) then PatchBlock(ThePolicy(), xdSupported, BlockAddress(n), old(pde[n])) else old(pde[n])
    {
      var level2 := 0;
      while level2 < numberOfPdpEntries
        invariant level2 <= numberOfPdpEntries
        invariant forall n :: level1 * PER_PML4E <= n < (level1 * 512 + level2) * 512 ==>
          pde[n] == if Visited(n) then PatchBlock(ThePolicy(), xdSupported, BlockAddress(n), old(pde[n]))
          else old(pde[n])
        invariant forall n :: 0 <= n < pde.Length && !(level1 * PER_PML4E <= n < (level1 * 512 + level2) * 512) ==>
          pde[n] == old(pde[n])
      {
        PatchPdpte(level1, level2);
        level2 := level2 + 1;
      }
      BeyondEntries(level1, numberOfPdpEntries);
    }

    /** The blocks under one PDPT entry. */
    method PatchPdpte(level1: nat, level2: nat)
      requires Valid() && level1 < |pml4Present| && pml4Present[level1] && level2 < numberOfPdpEntries
      modifies pde
      ensures forall n :: (level1 * 512 + level2) * 512 <= n < (level1 * 512 + level2 + 1) * 512 ==>
        pde[n] == if Visited(n) then PatchBlock(ThePolicy(), xdSupported, BlockAddress(n), old(pde[n])) else old(pde[n])
      ensures forall n ::
        0 <= n < pde.Length && !((level1 * 512 + level2) * 512 <= n < (level1 * 512 + level2 + 1) * 512) ==>
          pde[n] == old(pde[n])
    {
      BlocksOf(level1, level2);
      if pdptPresent[level1 * 512 + level2] {
        PatchPdt(level1 * 512 + level2);
      }
    }

    /** InitPaging: each block reached is split where the policy asks for it, then patched; every page mapped there
        follows the policy for the address computed, which below 512GB is its own. */
    method InitPaging()
      requires Valid() && forall n :: 0 <= n < pde.Length && Visited(n) ==> Identity(ThePolicy(), n, pde[n])
      modifies pde
      ensures forall n :: 0 <= n < pde.Length ==>
        pde[n] == if Visited(n)
          then PatchBlock(ThePolicy(), xdSupported, BlockAddress(n),
            SplitBlock(ThePolicy(), BlockAddress(n), old(pde[n])))
          else old(pde[n])
      ensures Fits(ThePolicy()) ==> forall n, k {:trigger Ruled(ThePolicy(), xdSupported, n, old(pde[n]), pde[n], k)} ::
        0 <= n < pde.Length && Visited(n) && 0 <= k < 512 ==> Ruled(ThePolicy(), xdSupported, n, old(pde[n]), pde[n], k)
    {
      SplitPass();
      PatchPass();
      if Fits(ThePolicy()) {
        forall n, k | 0 <= n < pde.Length && Visited(n) && 0 <= k < 512
          ensures Ruled(ThePolicy(), xdSupported, n, old(pde[n]), pde[n], k)
        {
          BlockIsRuled(ThePolicy(), xdSupported, n, old(pde[n]), k);
        }
      }
    }

    /** From start-up to the end of boot: the ranges are set up in profile mode, and then the page table is patched.
        Each page mapped there follows the policy, unless the SMRR is smaller than 2MB and at address 0. */
    method InitSmmProfileAndPaging(mmio: seq<(nat, nat)>)
      requires Valid() && splitMem.Length == 0 && (profile ==> Roomy(protect, mmio))
      requires forall n :: 0 <= n < pde.Length && Visited(n) ==> Identity(PolicyFor(ThePolicy(), mmio), n, pde[n])
      modifies this`protect, this`splitMem, this`splitCount, splitMem, pde
      ensures Valid() && ThePolicy() == PolicyFor(old(ThePolicy()), mmio)
      ensures if profile then TemplateThenMmio(old(protect), mmio, protect) else protect == old(protect)
      ensures profile || !(smrrBase == 0 && 0 < smrrSize < SIZE_2MB) ==>
        forall n, k {:trigger Ruled(ThePolicy(), xdSupported, n, old(pde[n]), pde[n], k)} ::
          0 <= n < pde.Length && Visited(n) && 0 <= k < 512 ==>
            Ruled(ThePolicy(), xdSupported, n, old(pde[n]), pde[n], k)
      // the same for pages below 512GB, in terms of the ranges
      ensures profile || !(smrrBase == 0 && 0 < smrrSize < SIZE_2MB) ==>
        forall n, k {:trigger Obeys(ThePolicy(), xdSupported, n, old(pde[n]), pde[n], k)} ::
          0 <= n < pde.Length && Visited(n) && 0 <= k < 512 ==>
            Obeys(ThePolicy(), xdSupported, n, old(pde[n]), pde[n], k)
      // outside SMRAM and the profile data only MMIO is left present, execute-disabled
      ensures profile && xdSupported ==>
        forall n, k {:trigger ProfilePage(old(protect), mmio, n, old(pde[n]), pde[n], k)} ::
          0 <= n < pde.Length && Visited(n) && 0 <= k < 512 ==>
            ProfilePage(old(protect), mmio, n, old(pde[n]), pde[n], k)
      // the blocks that get tables of 4KB pages are those in which a range begins or ends
      ensures profile ==> forall n {:trigger SplitIfCut(protect, n, old(pde[n]), pde[n])} ::
        0 <= n < pde.Length && Visited(n) ==> SplitIfCut(protect, n, old(pde[n]), pde[n])
    {
      ghost var template := protect;
      PolicyFits(ThePolicy(), mmio);
      if profile {
        InitProtectedMemRange(mmio);
      }
      InitPaging();
      ghost var p := ThePolicy();
      if Fits(p) {
        forall n, k | 0 <= n < pde.Length && Visited(n) && 0 <= k < 512
          ensures Obeys(p, xdSupported, n, old(pde[n]), pde[n], k)
          ensures profile && xdSupported ==> ProfilePage(template, mmio, n, old(pde[n]), pde[n], k)
        {
          assert Ruled(p, xdSupported, n, old(pde[n]), pde[n], k);
          RuledObeys(p, xdSupported, n, old(pde[n]), pde[n], k);
          if profile && xdSupported { ObeysIsProfile(p, template, mmio, n, old(pde[n]), pde[n], k); }
        }
      }
      if profile {
        forall n | 0 <= n < pde.Length && Visited(n) ensures SplitIfCut(protect, n, old(pde[n]), pde[n]) {
          BlockIsCut(p, xdSupported, n, old(pde[n]));
        }
      }
    }
  }

  /** The k-th page of block n, below 512GB, if it was mapped and executable, is present and execute-disabled as the
      ranges say for its own address, the latter where execute-disable is supported. */
  ghost predicate Obeys(p: Policy, xd: bool, n: nat, was: Block, now: Block, k: nat)
    requires k < 512
  {
    n < 262144 && (was.Small? ==> |was.pt| == 512) && PageOf(was, k).p && !PageOf(was, k).nx ==>
      (now.Small? ==> |now.pt| == 512) && Answered(p, xd, n * 0x20_0000 + k * 0x1000, PageOf(now, k))
  }

  ghost predicate Answered(p: Policy, xd: bool, a: nat, now: Entry) {
    exists nx :: Answers(p, a, now.p, nx) && (now.nx <==> nx && xd)
  }

  lemma RuledObeys(p: Policy, xd: bool, n: nat, was: Block, now: Block, k: nat)
    requires k < 512 && Ruled(p, xd, n, was, now, k)
    ensures Obeys(p, xd, n, was, now, k)
  {
    var a := n * 0x20_0000 + k * 0x1000;
    AccessIs(p, a);
    assert a == n * SIZE_2MB + k * SIZE_4KB;
    if n < PER_PML4E && (was.Small? ==> |was.pt| == 512) && PageOf(was, k).p && !PageOf(was, k).nx {
      assert Follows(p, xd, a, PageOf(was, k), PageOf(now, k));
      assert Answers(p, a, PageOf(now, k).p, AccessAt(p, a).nx);
      assert Answered(p, xd, a, PageOf(now, k));
    }
  }

  /** Such a page in no range of the template: in an MMIO range it is present and execute-disabled, otherwise absent. */
  ghost predicate ProfilePage(template: seq<Protection>, mmio: seq<(nat, nat)>, n: nat, was: Block, now: Block, k: nat)
    requires k < 512
  {
    n < 262144 && (was.Small? ==> |was.pt| == 512) && PageOf(was, k).p && !PageOf(was, k).nx
      && NoneHolds(template, n * 0x20_0000 + k * 0x1000) ==>
      && (now.Small? ==> |now.pt| == 512)
      && if exists j :: 0 <= j < |mmio| && mmio[j].0 <= n * 0x20_0000 + k * 0x1000 < mmio[j].0 + mmio[j].1
         then PageOf(now, k).p && PageOf(now, k).nx else !PageOf(now, k).p
  }

  lemma ObeysIsProfile(p: Policy, template: seq<Protection>, mmio: seq<(nat, nat)>, n: nat, was: Block, now: Block,
                       k: nat)
    requires p.profile && TemplateThenMmio(template, mmio, p.protect) && k < 512 && Obeys(p, true, n, was, now, k)
    ensures ProfilePage(template, mmio, n, was, now, k)
  {
    var a := n * 0x20_0000 + k * 0x1000;
    if n < 262144 && (was.Small? ==> |was.pt| == 512) && PageOf(was, k).p && !PageOf(was, k).nx
      && NoneHolds(template, a) {
      var nx :| Answers(p, a, PageOf(now, k).p, nx) && (PageOf(now, k).nx <==> nx);
      MmioIs(p, template, mmio, a, PageOf(now, k).p, nx);
    }
  }

  /** Block n, if it was a present 2MB page, has become a table exactly if a protected range begins or ends inside the
      block at the address computed for it. */
  ghost predicate SplitIfCut(protect: seq<Protection>, n: nat, was: Block, now: Block) {
    was.Large? && was.e.p ==>
      (now.Small? <==> exists i :: 0 <= i < |protect| && CutBy(protect[i].range, n % 262144 * 0x20_0000))
  }

  lemma BlockIsCut(p: Policy, xd: bool, n: nat, block: Block)
    requires p.profile && p.split == SplitRanges(p.protect)
    ensures SplitIfCut(p.protect, n, block, PatchBlock(p, xd, BlockAddress(n), SplitBlock(p, BlockAddress(n), block)))
  {
    SplitRangesIff(p.protect, BlockAddress(n));
  }

  /** The policy after start-up with these MMIO ranges: in profile mode the protected ranges, and the split ranges that
      they make necessary. */
  ghost function PolicyFor(p: Policy, mmio: seq<(nat, nat)>): Policy {
    if p.profile then p.(protect := Protected(p.protect, mmio), split := SplitRanges(Protected(p.protect, mmio))) else p
  }

  /** It leaves whole only blocks on which it is constant: always in profile mode, and otherwise unless the SMRR is
      smaller than 2MB and at address 0. */
  lemma PolicyFits(p: Policy, mmio: seq<(nat, nat)>)
    requires p.Valid()
    ensures Fits(PolicyFor(p, mmio)) <==> p.profile || !(p.smrrBase == 0 && 0 < p.smrrSize < SIZE_2MB)
  {
    if p.profile { ProfileFits(PolicyFor(p, mmio)); } else { SmrrWholeBlocks(p); }
  }

  /** The k-th page of block n, if it was executable, is now as the policy says for the address computed, and below
      512GB for its own address. */
  ghost predicate Ruled(p: Policy, xd: bool, n: nat, was: Block, now: Block, k: nat)
    requires k < 512
  {
    (was.Small? ==> |was.pt| == 512) && !PageOf(was, k).nx ==>
      && (now.Small? ==> |now.pt| == 512)
      && Follows(p, xd, BlockAddress(n) + k * SIZE_4KB, PageOf(was, k), PageOf(now, k))
      && (n < PER_PML4E ==> Follows(p, xd, n * SIZE_2MB + k * SIZE_4KB, PageOf(was, k), PageOf(now, k)))
  }

  lemma BlockIsRuled(p: Policy, xd: bool, n: nat, block: Block, k: nat)
    requires Fits(p) && k < 512 && Identity(p, n, block)
    ensures Ruled(p, xd, n, block, PatchBlock(p, xd, BlockAddress(n), SplitBlock(p, BlockAddress(n), block)), k)
  {
    if (block.Small? ==> |block.pt| == 512) && !PageOf(block, k).nx {
      PagingFollowsPolicy(p, xd, n, block, k);
      if n < PER_PML4E {
        PagingExact(p, xd, n, block, k);
      }
    }
  }

  /** The indices of the blocks under PDPT entry level2 of PML4 entry level1. */
  lemma BlocksOf(level1: nat, level2: nat)
    requires level2 < 512
    ensures forall n :: (level1 * 512 + level2) * 512 <= n < (level1 * 512 + level2 + 1) * 512 ==>
      n / PER_PML4E == level1 && n % PER_PML4E / 512 == level2 && n / 512 == level1 * 512 + level2
  {
    forall n | (level1 * 512 + level2) * 512 <= n < (level1 * 512 + level2 + 1) * 512
      ensures n / PER_PML4E == level1 && n % PER_PML4E / 512 == level2 && n / 512 == level1 * 512 + level2
    {
      BlockOf(level1, level2, n - (level1 * 512 + level2) * 512);
    }
  }

  lemma BlockOf(level1: nat, level2: nat, k: nat)
    requires level2 < 512 && k < 512
    ensures var n := level1 * 262144 + (level2 * 512 + k);
      n / 262144 == level1 && n % 262144 / 512 == level2 && n / 512 == level1 * 512 + level2
  {
    var m := level2 * 512 + k;
    assert m / 512 == level2 && m < 262144;
    var n := level1 * 262144 + m;
    assert n == 512 * (level1 * 512 + level2) + k;
  }

  /** The blocks of a PML4 entry from PDPT entry n2 on. */
  lemma BeyondEntries(level1: nat, n2: nat)
    requires n2 <= 512
    ensures forall n :: (level1 * 512 + n2) * 512 <= n < (level1 + 1) * PER_PML4E ==>
      n / PER_PML4E == level1 && n % PER_PML4E / 512 >= n2
  {
    forall n | (level1 * 512 + n2) * 512 <= n < (level1 + 1) * PER_PML4E
      ensures n / PER_PML4E == level1 && n % PER_PML4E / 512 >= n2
    {
      assert n % PER_PML4E == n - level1 * PER_PML4E;
    }
  }

  /** The ASSERT of the first pass: a block to be split maps its own address. */
  ghost predicate Identity(p: Policy, n: nat, block: Block) {
    block.Large? && block.e.p && SplitAt(p, BlockAddress(n)) ==> block.e.addr == BlockAddress(n)
  }

  lemma {:induction false} SplitRangesGrow(protect: seq<Protection>, n: nat)
    requires n <= |protect|
    ensures |SplitRanges(protect[..n])| <= |SplitRanges(protect)|
  {
    if n < |protect| {
      assert protect[..|protect| - 1][..n] == protect[..n];
      SplitRangesGrow(protect[..|protect| - 1], n);
    } else {
      assert protect[..n] == protect;
    }
  }

  /** The ranges are those of the template, and then one for each MMIO descriptor, present and execute-disabled. */
  ghost predicate TemplateThenMmio(template: seq<Protection>, mmio: seq<(nat, nat)>, protect: seq<Protection>) {
    && |protect| == |template| + |mmio|
    && (forall i {:trigger protect[i]} :: 0 <= i < |template| ==> protect[i] == template[i])
    && (forall j {:trigger mmio[j]} :: 0 <= j < |mmio| ==>
         protect[|template| + j] == Protection(Range(mmio[j].0, mmio[j].0 + mmio[j].1), true, true))
  }

  lemma {:induction false} ProtectedIs(template: seq<Protection>, mmio: seq<(nat, nat)>)
    ensures TemplateThenMmio(template, mmio, Protected(template, mmio))
  {
    if |mmio| > 0 {
      ProtectedIs(template, mmio[..|mmio| - 1]);
    }
  }

  /** An address in an MMIO range and in none of the template's is present and execute-disabled; one in neither is
      absent. */
  lemma MmioIs(p: Policy, template: seq<Protection>, mmio: seq<(nat, nat)>, a: nat, present: bool, nx: bool)
    requires p.profile && TemplateThenMmio(template, mmio, p.protect) && Answers(p, a, present, nx)
    requires NoneHolds(template, a)
    ensures (exists j :: 0 <= j < |mmio| && mmio[j].0 <= a < mmio[j].0 + mmio[j].1) ==> present && nx
    ensures (forall j :: 0 <= j < |mmio| ==> !(mmio[j].0 <= a < mmio[j].0 + mmio[j].1)) ==> !present && nx
  {
    if NoneHolds(p.protect, a) {
      forall j | 0 <= j < |mmio| ensures !(mmio[j].0 <= a < mmio[j].0 + mmio[j].1) {
        assert !Within(p.protect[|template| + j].range, a);
      }
    } else {
      var i := FirstHolder(p.protect, a);
      HolderIsMmio(template, mmio, p.protect, a, i);
      assert mmio[i - |template|].0 <= a < mmio[i - |template|].0 + mmio[i - |template|].1;
    }
  }

  lemma HolderIsMmio(template: seq<Protection>, mmio: seq<(nat, nat)>, protect: seq<Protection>, a: nat, i: nat)
    requires TemplateThenMmio(template, mmio, protect) && Decides(protect, i, a) && NoneHolds(template, a)
    ensures i >= |template|
  {
  }

  lemma {:induction false} FirstHolder(protect: seq<Protection>, a: nat) returns (i: nat)
    requires !NoneHolds(protect, a)
    ensures Decides(protect, i, a)
  {
    if Within(protect[0].range, a) {
      i := 0;
    } else {
      assert !NoneHolds(protect[1..], a) by {
        var j :| 0 <= j < |protect| && Within(protect[j].range, a);
        assert protect[1..][j - 1] == protect[j];
      }
      var k := FirstHolder(protect[1..], a);
      i := k + 1;
      forall j | 0 <= j < i ensures !Within(protect[j].range, a) {
        if j > 0 { assert protect[1..][j - 1] == protect[j]; }
      }
    }
  }

  /** The template ranges followed by the MMIO ranges, present and not executable. */
  function Protected(template: seq<Protection>, mmio: seq<(nat, nat)>): (r: seq<Protection>)
    ensures |r| == |template| + |mmio|
  {
    if |mmio| == 0 then template
    else
      var last := mmio[|mmio| - 1];
      Protected(template, mmio[..|mmio| - 1]) + [Protection(Range(last.0, last.0 + last.1), true, true)]
  }
}
