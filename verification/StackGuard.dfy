/** Gen4GPageTable of MpService.c: the identity map of the first 4GB, with a page left out below every SMM stack. */
module StackGuard {
  import opened Common

  /** Number of 2MB blocks in 4GB. */
  const BLOCKS: nat := 2048

  /** A page table entry; all present pages are writable. */
  datatype Entry = Entry(present: bool, addr: nat)

  /** A page directory entry: a 2MB page, or a page table on the n-th of the extra pages. */
  datatype Block = Large(addr: nat) | Small(n: nat)

  /** The guard page of stack i: the second page of the stack. */
  function Guard(base: nat, size: nat, i: nat): nat {
    if i == 0 then base + SIZE_4KB else Guard(base, size, i - 1) + size
  }

  /** mSmmStackArrayEnd for n stacks: the last byte of the last stack. */
  function StackArrayEnd(base: nat, size: nat, n: nat): int { Guard(base, size, n) - SIZE_4KB - 1 }

  predicate Guarded(base: nat, size: nat, n: nat, a: nat) {
    exists i :: 0 <= i < n && a == Guard(base, size, i)
  }

  /** Where the guard page of stack i is: one page above the stack's bottom. */
  ghost function SecondPage(base: nat, size: nat, i: nat): nat { base + 0x1000 + i * size }

  lemma {:induction false} GuardIs(base: nat, size: nat, i: nat)
    ensures Guard(base, size, i) == SecondPage(base, size, i)
  {
    if i > 0 {
      GuardIs(base, size, i - 1);
      assert i * size == (i - 1) * size + size;
    }
  }

  /** Page a is the second page of one of the n stacks. */
  ghost predicate IsSecondPage(base: nat, size: nat, n: nat, a: nat) {
    exists i: nat :: i < n && a == SecondPage(base, size, i)
  }

  lemma GuardedIs(base: nat, size: nat, n: nat, a: nat)
    ensures Guarded(base, size, n, a) <==> IsSecondPage(base, size, n, a)
  {
    if i :| 0 <= i < n && a == Guard(base, size, i) { GuardIs(base, size, i); }
    if i: nat :| i < n && a == SecondPage(base, size, i) { GuardIs(base, size, i); }
  }

  lemma {:induction false} GuardOrder(base: nat, size: nat, i: nat, j: nat)
    requires size > 0 && i <= j
    ensures Guard(base, size, i) <= Guard(base, size, j)
      && (i < j ==> Guard(base, size, i) + size <= Guard(base, size, j))
    decreases j
  {
    if i < j { GuardOrder(base, size, i, j - 1); }
  }

  lemma {:induction false} GuardAligned(base: nat, size: nat, i: nat)
    requires base % SIZE_4KB == 0 && size % SIZE_4KB == 0
    ensures Guard(base, size, i) % SIZE_4KB == 0
  {
    if i > 0 { GuardAligned(base, size, i - 1); }
  }

  /** After k guard pages the next one is the k-th, if there is one. */
  lemma NextGuard(base: nat, size: nat, n: nat, k: nat, a: nat)
    requires size > 0 && k <= n
    requires k > 0 ==> Guard(base, size, k - 1) < a
    requires k < n ==> a <= Guard(base, size, k)
    ensures Guarded(base, size, n, a) <==> k < n && a == Guard(base, size, k)
  {
    forall i | 0 <= i < n && i != k ensures a != Guard(base, size, i) {
      if i < k { GuardOrder(base, size, i, k - 1); } else { GuardOrder(base, size, k, i); }
    }
  }

  /** What the map says of the page at address a: whether it is present, and its frame. */
  function MapOf(pde: seq<Block>, pages: seq<Entry>, a: nat): Entry
    requires a / SIZE_2MB < |pde|
  {
    match pde[a / SIZE_2MB]
    case Large(addr) => Entry(true, addr + a % SIZE_2MB)
    case Small(n) =>
      var k := n * 512 + a % SIZE_2MB / SIZE_4KB;
      if k < |pages| then pages[k] else Entry(false, 0)
  }

  /** The blocks from `low` to `high` that get page tables. */
  function LowBlock(base: nat): nat { (base + SIZE_4KB) / SIZE_2MB }

  function HighBlock(base: nat, size: nat, n: nat): nat
    requires n > 0 && size >= 2 * SIZE_4KB
  {
    (Guard(base, size, n - 1) + SIZE_4KB - 1) / SIZE_2MB
  }

  /** The source finds that block by the end of the stack array. */
  lemma HighBlockIs(base: nat, size: nat, n: nat)
    requires n > 0 && size >= 2 * SIZE_4KB && base % SIZE_4KB == 0 && size % SIZE_4KB == 0
    ensures (StackArrayEnd(base, size, n) - size + 2 * SIZE_4KB) / SIZE_2MB == HighBlock(base, size, n)
    ensures HighBlock(base, size, n) == Guard(base, size, n - 1) / SIZE_2MB
      && LowBlock(base) <= HighBlock(base, size, n)
  {
    GuardAligned(base, size, n - 1);
    GuardOrder(base, size, 0, n - 1);
  }

  class Gen4G {
    /** The 2048 page directory entries and the extra pages of page tables, 512 entries each. */
    var pde: array<Block>
    var pages: array<Entry>

    /** Without a stack guard every block is one 2MB page. */
    constructor (extra: nat)
      ensures pde.Length == BLOCKS && pages.Length == extra * 512 && fresh(pde) && fresh(pages)
    {
      pde := new Block[BLOCKS](_ => Large(0));
      pages := new Entry[extra * 512](_ => Entry(false, 0));
    }

    /** Fill in the page directory entries. */
    method FillDirectories()
      requires pde.Length == BLOCKS
      modifies pde
      ensures forall i :: 0 <= i < BLOCKS ==> pde[i] == Large(i * SIZE_2MB)
    {
      var index := 0;
      while index < BLOCKS
        invariant index <= BLOCKS && forall i :: 0 <= i < index ==> pde[i] == Large(i * SIZE_2MB)
      {
        pde[index] := Large(index * SIZE_2MB);
        index := index + 1;
      }
    }

    /** Fill in the page table of one block, on extra page t; k guard pages lie before the block. */
    method FillTable(block: nat, t: nat, base: nat, size: nat, n: nat, guardPage: nat, ghost k: nat)
      returns (guardPage': nat, ghost k': nat)
      requires (t + 1) * 512 <= pages.Length && pde.Length == BLOCKS && block < BLOCKS
      requires base % SIZE_4KB == 0 && size % SIZE_4KB == 0 && size >= 2 * SIZE_4KB && n > 0
      requires Ahead(base, size, n, k, guardPage, block * SIZE_2MB)
      modifies pages
      ensures forall i :: 0 <= i < pages.Length && !(t * 512 <= i < (t + 1) * 512) ==> pages[i] == old(pages[i])
      ensures forall j :: 0 <= j < 512 ==>
        pages[t * 512 + j]
          == Entry(!Guarded(base, size, n, block * SIZE_2MB + j * SIZE_4KB), block * SIZE_2MB + j * SIZE_4KB)
      ensures Ahead(base, size, n, k', guardPage', (block + 1) * SIZE_2MB)
    {
      guardPage', k' := guardPage, k;
      var pageAddress, index := block * SIZE_2MB, 0;
      while index < 512
        invariant index <= 512 && pageAddress == block * SIZE_2MB + index * SIZE_4KB
        invariant forall i :: 0 <= i < pages.Length && !(t * 512 <= i < t * 512 + index) ==> pages[i] == old(pages[i])
        invariant forall j :: 0 <= j < index ==>
          pages[t * 512 + j]
            == Entry(!Guarded(base, size, n, block * SIZE_2MB + j * SIZE_4KB), block * SIZE_2MB + j * SIZE_4KB)
        invariant Ahead(base, size, n, k', guardPage', pageAddress)
      {
        AtPage(base, size, n, k', guardPage', pageAddress);
        if pageAddress == guardPage' {
          pages[t * 512 + index] := Entry(false, pageAddress);
          guardPage' := guardPage' + size;
          if guardPage' > StackArrayEnd(base, size, n) {
            guardPage' := 0;
          }
          k' := k' + 1;
        } else {
          pages[t * 512 + index] := Entry(true, pageAddress);
        }
        pageAddress := pageAddress + SIZE_4KB;
        index := index + 1;
      }
    }

    /** Give one block a page table. */
    method GuardBlock(block: nat, low: nat, base: nat, size: nat, n: nat, guardPage: nat, ghost k: nat)
      returns (guardPage': nat, ghost k': nat)
      requires pde.Length == BLOCKS && low <= block < BLOCKS && (block - low + 1) * 512 <= pages.Length
      requires base % SIZE_4KB == 0 && size % SIZE_4KB == 0 && size >= 2 * SIZE_4KB && n > 0
      requires Ahead(base, size, n, k, guardPage, block * SIZE_2MB)
        && Filled(pde[..], pages[..], base, size, n, low, block)
      modifies pde, pages
      ensures Ahead(base, size, n, k', guardPage', (block + 1) * SIZE_2MB)
        && Filled(pde[..], pages[..], base, size, n, low, block + 1)
    {
      ghost var before, was := pages[..], pde[..];
      pde[block] := Small(block - low);
      guardPage', k' := FillTable(block, block - low, base, size, n, guardPage, k);
      assert pde[..] == was[block := Small(block - low)];
      FilledNext(was, before, pages[..], base, size, n, low, block);
    }

    /** The blocks with guard pages get page tables of their own. */
    method GuardBlocks(base: nat, size: nat, n: nat)
      requires pde.Length == BLOCKS && n > 0 && base % SIZE_4KB == 0 && size % SIZE_4KB == 0 && size >= 2 * SIZE_4KB
      requires HighBlock(base, size, n) < BLOCKS && pages.Length == PagesNeeded(base, size, n) * 512
      requires forall i :: 0 <= i < BLOCKS ==> pde[i] == Large(i * SIZE_2MB)
      modifies pde, pages
      ensures forall b :: 0 <= b < BLOCKS ==> BlockOk(pde[b], pages[..], base, size, n, b)
    {
      HighBlockIs(base, size, n);
      var low, high: nat := (base + SIZE_4KB) / SIZE_2MB,
        (StackArrayEnd(base, size, n) - size + 2 * SIZE_4KB) / SIZE_2MB;
      FirstFilled(pde[..], pages[..], base, size, n);
      var block: nat, guardPage: nat := low, base + SIZE_4KB;
      ghost var k: nat := 0;
      while block <= high
        invariant low <= block <= high + 1 && Ahead(base, size, n, k, guardPage, block * SIZE_2MB)
        invariant Filled(pde[..], pages[..], base, size, n, low, block)
      {
        guardPage, k := GuardBlock(block, low, base, size, n, guardPage, k);
        block := block + 1;
      }
      AllFilled(pde[..], pages[..], base, size, n);
      assert forall b :: 0 <= b < BLOCKS ==> pde[..][b] == pde[b];
    }
  }

  /** The blocks before `block` are done, those from it on are 2MB pages. */
  ghost predicate Filled(pde: seq<Block>, pages: seq<Entry>, base: nat, size: nat, n: nat, low: nat, block: nat) {
    && |pde| == BLOCKS && low <= block <= BLOCKS
    && (forall b {:trigger pde[b]} :: 0 <= b < block ==>
       BlockOk(pde[b], pages, base, size, n, b) && (pde[b].Small? ==> pde[b].n + low == b))
    && (forall b {:trigger pde[b]} :: block <= b < BLOCKS ==> pde[b] == Large(b * SIZE_2MB))
  }

  lemma FirstFilled(pde: seq<Block>, pages: seq<Entry>, base: nat, size: nat, n: nat)
    requires base % SIZE_4KB == 0 && size % SIZE_4KB == 0 && size >= 2 * SIZE_4KB && n > 0
      && HighBlock(base, size, n) < BLOCKS
    requires |pde| == BLOCKS && forall i :: 0 <= i < BLOCKS ==> pde[i] == Large(i * SIZE_2MB)
    ensures Ahead(base, size, n, 0, base + SIZE_4KB, LowBlock(base) * SIZE_2MB)
    ensures Filled(pde, pages, base, size, n, LowBlock(base), LowBlock(base))
  {
    FirstAhead(base, size, n);
    HighBlockIs(base, size, n);
  }

  lemma FilledNext(pde: seq<Block>, before: seq<Entry>, after: seq<Entry>, base: nat, size: nat, n: nat, low: nat,
                   block: nat)
    requires Filled(pde, before, base, size, n, low, block) && block < BLOCKS && |after| == |before|
      && (block - low + 1) * 512 <= |after|
    requires forall i :: 0 <= i < |after| && !((block - low) * 512 <= i < (block - low + 1) * 512) ==>
      after[i] == before[i]
    requires BlockOk(Small(block - low), after, base, size, n, block)
    ensures Filled(pde[block := Small(block - low)], after, base, size, n, low, block + 1)
  {
    var now := pde[block := Small(block - low)];
    forall b | 0 <= b < block + 1
      ensures BlockOk(now[b], after, base, size, n, b) && (now[b].Small? ==> now[b].n + low == b)
    {
      if b < block { SameBlock(pde[b], before, after, base, size, n, b, block - low); }
    }
  }

  lemma AllFilled(pde: seq<Block>, pages: seq<Entry>, base: nat, size: nat, n: nat)
    requires base % SIZE_4KB == 0 && size % SIZE_4KB == 0 && size >= 2 * SIZE_4KB && n > 0
      && HighBlock(base, size, n) < BLOCKS
    requires Filled(pde, pages, base, size, n, LowBlock(base), HighBlock(base, size, n) + 1)
    ensures forall b {:trigger pde[b]} :: 0 <= b < BLOCKS ==> BlockOk(pde[b], pages, base, size, n, b)
  {
    forall b | HighBlock(base, size, n) < b < BLOCKS ensures BlockOk(pde[b], pages, base, size, n, b) {
      Beyond(base, size, n, b);
    }
  }

  /** The next guard page at or after address a is the k-th, and guardPage holds it; 0 when there is none. */
  ghost predicate Ahead(base: nat, size: nat, n: nat, k: nat, guardPage: nat, a: nat) {
    && k <= n && a % SIZE_4KB == 0
    && (k > 0 ==> Guard(base, size, k - 1) < a) && (k < n ==> a <= Guard(base, size, k))
    && guardPage == if k < n then Guard(base, size, k) else 0
  }

  /** What one turn of the inner loop relies on. */
  lemma AtPage(base: nat, size: nat, n: nat, k: nat, guardPage: nat, a: nat)
    requires base % SIZE_4KB == 0 && size % SIZE_4KB == 0 && size >= 2 * SIZE_4KB && n > 0
      && Ahead(base, size, n, k, guardPage, a)
    ensures a == guardPage <==> Guarded(base, size, n, a)
    ensures a == guardPage ==>
      && k < n
      && Ahead(base, size, n, k + 1,
               if guardPage + size > StackArrayEnd(base, size, n) then 0 else guardPage + size, a + SIZE_4KB)
    ensures a != guardPage ==> Ahead(base, size, n, k, guardPage, a + SIZE_4KB)
  {
    NextGuard(base, size, n, k, a);
    if k < n {
      GuardAligned(base, size, k);
      GuardOrder(base, size, k, n);
      if k + 1 < n { GuardOrder(base, size, k + 1, n); }
    }
  }

  /** PagesNeeded. */
  function PagesNeeded(base: nat, size: nat, n: nat): nat
    requires n > 0 && size >= 2 * SIZE_4KB
  {
    if HighBlock(base, size, n) < LowBlock(base) then 1 else HighBlock(base, size, n) - LowBlock(base) + 1
  }

  /** Every page of block b is mapped to itself, and left out exactly if it is a guard page. */
  ghost predicate BlockOk(block: Block, pages: seq<Entry>, base: nat, size: nat, n: nat, b: nat) {
    match block
    case Large(addr) => addr == b * SIZE_2MB && forall j :: 0 <= j < 512 ==>
      !Guarded(base, size, n, b * SIZE_2MB + j * SIZE_4KB)
    case Small(t) => (t + 1) * 512 <= |pages| && forall j :: 0 <= j < 512 ==>
      pages[t * 512 + j] == Entry(!Guarded(base, size, n, b * SIZE_2MB + j * SIZE_4KB), b * SIZE_2MB + j * SIZE_4KB)
  }

  lemma SameBlock(block: Block, before: seq<Entry>, after: seq<Entry>, base: nat, size: nat, n: nat, b: nat, t: nat)
    requires BlockOk(block, before, base, size, n, b) && |after| == |before| && (block.Small? ==> block.n < t)
    requires forall i :: 0 <= i < |after| && !(t * 512 <= i < (t + 1) * 512) ==> after[i] == before[i]
    ensures BlockOk(block, after, base, size, n, b)
  {
  }

  /** No guard page lies below the first block or above the last. */
  lemma FirstAhead(base: nat, size: nat, n: nat)
    requires base % SIZE_4KB == 0 && size % SIZE_4KB == 0 && size >= 2 * SIZE_4KB && n > 0
    ensures Ahead(base, size, n, 0, base + SIZE_4KB, LowBlock(base) * SIZE_2MB)
    ensures forall b, j :: 0 <= b < LowBlock(base) && 0 <= j < 512 ==>
      !Guarded(base, size, n, b * SIZE_2MB + j * SIZE_4KB)
  {
    forall b, j | 0 <= b < LowBlock(base) && 0 <= j < 512 ensures !Guarded(base, size, n, b * SIZE_2MB + j * SIZE_4KB) {
      NextGuard(base, size, n, 0, b * SIZE_2MB + j * SIZE_4KB);
    }
  }

  lemma Beyond(base: nat, size: nat, n: nat, b: nat)
    requires base % SIZE_4KB == 0 && size % SIZE_4KB == 0 && size >= 2 * SIZE_4KB && n > 0
      && HighBlock(base, size, n) < b
    ensures forall j :: 0 <= j < 512 ==> !Guarded(base, size, n, b * SIZE_2MB + j * SIZE_4KB)
  {
    HighBlockIs(base, size, n);
    forall j | 0 <= j < 512 ensures !Guarded(base, size, n, b * SIZE_2MB + j * SIZE_4KB) {
      NextGuard(base, size, n, n, b * SIZE_2MB + j * SIZE_4KB);
    }
  }

  /** The pages of a block as the map has them. */
  lemma BlockMaps(pde: seq<Block>, pages: seq<Entry>, base: nat, size: nat, n: nat, b: nat, j: nat)
    requires b < |pde| && BlockOk(pde[b], pages, base, size, n, b) && j < 512
    ensures var a := b * SIZE_2MB + j * SIZE_4KB;
      a / SIZE_2MB == b && MapOf(pde, pages, a) == Entry(!Guarded(base, size, n, a), a)
  {
    var a := b * SIZE_2MB + j * SIZE_4KB;
    assert a / SIZE_2MB == b && a % SIZE_2MB == j * SIZE_4KB;
  }

  /** One page table for each 2MB block from that of the first guard page to that of the last. */
  lemma PagesNeededIs(base: nat, size: nat, n: nat)
    requires n > 0 && base % SIZE_4KB == 0 && size % SIZE_4KB == 0 && size >= 2 * SIZE_4KB
    ensures PagesNeeded(base, size, n)
         == SecondPage(base, size, n - 1) / 0x20_0000 - (base + 0x1000) / 0x20_0000 + 1
  {
    HighBlockIs(base, size, n);
    GuardIs(base, size, n - 1);
  }

  /** Gen4GPageTable: all of 4GB maps to itself, present except exactly the second page of every stack where the guard
      is on, with one page table for each 2MB from the first such page to the last. */
  method Gen4GPageTable(guard: bool, base: nat, size: nat, n: nat) returns (g: Gen4G)
    requires guard ==>
      n > 0 && base % SIZE_4KB == 0 && size % SIZE_4KB == 0 && size >= 2 * SIZE_4KB && HighBlock(base, size, n) < BLOCKS
    ensures fresh(g) && g.pde.Length == BLOCKS
    ensures g.pages.Length == if !guard then 0
      else (SecondPage(base, size, n - 1) / 0x20_0000 - (base + 0x1000) / 0x20_0000 + 1) * 512
    ensures forall a: nat {:trigger MapOf(g.pde[..], g.pages[..], a)} :: a < 0x1_0000_0000 && a % 0x1000 == 0 ==>
      MapOf(g.pde[..], g.pages[..], a) == Entry(!(guard && IsSecondPage(base, size, n, a)), a)
  {
    if guard { PagesNeededIs(base, size, n); }
    g := new Gen4G(if guard then PagesNeeded(base, size, n) else 0);
    g.FillDirectories();
    if guard {
      g.GuardBlocks(base, size, n);
      forall a: nat | a < BLOCKS * SIZE_2MB && a % SIZE_4KB == 0
        ensures MapOf(g.pde[..], g.pages[..], a) == Entry(!IsSecondPage(base, size, n, a), a)
      {
        var b, j := a / SIZE_2MB, a % SIZE_2MB / SIZE_4KB;
        assert a == b * SIZE_2MB + j * SIZE_4KB;
        BlockMaps(g.pde[..], g.pages[..], base, size, n, b, j);
        GuardedIs(base, size, n, a);
      }
    }
  }
}
