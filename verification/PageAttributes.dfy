/** The page attribute library of CpuPageTable.c: it assigns RP, RO and XP to a range of memory by editing the
    page table in place, splitting 1G pages to 2M and 2M pages to 4K at the ends of the range. */
module PageAttributes {
  import opened Common
  import opened PageTree

  /** PAGE_ATTRIBUTE. */
  datatype PageAttribute = PageNone | Page4K | Page2M | Page1G

  /** PAGE_ACTION. */
  datatype PageAction = PageActionAssign | PageActionSet | PageActionClear

  /** A request's EFI_MEMORY_RP, EFI_MEMORY_RO and EFI_MEMORY_XP bits, and whether any other bit is set. */
  datatype Attributes = Attributes(rp: bool, ro: bool, xp: bool, other: bool)

  datatype Status = Success | Unsupported | InvalidParameter | OutOfResources

  /** PageTableBase and the processor features the library asks about. */
  datatype Context = Context(machine: Machine, root: nat, pae: bool, xd: bool) {
    function Top(): nat { if machine == X64 then 4 else 3 }

    /** Number of 4KB pages that the table translates. */
    function Space(): nat { Span(Top() + 1) }

    /** The library has a table to work on. */
    predicate Paging() { machine == X64 || (root != 0 && pae) }
  }

  function PageAttributeToLength(attribute: PageAttribute): nat {
    match attribute
    case PageNone => 0
    case Page4K => Span(1)
    case Page2M => Span(2)
    case Page1G => Span(3)
  }

  function AttributeOf(s: Option<Slot>): PageAttribute {
    if s.None? then PageNone else if s.value.level == 1 then Page4K else if s.value.level == 2 then Page2M else Page1G
  }

  // ---------------------------------------------------------------- entries

  /** What is asked of a range. */
  datatype Request = Request(action: PageAction, attributes: Attributes)

  function ChangeBit(action: PageAction, asked: bool, was: bool): bool {
    match action
    case PageActionAssign => asked
    case PageActionSet => was || asked
    case PageActionClear => was && !asked
  }

  /** What a request makes of a page's mapping. */
  function Changed(xd: bool, r: Request, m: Mapping): Mapping {
    m.(rp := ChangeBit(r.action, r.attributes.rp, m.rp),
       ro := ChangeBit(r.action, r.attributes.ro, m.ro),
       xp := if xd then ChangeBit(r.action, r.attributes.xp, m.xp) else m.xp)
  }

  /** The entry that ConvertPageEntryAttribute leaves: P and RW are the absence of RP and RO. */
  function Convert(xd: bool, r: Request, e: Entry): Entry {
    e.(p := !ChangeBit(r.action, r.attributes.rp, !e.p),
       rw := !ChangeBit(r.action, r.attributes.ro, !e.rw),
       nx := if xd then ChangeBit(r.action, r.attributes.xp, e.nx) else e.nx)
  }

  /** Rewriting an entry changes the mapping of its pages as requested, and their frames not at all. */
  lemma ConvertMaps(xd: bool, r: Request, e: Entry, level: nat, v: nat)
    ensures MappingOf(Convert(xd, r, e), level, v) == Changed(xd, r, MappingOf(e, level, v))
  {
  }

  /** The k-th entry of the table a leaf at this level is split into: only P, RW, U, A, D and NX are handed down. */
  function Kid(e: Entry, level: nat, k: nat): Entry
    requires level >= 2
  {
    Entry(e.p, e.rw, e.u, e.a, e.d, level == 3, e.nx, FrameBase(e, level) + Span(level - 1) * k, 0)
  }

  function Parent(e: Entry, page: nat): Entry {
    Entry(e.p, e.rw, e.u, e.a, e.d, false, e.nx, page, 0)
  }

  function Kids(e: Entry, level: nat): (r: seq<Entry>)
    requires level >= 2
    ensures |r| == 512 && forall k :: 0 <= k < 512 ==> r[k] == Kid(e, level, k)
  {
    seq(512, k requires 0 <= k < 512 => Kid(e, level, k))
  }

  /** The tree after the leaf at slot s has become a table on page `page`. */
  function Split(mem: Tables, s: Slot, level: nat, page: nat): Tables
    requires s.table in mem && s.index < |mem[s.table]| && level >= 2
  {
    Grow(mem, s, Parent(mem[s.table][s.index], page), page, Kids(mem[s.table][s.index], level))
  }

  // ---------------------------------------------------------------- what splits make of a leaf

  /** What a leaf has become for page v, once it has been split down to this level. */
  function Piece(l: Leaf, level: nat, v: nat): Leaf {
    if level == l.level then l
    else
      var frame := FrameBase(l.e, l.level) + At(v % Span(l.level), level) * Span(level);
      Leaf(level, Entry(l.e.p, l.e.rw, l.e.u, l.e.a, l.e.d, level > 1, l.e.nx, frame, 0))
  }

  /** The offset of page w in its 1GB, from the 2MB it is in and its offset there. */
  lemma LargeOffset(w: nat)
    ensures w % 262144 == w / 512 % 512 * 512 + w % 512
    ensures w % 262144 / 512 == w / 512 % 512
  {
    var q := w / 512;
    assert w == 262144 * (q / 512) + (q % 512 * 512 + w % 512);
  }

  /** An entry of the new table is the piece for its pages. */
  lemma KidIsPiece(e: Entry, level: nat, w: nat)
    requires 2 <= level <= 3
    ensures Leaf(level - 1, Kid(e, level, Index(w, level - 1))) == Piece(Leaf(level, e), level - 1, w)
  {
    if level == 3 { LargeOffset(w); }
  }

  /** A piece of a piece. */
  lemma PieceOfPiece(l: Leaf, w: nat)
    requires l.level == 3
    ensures Piece(Piece(l, 2, w), 1, w) == Piece(l, 1, w)
  {
    LargeOffset(w);
    var a, k := l.e.addr / 262144, w / 512 % 512;
    assert (a * 262144 + k * 512) / 512 == 512 * a + k;
  }

  /** A piece maps its pages as the whole leaf did. */
  lemma PieceMapsAlike(l: Leaf, level: nat, w: nat)
    requires 1 <= level <= l.level <= 3
    ensures MappingOf(Piece(l, level, w).e, level, w) == MappingOf(l.e, l.level, w)
  {
    if level < l.level {
      if l.level == 2 {
        assert w % 1 == 0;
      } else {
        LargeOffset(w);
        var a, k := l.e.addr / 262144, w / 512 % 512;
        assert (a * 262144 + k * 512) / 512 == 512 * a + k;
        assert w % 1 == 0;
      }
    }
  }

  /** NeedSplitPage: a 4K page is never split, and a 2M page only to 4K. */
  function NeedSplitPage(page: nat, length: nat, attribute: PageAttribute): (r: PageAttribute)
    requires attribute != PageNone
    ensures attribute == Page4K && length > 0 ==> r == PageNone
    ensures attribute == Page2M ==> r != Page2M
    ensures r == PageNone <==>
      page % PageAttributeToLength(attribute) == 0 && PageAttributeToLength(attribute) <= length
    ensures r != Page1G
  {
    var n := PageAttributeToLength(attribute);
    if page % n == 0 && length >= n then PageNone
    else if page % Span(2) != 0 || length < Span(2) then Page4K
    else Page2M
  }

  // ---------------------------------------------------------------- the table in memory

  class PageTable {
    const context: Context

    /** The pages that hold tables. */
    var mem: Tables

    /** The pages AllocatePagesFunc has left to give, next one first. */
    var free: seq<nat>

    ghost var own: map<nat, Place>

    ghost predicate Valid()
      reads this
    {
      context.Paging() ==> Tree(mem, own, context.Top(), context.root) && FreeApart(mem, free)
    }

    /** GetPageTableEntry. */
    method GetPageTableEntry(page: nat) returns (slot: Option<Slot>, attribute: PageAttribute)
      requires Valid() && context.Paging() && page < context.Space()
      ensures slot == Find(mem, context.Top(), context.root, page) && attribute == AttributeOf(slot)
      ensures slot.None? <==> Flat(context, mem, page).None?
    {
      Walked(mem, own, context, page);
      var l3 := context.root;
      if context.machine == X64 {
        var e4 := mem[context.root][Index(page, 4)];
        if e4 == ZERO {
          return None, PageNone;
        }
        l3 := e4.addr;
      }
      assert Stop(mem, context.Top(), context.root, page) == Stop(mem, 3, l3, page);
      var e3 := mem[l3][Index(page, 3)];
      if e3 == ZERO {
        return None, PageNone;
      }
      if e3.ps {
        return Some(Slot(l3, Index(page, 3), 3)), Page1G;
      }
      var l2 := e3.addr;
      assert Stop(mem, 3, l3, page) == Stop(mem, 2, l2, page);
      var e2 := mem[l2][Index(page, 2)];
      if e2 == ZERO {
        return None, PageNone;
      }
      if e2.ps {
        return Some(Slot(l2, Index(page, 2), 2)), Page2M;
      }
      var l1 := e2.addr;
      assert Stop(mem, 2, l2, page) == Stop(mem, 1, l1, page);
      if mem[l1][Index(page, 1)] == ZERO && page != 0 {
        return None, PageNone;
      }
      return Some(Slot(l1, Index(page, 1), 1)), Page4K;
    }

    /** ConvertPageEntryAttribute. */
    method ConvertPageEntryAttribute(slot: Slot, attributes: Attributes, action: PageAction) returns (isModified: bool)
      requires Valid() && context.Paging() && slot.table in mem && slot.index < |mem[slot.table]|
      modifies this`mem
      ensures mem == Set(old(mem), slot, Convert(context.xd, Request(action, attributes), Get(old(mem), slot)))
      ensures isModified <==> mem != old(mem)
    {
      var current := mem[slot.table][slot.index];
      var p, rw, nx := current.p, current.rw, current.nx;
      if attributes.rp {
        match action
        case PageActionAssign | PageActionSet => p := false;
        case PageActionClear => p := true;
      } else if action == PageActionAssign {
        p := true;
      }
      assert p == !ChangeBit(action, attributes.rp, !current.p);
      if attributes.ro {
        match action
        case PageActionAssign | PageActionSet => rw := false;
        case PageActionClear => rw := true;
      } else if action == PageActionAssign {
        rw := true;
      }
      assert rw == !ChangeBit(action, attributes.ro, !current.rw);
      if context.xd {
        if attributes.xp {
          match action
          case PageActionAssign | PageActionSet => nx := true;
          case PageActionClear => nx := false;
        } else if action == PageActionAssign {
          nx := false;
        }
      }
      isModified := Store(slot, current.(p := p, rw := rw, nx := nx));
    }

    /** Write an entry, and tell whether that changed it. */
    method Store(slot: Slot, entry: Entry) returns (isModified: bool)
      requires slot.table in mem && slot.index < |mem[slot.table]|
      modifies this`mem
      ensures mem == Set(old(mem), slot, entry)
      ensures isModified <==> mem != old(mem)
    {
      var current := mem[slot.table][slot.index];
      ghost var table := mem[slot.table];
      mem := mem[slot.table := mem[slot.table][slot.index := entry]];
      isModified := current != entry;
      assert table[slot.index] == current && mem[slot.table][slot.index] == entry;
      assert current == entry ==> mem[slot.table] == table;
    }

    /** SplitPage; its ASSERTs are the preconditions. */
    method SplitPage(slot: Slot, attribute: PageAttribute, splitAttribute: PageAttribute) returns (status: Status)
      requires Valid() && context.Paging() && slot.table in mem && slot.index < |mem[slot.table]|
      requires attribute == Page2M || attribute == Page1G
      requires attribute == Page2M ==> splitAttribute == Page4K
      requires attribute == Page1G ==> splitAttribute == Page2M || splitAttribute == Page4K
      modifies this`mem, this`free
      ensures status == if |old(free)| == 0 then OutOfResources else Success
      ensures status != Success ==> mem == old(mem) && free == old(free)
      ensures status == Success ==> free == old(free)[1..]
      ensures status == Success ==> mem == Split(old(mem), slot, if attribute == Page2M then 2 else 3, old(free)[0])
    {
      if |free| == 0 {
        return OutOfResources;
      }
      var page := free[0];
      free := free[1..];
      var level := if attribute == Page2M then 2 else 3;
      var e := mem[slot.table][slot.index];
      var kids: seq<Entry> := [];
      var index := 0;
      while index < 512
        invariant index <= 512 && |kids| == index
        invariant forall k :: 0 <= k < index ==> kids[k] == Kid(e, level, k)
      {
        kids := kids + [Entry(e.p, e.rw, e.u, e.a, e.d, attribute == Page1G, e.nx,
                              At(e.addr, level) * Span(level) + Span(level - 1) * index, 0)];
        index := index + 1;
      }
      var parent := Entry(e.p, e.rw, e.u, e.a, e.d, false, e.nx, page, 0);
      mem := mem[slot.table := mem[slot.table][slot.index := parent]][page := kids];
      assert kids == Kids(e, level);
      return Success;
    }

    /** Change one whole leaf. */
    method ConvertLeaf(ghost was: Tables, ghost first: nat, page: nat, slot: Slot, attributes: Attributes,
                       action: PageAction, ghost allocate: bool, ghost end: nat)
      returns (isModified: bool)
      requires context.Paging() && Underway(context, Request(action, attributes), was, mem, own, free, first, page, end)
      requires Find(mem, context.Top(), context.root, page) == Some(slot) && page % Span(slot.level) == 0
      requires page < end && page + Span(slot.level) <= end
      modifies this`mem
      ensures Underway(context, Request(action, attributes), was, mem, own, free, first, page + Span(slot.level), end)
      ensures Turned(context, allocate, old(mem), free, mem, free, page, Span(slot.level), end, true, isModified)
      ensures Moved(context, Request(action, attributes), old(mem), mem, page, Span(slot.level), isModified)
    {
      ghost var r, next, m := Request(action, attributes), page + Span(slot.level), mem;
      UnderwayIs(context, r, was, mem, own, free, first, page, end);
      ConvertStep(context, mem, own, free, r, was, first, page, slot, end);
      ConvertsNoHoles(context, r, was, mem, own, first, page, slot, end);
      ConvertChanges(context, mem, own, r, page, slot);
      isModified := ConvertPageEntryAttribute(slot, attributes, action);
      GoesOn(context, r, was, mem, own, free, first, page, next, end);
      LeafTurn(context, allocate, m, free, mem, page, Span(slot.level), end, isModified);
    }

    /** Split a leaf that the range cuts, if there is a page for the new table. */
    method SplitLeaf(ghost was: Tables, ghost r: Request, ghost first: nat, page: nat, slot: Slot,
                     attribute: PageAttribute, splitAttribute: PageAttribute, allocate: bool, ghost end: nat)
      returns (ok: bool)
      requires context.Paging() && Underway(context, r, was, mem, own, free, first, page, end) && page < end
      requires Find(mem, context.Top(), context.root, page) == Some(slot) && attribute == AttributeOf(Some(slot))
      requires page % Span(slot.level) != 0 || end - page < Span(slot.level)
      requires attribute == Page2M ==> splitAttribute == Page4K
      requires splitAttribute == Page2M || splitAttribute == Page4K
      modifies this`mem, this`free, this`own
      ensures Underway(context, r, was, mem, own, free, first, page, end)
      ensures Turned(context, allocate, old(mem), old(free), mem, free, page, 0, end, ok, ok)
      ensures !ok ==> (!allocate || |free| == 0) && Splits(context, mem, page, end) >= 1
    {
      UnderwayIs(context, r, was, mem, own, free, first, page, end);
      FoundSlot(context, mem, own, page, slot);
      EndIsCut(page, end);
      NeedsPage(context, mem, own, page, end);
      ghost var mem0, free0 := mem, free;
      if !allocate {
        SplitTurn(context, allocate, mem0, free0, mem, free, page, end, false);
        return false;
      }
      if |free| > 0 {
        SplitStep(context, mem, own, free, r, was, first, page, slot, end);
      }
      ghost var place := Place(slot.level - 1, Position(own, slot));
      var status := SplitPage(slot, attribute, splitAttribute);
      if status == Success {
        own := own[old(free)[0] := place];
        GoesOn(context, r, was, mem, own, free, first, page, page, end);
      }
      SplitTurn(context, allocate, mem0, free0, mem, free, page, end, status == Success);
      return status == Success;
    }

    /** One turn of the loop: it moves on by n pages, or splits a leaf and stays (n == 0), or gives up. */
    method Turn(ghost was: Tables, ghost first: nat, page: nat, left: nat, attributes: Attributes, action: PageAction,
                allocate: bool)
      returns (ok: bool, n: nat, isModified: bool)
      requires context.Paging() && left > 0
      requires Underway(context, Request(action, attributes), was, mem, own, free, first, page, page + left)
      modifies this`mem, this`free, this`own
      ensures Underway(context, Request(action, attributes), was, mem, own, free, first, page + n, page + left)
      ensures Turned(context, allocate, old(mem), old(free), mem, free, page, n, page + left, ok, isModified)
      ensures Moved(context, Request(action, attributes), old(mem), mem, page, n, isModified)
      ensures !ok && Flat(context, mem, page).Some? ==>
        (!allocate || |free| == 0) && Splits(context, mem, page, page + left) >= 1
    {
      ghost var end, r := page + left, Request(action, attributes);
      UnderwayIs(context, r, was, mem, own, free, first, page, end);
      var slot, attribute := GetPageTableEntry(page);
      if slot.None? {
        NoTurn(context, allocate, mem, free, page, end);
        return false, 0, false;
      }
      FoundSlot(context, mem, own, page, slot.value);
      var splitAttribute := NeedSplitPage(page, left, attribute);
      if splitAttribute == PageNone {
        n := PageAttributeToLength(attribute);
        isModified := ConvertLeaf(was, first, page, slot.value, attributes, action, allocate, end);
        return true, n, isModified;
      }
      ok := SplitLeaf(was, r, first, page, slot.value, attribute, splitAttribute, allocate, end);
      return ok, 0, ok;
    }

    /** One turn, and what the loop keeps. */
    method Advance(ghost was: Tables, ghost had: nat, ghost first: nat, page: nat, left: nat, attributes: Attributes,
                   action: PageAction, allocate: bool, ghost split: bool, ghost modified: bool)
      returns (ok: bool, n: nat, isModified: bool)
      requires context.Paging() && left > 0
      requires Underway(context, Request(action, attributes), was, mem, own, free, first, page, page + left)
      requires Tally(context, allocate, was, had, mem, free, first, page, page + left, split, modified)
      requires Reports(context, Request(action, attributes), was, mem, first, page, split, modified)
      modifies this`mem, this`free, this`own
      ensures n <= left && (ok && n == 0 ==> |free| < |old(free)|) && (!ok ==> n == 0 && !isModified)
      ensures Underway(context, Request(action, attributes), was, mem, own, free, first, page + n, page + left)
      ensures Tally(context, allocate, was, had, mem, free, first, page + n, page + left, split || (ok && n == 0),
                    modified || isModified)
      ensures Reports(context, Request(action, attributes), was, mem, first, page + n, split || (ok && n == 0),
                      modified || isModified)
      ensures !ok && Flat(context, mem, page).Some? ==>
        (!allocate || |free| == 0) && Splits(context, mem, page, page + left) >= 1
    {
      ghost var mem0, own0, free0, r, end := mem, own, free, Request(action, attributes), page + left;
      ok, n, isModified := Turn(was, first, page, left, attributes, action, allocate);
      TallyOn(context, allocate, was, had, mem0, free0, mem, free, first, page, n, end, split, modified, ok,
              isModified);
      ReportsOn(context, r, was, mem0, own0, free0, mem, first, page, n, end, split, modified, ok, isModified);
    }

    /** The loop of ConvertMemoryPageAttributes; `done` counts the pages changed. */
    method ConvertPages(first: nat, pages: nat, attributes: Attributes, action: PageAction, allocate: bool)
      returns (status: Status, isSplitted: bool, isModified: bool, ghost done: nat)
      requires context.Paging() && Progress(context, mem, own, free, first + pages)
      modifies this`mem, this`free, this`own
      ensures done <= pages && status == (if done == pages then Success else Unsupported)
      ensures Underway(context, Request(action, attributes), old(mem), mem, own, free, first, first + done,
                       first + pages)
      ensures Tally(context, allocate, old(mem), |old(free)|, mem, free, first, first + done, first + pages,
                    isSplitted, isModified)
      ensures Reports(context, Request(action, attributes), old(mem), mem, first, first + done, isSplitted, isModified)
      ensures status != Success && Flat(context, mem, first + done).Some? ==>
        (!allocate || |free| == 0) && Splits(context, mem, first + done, first + pages) >= 1
    {
      isSplitted, isModified, done := false, false, 0;
      var page, left := first, pages;
      ghost var was, had, end, r := mem, |free|, first + pages, Request(action, attributes);
      Begins(context, r, allocate, mem, own, free, first, end);
      while left != 0
        invariant page + left == end && page == first + done
        invariant Underway(context, r, was, mem, own, free, first, page, end)
        invariant Tally(context, allocate, was, had, mem, free, first, page, end, isSplitted, isModified)
        invariant Reports(context, r, was, mem, first, page, isSplitted, isModified)
        decreases left, |free|
      {
        var ok, n, isEntryModified := Advance(was, had, first, page, left, attributes, action, allocate, isSplitted,
          isModified);
        if !ok {
          return Unsupported, isSplitted, isModified, done;
        }
        isModified := isModified || isEntryModified;
        isSplitted := isSplitted || n == 0;
        page, left, done := page + n, left - n, done + n;
      }
      return Success, isSplitted, isModified, done;
    }

    /** The loop, and what it comes to. */
    method ConvertRange(first: nat, pages: nat, attributes: Attributes, action: PageAction, allocate: bool)
      returns (status: Status, isSplitted: bool, isModified: bool, ghost done: nat)
      requires context.Paging() && Progress(context, mem, own, free, first + pages) && pages > 0
      modifies this`mem, this`free, this`own
      ensures Progress(context, mem, own, free, first + pages) && (isModified <==> mem != old(mem))
      ensures status == if done == pages then Success else Unsupported
      ensures Converted(context, Request(action, attributes), old(mem), mem, first, done, pages)
      ensures isSplitted <==> |free| < |old(free)|
      ensures |old(free)| - 4 <= |free| <= |old(free)|
      ensures status == Success <==>
        && NoHole(context, old(mem), first, first + pages)
        && Splits(context, old(mem), first, first + pages) <= (if allocate then |old(free)| else 0)
      ensures status == Success ==> |free| + Splits(context, old(mem), first, first + pages) == |old(free)|
    {
      ghost var was, owned, had, r, end := mem, own, |free|, Request(action, attributes), first + pages;
      status, isSplitted, isModified, done := ConvertPages(first, pages, attributes, action, allocate);
      UnderwayIs(context, r, was, mem, own, free, first, first + done, end);
      EndsWell(context, r, was, mem, owned, own, first, done, end);
      TallyMeans(context, r, allocate, was, had, mem, free, first, first + done, end, isSplitted, isModified);
    }

    /** ConvertMemoryPageAttributes; `allocate` tells whether AllocatePagesFunc was given.  The two flags are
        FALSE where the source leaves them as they were. */
    method ConvertMemoryPageAttributes(base: nat, length: nat, attributes: Attributes, action: PageAction,
                                       allocate: bool)
      returns (status: Status, isSplitted: bool, isModified: bool, ghost done: nat)
      requires Valid() && base + length <= context.Space() * 4096
      modifies this`mem, this`free, this`own
      ensures Valid() && (isModified <==> mem != old(mem))
      // what is refused before anything is looked up, and changes nothing
      ensures base % 4096 != 0 || length % 4096 != 0 ==> status == Unsupported
      ensures base % 4096 == 0 && length == 0 ==> status == InvalidParameter
      ensures base % 4096 == 0 && length % 4096 == 0 && length > 0 ==> (
        && (attributes.other ==> status == Unsupported)
        && (!attributes.other && context.machine == I386 && context.root == 0 ==>
          status == if attributes.rp || attributes.ro || attributes.xp then Unsupported else Success)
        && (!attributes.other && context.machine == I386 && context.root != 0 && !context.pae ==>
          status == Unsupported))
      ensures (base % 4096 != 0 || length % 4096 != 0 || length == 0 || attributes.other
               || (context.machine == I386 && (context.root == 0 || !context.pae))) ==>
        mem == old(mem) && free == old(free)
      // every other call converts
      ensures (base % 4096 == 0 && length % 4096 == 0 && length > 0 && !attributes.other
               && (context.machine == X64 || (context.root != 0 && context.pae))) ==> (
        var first, n := base / 4096, length / 4096;
        // what every page reads as now
        && Converted(context, Request(action, attributes), old(mem), mem, first, done, n)
        && status == (if done == n then Success else Unsupported)
        // when all of it is converted, and what that takes
        && (status == Success <==>
          && NoHole(context, old(mem), first, first + n)
          && Splits(context, old(mem), first, first + n) <= (if allocate then |old(free)| else 0))
        && (status == Success ==> |free| + Splits(context, old(mem), first, first + n) == |old(free)|))
      ensures |old(free)| - 4 <= |free| <= |old(free)|
      ensures isSplitted <==> |free| < |old(free)|
    {
      isSplitted, isModified, done := false, false, 0;
      if base % SIZE_4KB != 0 || length % SIZE_4KB != 0 {
        return Unsupported, false, false, 0;
      }
      if length == 0 {
        return InvalidParameter, false, false, 0;
      }
      if attributes.other {
        return Unsupported, false, false, 0;
      }
      if context.machine == I386 {
        if context.root == 0 {
          return if !attributes.rp && !attributes.ro && !attributes.xp then Success else Unsupported, false, false, 0;
        }
        if !context.pae {
          return Unsupported, false, false, 0;
        }
      }
      status, isSplitted, isModified, done := ConvertRange(base / SIZE_4KB, length / SIZE_4KB, attributes, action,
        allocate);
    }
  }

  /** What the loop keeps of the tables. */
  ghost predicate Underway(c: Context, r: Request, was: Tables, mem: Tables, own: map<nat, Place>, free: seq<nat>,
                           first: nat, page: nat, end: nat) {
    forall p {:trigger Kept(c, r, was, mem, own, free, first, p, end)} :: p == page ==>
      Kept(c, r, was, mem, own, free, first, p, end)
  }

  ghost predicate Kept(c: Context, r: Request, was: Tables, mem: Tables, own: map<nat, Place>, free: seq<nat>,
                       first: nat, page: nat, end: nat) {
    && first <= page <= end && Progress(c, mem, own, free, end)
    && Sofar(c, r, was, mem, first, page, end) && NoCutHole(c, was, first, page, end)
  }

  /** What it keeps count of: `had` pages were free when it began, and the splits made are those counted off. */
  ghost predicate Tally(c: Context, allocate: bool, was: Tables, had: nat, mem: Tables, free: seq<nat>,
                        first: nat, page: nat, end: nat, split: bool, modified: bool) {
    forall p {:trigger Tallied(c, allocate, was, had, mem, free, first, p, end, split, modified)} :: p == page ==>
      Tallied(c, allocate, was, had, mem, free, first, p, end, split, modified)
  }

  ghost predicate Tallied(c: Context, allocate: bool, was: Tables, had: nat, mem: Tables, free: seq<nat>,
                          first: nat, page: nat, end: nat, split: bool, modified: bool) {
    && |free| + Splits(c, was, first, end) == had + Splits(c, mem, page, end)
    && (if split then |free| < had && allocate else |free| == had)
    && |mem| + |free| == |was| + had && (!modified ==> mem == was)
  }

  /** Nothing is reported that has not happened. */
  ghost predicate Reports(c: Context, r: Request, was: Tables, mem: Tables, first: nat, page: nat, split: bool,
                          modified: bool) {
    forall p {:trigger Reported(c, r, was, mem, first, p, split, modified)} :: p == page ==>
      Reported(c, r, was, mem, first, p, split, modified)
  }

  ghost predicate Reported(c: Context, r: Request, was: Tables, mem: Tables, first: nat, page: nat, split: bool,
                           modified: bool) {
    (!split ==> SameLevels(c, was, mem)) && (modified ==> split || Touched(c, r, was, first, page))
  }

  ghost predicate FreeApart(mem: Tables, free: seq<nat>) {
    && (forall i {:trigger free[i]} :: 0 <= i < |free| ==> free[i] != 0 && free[i] !in mem)
    && (forall i, j {:trigger free[i], free[j]} :: 0 <= i < j < |free| ==> free[i] != free[j])
  }

  /** The tables met on the way down to a page are all there. */
  lemma Walked(mem: Tables, own: map<nat, Place>, c: Context, page: nat)
    requires Tree(mem, own, c.Top(), c.root)
    ensures forall t {:trigger mem[t]} :: t in mem ==> |mem[t]| == 512 && t in own
    ensures forall t, k {:trigger mem[t][k]} :: t in mem && 0 <= k < 512 ==> Leads(mem, own, t, k)
  {
    forall t | t in mem ensures |mem[t]| == 512 && t in own {
      TreeOf(mem, own, c.Top(), c.root, t, 0);
    }
    forall t, k | t in mem && 0 <= k < 512 ensures Leads(mem, own, t, k) {
      TreeOf(mem, own, c.Top(), c.root, t, k);
    }
  }

  ghost predicate Leads(mem: Tables, own: map<nat, Place>, t: nat, k: nat)
    requires t in mem && t in own && k < |mem[t]|
  {
    PointsDown(mem[t][k], own[t].level) ==>
      mem[t][k].addr in mem && mem[t][k].addr in own && own[mem[t][k].addr].level == own[t].level - 1
  }

  ghost function StopAt(c: Context, mem: Tables, v: nat): Option<Slot> { Stop(mem, c.Top(), c.root, v) }

  ghost function LeafAt(c: Context, mem: Tables, v: nat): Leaf { LeafOf(mem, c.Top(), c.root, v) }

  /** The level of the entry where the way to page v ends. */
  ghost function LevelAt(c: Context, mem: Tables, v: nat): nat { LeafAt(c, mem, v).level }

  ghost function Flat(c: Context, mem: Tables, v: nat): Option<Mapping> { LeafAt(c, mem, v).Maps(v) }

  /** Where the way to a page ends, and who shares it. */
  lemma StopIs(c: Context, mem: Tables, own: map<nat, Place>, v: nat, w: nat)
    requires Tree(mem, own, c.Top(), c.root) && v < c.Space() && w < c.Space()
    ensures StopAt(c, mem, v).Some?
    ensures var s := StopAt(c, mem, v).value;
      && InTree(mem, own, s) && !PointsDown(Get(mem, s), s.level) && 1 <= s.level <= 4
      && (StopAt(c, mem, w) == Some(s) <==> At(v, s.level) == At(w, s.level))
      && LeafAt(c, mem, v) == Leaf(s.level, Get(mem, s))
  {
    StopPlace(mem, own, c.Top(), c.root, c.Top(), c.root, v);
    StopShared(mem, own, c.Top(), c.root, c.Top(), c.root, v, w);
    var s := StopAt(c, mem, v).value;
    TreeOf(mem, own, c.Top(), c.root, s.table, s.index);
  }

  /** A page that is mapped is mapped by a leaf of one of the three page sizes. */
  lemma FoundIs(c: Context, mem: Tables, own: map<nat, Place>, v: nat)
    requires Tree(mem, own, c.Top(), c.root) && v < c.Space() && Flat(c, mem, v).Some?
    ensures Find(mem, c.Top(), c.root, v) == StopAt(c, mem, v) && StopAt(c, mem, v).Some?
    ensures 1 <= LevelAt(c, mem, v) <= 3 && (LevelAt(c, mem, v) > 1 ==> LeafAt(c, mem, v).e.ps)
  {
    StopIs(c, mem, own, v, v);
  }

  lemma Within(page: nat, level: nat, w: nat)
    requires 1 <= level <= 3
    ensures page % Span(level) == 0 ==> (At(page, level) == At(w, level) <==> page <= w < page + Span(level))
    ensures w > page && At(w, level) != At(page, level) && At(w - 1, level) == At(page, level) ==>
      w % Span(level) == 0
    ensures w > page && page % Span(level) == 0 && w - page < Span(level) ==>
      At(w - 1, level) == At(page, level) && w % Span(level) != 0
    ensures w > 0 && w % Span(level) != 0 ==> At(w - 1, level) == At(w, level)
    ensures level > 1 && page % Span(level) == 0 ==> page % Span(level - 1) == 0
  {
    if level == 1 {
      assert page % 1 == 0 && w % 1 == 0;
    } else if level == 2 {
      Blocks(page, 512, w);
      assert page % 1 == 0;
    } else {
      Blocks(page, 262144, w);
      WholeLarge(page);
    }
  }

  lemma WholeLarge(page: nat)
    ensures page % 262144 == 0 ==> page % 512 == 0
  {
    if page % 262144 == 0 { assert page == 512 * (512 * (page / 262144)); }
  }

  lemma Blocks(page: nat, n: nat, w: nat)
    requires n == 512 || n == 262144
    ensures page % n == 0 ==> (page / n == w / n <==> page <= w < page + n)
    ensures w > 0 && w % n != 0 ==> (w - 1) / n == w / n
    ensures w > 0 && (w - 1) / n != w / n ==> w % n == 0
    ensures w > page && page % n == 0 && w - page < n ==> (w - 1) / n == page / n && w % n != 0
  {
    if n == 512 {
    } else {
    }
  }

  // ---------------------------------------------------------------- one entry rewritten, one leaf split

  /** Rewriting the entry where page's way ends: its pages get the new entry, no other page is affected. */
  lemma SetLeaf(c: Context, mem: Tables, own: map<nat, Place>, page: nat, s: Slot, e: Entry, w: nat)
    requires Tree(mem, own, c.Top(), c.root) && page < c.Space() && w < c.Space()
    requires StopAt(c, mem, page) == Some(s) && !PointsDown(e, s.level)
    ensures InTree(mem, own, s) && Tree(Set(mem, s, e), own, c.Top(), c.root)
    ensures StopAt(c, Set(mem, s, e), w) == StopAt(c, mem, w)
    ensures LeafAt(c, Set(mem, s, e), w)
         == if StopAt(c, mem, w) == Some(s) then Leaf(s.level, e) else LeafAt(c, mem, w)
  {
    StopIs(c, mem, own, page, w);
    StopIs(c, mem, own, w, w);
    TreeSet(mem, own, c.Top(), c.root, s, e);
    StopSet(mem, own, c.Top(), c.root, s, e, c.Top(), c.root, w);
    SetElsewhere(mem, own, s, StopAt(c, mem, w).value, e);
  }

  lemma SetElsewhere(mem: Tables, own: map<nat, Place>, s: Slot, r: Slot, e: Entry)
    requires InTree(mem, own, s) && InTree(mem, own, r)
    ensures Get(Set(mem, s, e), r) == if r == s then e else Get(mem, r)
  {
  }

  /** Splitting a leaf: each of its pages gets its entry of the new table, no other page is affected. */
  lemma SplitLeaves(c: Context, mem: Tables, own: map<nat, Place>, page: nat, s: Slot, p: nat, w: nat)
    requires Tree(mem, own, c.Top(), c.root) && page < c.Space() && w < c.Space() && p != 0 && p !in mem
    requires StopAt(c, mem, page) == Some(s) && 2 <= s.level <= 3
    ensures InTree(mem, own, s)
    ensures Tree(Split(mem, s, s.level, p), own[p := Place(s.level - 1, Position(own, s))], c.Top(), c.root)
    ensures LeafAt(c, Split(mem, s, s.level, p), w)
         == if StopAt(c, mem, w) == Some(s) then Leaf(s.level - 1, Kid(Get(mem, s), s.level, Index(w, s.level - 1)))
            else LeafAt(c, mem, w)
  {
    var e := Get(mem, s);
    StopIs(c, mem, own, page, w);
    StopIs(c, mem, own, w, w);
    assert Grows(mem, own, s, Parent(e, p), p, Kids(e, s.level));
    TreeGrow(mem, own, c.Top(), c.root, s, Parent(e, p), p, Kids(e, s.level));
    StopGrow(mem, own, c.Top(), c.root, s, Parent(e, p), p, Kids(e, s.level), c.Top(), c.root, w);
    SplitElsewhere(mem, own, s, StopAt(c, mem, w).value, p);
  }

  lemma SplitElsewhere(mem: Tables, own: map<nat, Place>, s: Slot, r: Slot, p: nat)
    requires InTree(mem, own, s) && InTree(mem, own, r) && p !in mem && s.level >= 2
    ensures r != s ==> Get(Split(mem, s, s.level, p), r) == Get(mem, r)
    ensures forall k {:trigger Slot(p, k, s.level - 1)} :: 0 <= k < 512 ==>
      Get(Split(mem, s, s.level, p), Slot(p, k, s.level - 1)) == Kid(Get(mem, s), s.level, k)
  {
  }

  // ---------------------------------------------------------------- how many splits

  ghost function One(b: bool): nat { if b then 1 else 0 }

  /** How often a leaf at this level has to be split for a boundary at `cut` to fall between leaves. */
  ghost function Cut(level: nat, cut: nat): nat {
    One(level == 3 && cut % 262144 != 0) + One((level == 2 || level == 3) && cut % 512 != 0)
  }

  /** The splits that boundaries at page and at end, in the same leaf, have in common. */
  ghost function Shared(level: nat, page: nat, end: nat): nat
    requires page < end
  {
    One(level == 3 && page % 262144 != 0 && end % 262144 != 0)
    + One((level == 2 || level == 3) && page % 512 != 0 && end % 512 != 0 && page / 512 == (end - 1) / 512)
  }

  /** The splits for both boundaries, with leaves at level p and q on them. */
  ghost function CutBoth(p: nat, q: nat, page: nat, end: nat): int
    requires page < end
  {
    Cut(p, page) + Cut(q, end) - if At(page, p) == At(end - 1, p) then Shared(p, page, end) else 0
  }

  /** The number of leaves that have to be split for the range from page to end to begin and end between leaves. */
  ghost function Splits(c: Context, mem: Tables, page: nat, end: nat): int {
    if page < end then CutBoth(LevelAt(c, mem, page), LevelAt(c, mem, end - 1), page, end) else 0
  }

  lemma SplitsBound(c: Context, mem: Tables, own: map<nat, Place>, page: nat, end: nat)
    requires Tree(mem, own, c.Top(), c.root) && page < end <= c.Space()
    ensures 0 <= Splits(c, mem, page, end) <= 4
  {
    StopIs(c, mem, own, page, end - 1);
    StopIs(c, mem, own, end - 1, end - 1);
  }

  /** No split is needed exactly when the range begins where its first leaf does and ends where its last leaf ends. */
  lemma NoSplitIff(c: Context, mem: Tables, own: map<nat, Place>, page: nat, end: nat)
    requires Tree(mem, own, c.Top(), c.root) && page < end <= c.Space()
    requires LevelAt(c, mem, page) <= 3 && LevelAt(c, mem, end - 1) <= 3
    ensures Splits(c, mem, page, end) == 0 <==>
      page % Span(LevelAt(c, mem, page)) == 0 && end % Span(LevelAt(c, mem, end - 1)) == 0
  {
    StopIs(c, mem, own, page, end - 1);
    StopIs(c, mem, own, end - 1, end - 1);
    NoCutIff(LevelAt(c, mem, page), LevelAt(c, mem, end - 1), page, end);
  }

  /** So a range that cuts no leaf needs no page, and four pages are enough for any. */
  lemma FourPagesAreEnough(c: Context, mem: Tables, own: map<nat, Place>, first: nat, end: nat, allocate: bool,
                           free: nat)
    requires Tree(mem, own, c.Top(), c.root) && first < end <= c.Space()
    requires LevelAt(c, mem, first) <= 3 && LevelAt(c, mem, end - 1) <= 3
    requires (allocate && free >= 4)
          || (first % Span(LevelAt(c, mem, first)) == 0 && end % Span(LevelAt(c, mem, end - 1)) == 0)
    ensures Splits(c, mem, first, end) <= (if allocate then free else 0)
  {
    SplitsBound(c, mem, own, first, end);
    NoSplitIff(c, mem, own, first, end);
  }

  lemma NoCutIff(p: nat, q: nat, page: nat, end: nat)
    requires page < end && 1 <= p <= 3 && 1 <= q <= 3 && (At(page, p) == At(end - 1, p) ==> p == q)
    ensures CutBoth(p, q, page, end) == 0 <==> page % Span(p) == 0 && end % Span(q) == 0
  {
    Within(page, p, page);
    Within(end, q, end);
    assert page % 1 == 0 && end % 1 == 0;
    if page % 262144 == 0 { assert page == 512 * (512 * (page / 262144)); }
    if end % 262144 == 0 { assert end == 512 * (512 * (end / 262144)); }
  }

  /** A leaf that has to be split counts. */
  lemma NeedsPage(c: Context, mem: Tables, own: map<nat, Place>, page: nat, end: nat)
    requires Tree(mem, own, c.Top(), c.root) && page < end <= c.Space() && 2 <= LevelAt(c, mem, page) <= 3
    requires var n := Span(LevelAt(c, mem, page)); page % n != 0 || end - page < n
    ensures Splits(c, mem, page, end) >= 1
  {
    StopIs(c, mem, own, page, end - 1);
    Within(page, LevelAt(c, mem, page), end);
  }

  /** The leaf after a leaf starts where that one ends. */
  lemma NextLeafIsAligned(c: Context, mem: Tables, own: map<nat, Place>, page: nat, next: nat)
    requires Tree(mem, own, c.Top(), c.root) && page < next < c.Space() && LevelAt(c, mem, page) <= 3
    requires page % Span(LevelAt(c, mem, page)) == 0 && next == page + Span(LevelAt(c, mem, page))
    ensures LevelAt(c, mem, next) <= 3 ==> next % Span(LevelAt(c, mem, next)) == 0
  {
    var l, m := LevelAt(c, mem, page), LevelAt(c, mem, next);
    StopIs(c, mem, own, next, next - 1);
    StopIs(c, mem, own, page, next - 1);
    StopIs(c, mem, own, page, next);
    Within(page, l, next - 1);
    Within(page, l, next);
    if m <= 3 { Within(page, m, next); }
  }

  /** Rewriting an aligned leaf and going on behind it leaves the splits to come as they were. */
  lemma ConvertSplits(c: Context, mem: Tables, own: map<nat, Place>, page: nat, s: Slot, e: Entry, end: nat)
    requires Tree(mem, own, c.Top(), c.root) && page < end <= c.Space() && StopAt(c, mem, page) == Some(s)
    requires s.level <= 3 && page % Span(s.level) == 0 && !PointsDown(e, s.level) && page + Span(s.level) <= end
    ensures InTree(mem, own, s)
    ensures Splits(c, Set(mem, s, e), page + Span(s.level), end) == Splits(c, mem, page, end)
  {
    if page + Span(s.level) < end {
      ConvertGoesOn(c, mem, own, page, s, e, end);
    } else {
      ConvertEnds(c, mem, own, page, s, end);
    }
  }

  lemma ConvertGoesOn(c: Context, mem: Tables, own: map<nat, Place>, page: nat, s: Slot, e: Entry, end: nat)
    requires Tree(mem, own, c.Top(), c.root) && page < end <= c.Space() && StopAt(c, mem, page) == Some(s)
    requires s.level <= 3 && page % Span(s.level) == 0 && !PointsDown(e, s.level) && page + Span(s.level) < end
    ensures InTree(mem, own, s)
    ensures Splits(c, Set(mem, s, e), page + Span(s.level), end) == Splits(c, mem, page, end)
  {
    var next := page + Span(s.level);
    SameLevel(c, mem, own, page, s, e, next);
    SameLevel(c, mem, own, page, s, e, end - 1);
    StopIs(c, mem, own, page, page);
    NextLeafIsAligned(c, mem, own, page, next);
    StopIs(c, mem, own, next, next);
    if LevelAt(c, mem, next) <= 3 { AlignedCut(LevelAt(c, mem, next), next); }
    AlignedCut(s.level, page);
    AlignedBoth(s.level, LevelAt(c, mem, end - 1), page, end);
    AlignedBoth(LevelAt(c, mem, next), LevelAt(c, mem, end - 1), next, end);
  }

  lemma ConvertEnds(c: Context, mem: Tables, own: map<nat, Place>, page: nat, s: Slot, end: nat)
    requires Tree(mem, own, c.Top(), c.root) && page < end <= c.Space() && StopAt(c, mem, page) == Some(s)
    requires s.level <= 3 && page % Span(s.level) == 0 && page + Span(s.level) == end
    ensures InTree(mem, own, s) && Splits(c, mem, page, end) == 0
  {
    StopIs(c, mem, own, page, end - 1);
    Within(page, s.level, end - 1);
    EndOfSpan(page, s.level);
    AlignedCut(s.level, end);
    AlignedCut(s.level, page);
    AlignedBoth(s.level, s.level, page, end);
  }

  lemma AlignedBoth(p: nat, q: nat, page: nat, end: nat)
    requires page < end && Cut(p, page) == 0
    ensures CutBoth(p, q, page, end) == Cut(q, end)
  {
  }

  lemma AlignedCut(level: nat, cut: nat)
    requires 1 <= level <= 3 && cut % Span(level) == 0
    ensures Cut(level, cut) == 0 && (level >= 2 ==> cut % 512 == 0)
  {
    if level == 3 { assert cut == 512 * (512 * (cut / 262144)); }
  }

  /** Each split is one of those to come, and lowers the level at the base. */
  lemma SplitSplits(c: Context, mem: Tables, own: map<nat, Place>, page: nat, s: Slot, p: nat, end: nat)
    requires Tree(mem, own, c.Top(), c.root) && page < end <= c.Space() && p != 0 && p !in mem
    requires StopAt(c, mem, page) == Some(s) && 2 <= s.level <= 3
    requires page % Span(s.level) != 0 || end - page < Span(s.level)
    ensures InTree(mem, own, s) && LevelAt(c, Split(mem, s, s.level, p), page) == s.level - 1
    ensures Splits(c, Split(mem, s, s.level, p), page, end) + 1 == Splits(c, mem, page, end)
  {
    LevelSplit(c, mem, own, page, s, p, page);
    LevelSplit(c, mem, own, page, s, p, end - 1);
    StopIs(c, mem, own, page, end - 1);
    EndInSlot(c, mem, own, page, s, end);
    CutSum(s.level, LevelAt(c, mem, end - 1), page, end);
  }

  lemma LevelSplit(c: Context, mem: Tables, own: map<nat, Place>, page: nat, s: Slot, p: nat, w: nat)
    requires Tree(mem, own, c.Top(), c.root) && page < c.Space() && w < c.Space() && p != 0 && p !in mem
    requires StopAt(c, mem, page) == Some(s) && 2 <= s.level <= 3
    ensures InTree(mem, own, s) && LevelAt(c, mem, page) == s.level
    ensures StopAt(c, mem, w) == Some(s) ==> LevelAt(c, mem, w) == s.level
    ensures LevelAt(c, Split(mem, s, s.level, p), w)
         == if StopAt(c, mem, w) == Some(s) then s.level - 1 else LevelAt(c, mem, w)
  {
    SplitLeaves(c, mem, own, page, s, p, w);
  }

  /** A range too short for its first leaf ends in it. */
  lemma EndInSlot(c: Context, mem: Tables, own: map<nat, Place>, page: nat, s: Slot, end: nat)
    requires Tree(mem, own, c.Top(), c.root) && page < end <= c.Space() && StopAt(c, mem, page) == Some(s)
    requires 2 <= s.level <= 3
    ensures page % Span(s.level) == 0 && end - page < Span(s.level) ==>
      StopAt(c, mem, end - 1) == Some(s) && end % Span(s.level) != 0
  {
    StopIs(c, mem, own, page, end - 1);
    Within(page, s.level, end);
  }

  lemma CutSum(level: nat, last: nat, page: nat, end: nat)
    requires 2 <= level <= 3 && page < end && (At(page, level) == At(end - 1, level) ==> last == level)
    requires page % Span(level) != 0 || (At(page, level) == At(end - 1, level) && end % Span(level) != 0)
    ensures var same := At(page, level) == At(end - 1, level);
      CutBoth(level - 1, if same then level - 1 else last, page, end) + 1 == CutBoth(level, last, page, end)
  {
    if level == 3 && At(page, 2) == At(end - 1, 2) { SameUp(page, end - 1, 2, 3); }
  }

  // ---------------------------------------------------------------- what a call has done so far

  /** What has become of page v when the pages of [first, page) have been converted: its leaf has been split some
      levels down or not at all, and is rewritten if the page is one of them. */
  ghost predicate Account(c: Context, r: Request, was: Tables, now: Tables, first: nat, page: nat, v: nat) {
    var l, m := LeafAt(c, was, v), LeafAt(c, now, v);
    && 1 <= m.level <= l.level <= 4
    && (m.level < l.level || first <= v < page ==> l.level <= 3 && l.Maps(v).Some?)
    && m == if first <= v < page then Rewritten(c, r, Piece(l, m.level, v)) else Piece(l, m.level, v)
  }

  ghost function Rewritten(c: Context, r: Request, l: Leaf): Leaf { l.(e := Convert(c.xd, r, l.e)) }

  lemma RewrittenPiece(c: Context, r: Request, l: Leaf, level: nat, v: nat)
    ensures Piece(Rewritten(c, r, l), level, v) == Rewritten(c, r, Piece(l, level, v))
  {
  }

  ghost predicate Accounts(c: Context, r: Request, was: Tables, now: Tables, first: nat, page: nat) {
    forall v: nat {:trigger Account(c, r, was, now, first, page, v)} :: v < c.Space() ==>
      Account(c, r, was, now, first, page, v)
  }

  /** A boundary at b falls inside the 2MB from page v on. */
  predicate CutsAt(b: nat, v: nat) { v < b < v + 512 }

  /** Leaves of more than 4KB have become ones of 4KB only where the range begins or ends. */
  ghost predicate CutWhere(c: Context, was: Tables, now: Tables, first: nat, end: nat, v: nat) {
    v % 512 == 0 && LevelAt(c, now, v) == 1 && LevelAt(c, was, v) > 1 ==> CutsAt(first, v) || CutsAt(end, v)
  }

  ghost predicate CutsWhere(c: Context, was: Tables, now: Tables, first: nat, end: nat) {
    forall v: nat {:trigger CutWhere(c, was, now, first, end, v)} :: v < c.Space() ==>
      CutWhere(c, was, now, first, end, v)
  }

  /** The part converted begins and ends between leaves. */
  ghost predicate Edges(c: Context, now: Tables, first: nat, page: nat) {
    first < page ==>
      && page <= c.Space() && LevelAt(c, now, first) <= 3 && first % Span(LevelAt(c, now, first)) == 0
      && LevelAt(c, now, page - 1) <= 3 && page % Span(LevelAt(c, now, page - 1)) == 0
      && (page < c.Space() && LevelAt(c, now, page) <= 3 ==> page % Span(LevelAt(c, now, page)) == 0)
  }

  ghost predicate Sofar(c: Context, r: Request, was: Tables, now: Tables, first: nat, page: nat, end: nat) {
    && Accounts(c, r, was, now, first, page) && CutsWhere(c, was, now, first, end)
    && forall p {:trigger Edges(c, now, first, p)} :: p == page ==> Edges(c, now, first, p)
  }

  lemma NothingYet(c: Context, r: Request, was: Tables, own: map<nat, Place>, first: nat, end: nat)
    requires Tree(was, own, c.Top(), c.root)
    ensures Sofar(c, r, was, was, first, first, end)
  {
    forall v: nat | v < c.Space() ensures Account(c, r, was, was, first, first, v) { StopIs(c, was, own, v, v); }
  }

  lemma UnderwayIs(c: Context, r: Request, was: Tables, mem: Tables, own: map<nat, Place>, free: seq<nat>, first: nat,
                   page: nat, end: nat)
    requires Underway(c, r, was, mem, own, free, first, page, end)
    ensures Progress(c, mem, own, free, end) && Sofar(c, r, was, mem, first, page, end) && first <= page <= end
    ensures NoCutHole(c, was, first, page, end)
  {
    assert Kept(c, r, was, mem, own, free, first, page, end);
  }

  /** What a turn does to the counts. */
  ghost predicate Turned(c: Context, allocate: bool, mem: Tables, free: seq<nat>, mem': Tables, free': seq<nat>,
                         page: nat, n: nat, end: nat, ok: bool, m: bool) {
    forall p {:trigger Counted(c, allocate, mem, free, mem', free', p, n, end, ok, m)} :: p == page ==>
      Counted(c, allocate, mem, free, mem', free', p, n, end, ok, m)
  }

  ghost predicate Counted(c: Context, allocate: bool, mem: Tables, free: seq<nat>, mem': Tables, free': seq<nat>,
                          page: nat, n: nat, end: nat, ok: bool, m: bool) {
    && page < end && page + n <= end
    && |free'| + Splits(c, mem, page, end) == |free| + Splits(c, mem', page + n, end)
    && (if ok && n == 0 then allocate && m && |free'| < |free| else free' == free)
    && |mem'| + |free'| == |mem| + |free| && (!ok ==> n == 0 && !m) && (!m ==> mem' == mem)
  }

  /** What it does to the leaves, when it converts one. */
  ghost predicate Moved(c: Context, r: Request, mem: Tables, mem': Tables, page: nat, n: nat, m: bool) {
    n > 0 ==> SameLevels(c, mem, mem') && (m ==> Changes(c, r, mem, page))
  }

  lemma NoTurn(c: Context, allocate: bool, mem: Tables, free: seq<nat>, page: nat, end: nat)
    requires page < end
    ensures Turned(c, allocate, mem, free, mem, free, page, 0, end, false, false)
  {
  }

  lemma LeafTurn(c: Context, allocate: bool, mem: Tables, free: seq<nat>, mem': Tables, page: nat, n: nat, end: nat,
                 m: bool)
    requires page < end && n > 0 && page + n <= end && Splits(c, mem', page + n, end) == Splits(c, mem, page, end)
    requires |mem'| == |mem| && (!m ==> mem' == mem)
    ensures Turned(c, allocate, mem, free, mem', free, page, n, end, true, m)
  {
  }

  lemma SplitTurn(c: Context, allocate: bool, mem: Tables, free: seq<nat>, mem': Tables, free': seq<nat>, page: nat,
                  end: nat, ok: bool)
    requires page < end
    requires if ok then allocate && |mem'| == |mem| + 1 && |free'| + 1 == |free|
                        && Splits(c, mem', page, end) + 1 == Splits(c, mem, page, end)
             else mem' == mem && free' == free
    ensures Turned(c, allocate, mem, free, mem', free', page, 0, end, ok, ok)
  {
  }

  lemma GoesOn(c: Context, r: Request, was: Tables, mem: Tables, own: map<nat, Place>, free: seq<nat>, first: nat,
               page: nat, next: nat, end: nat)
    requires first <= page <= next <= end && NoCutHole(c, was, first, page, end) && NoCutHole(c, was, page, next, end)
    requires Progress(c, mem, own, free, end) && Sofar(c, r, was, mem, first, next, end)
    ensures Underway(c, r, was, mem, own, free, first, next, end)
  {
    NoCutHoleOn(c, was, first, page, next, end);
    assert Kept(c, r, was, mem, own, free, first, next, end);
  }

  lemma TallyOn(c: Context, allocate: bool, was: Tables, had: nat, mem: Tables, free: seq<nat>, mem': Tables,
                free': seq<nat>, first: nat, page: nat, n: nat, end: nat, split: bool, modified: bool, ok: bool,
                m: bool)
    requires Tally(c, allocate, was, had, mem, free, first, page, end, split, modified)
    requires Turned(c, allocate, mem, free, mem', free', page, n, end, ok, m)
    ensures Tally(c, allocate, was, had, mem', free', first, page + n, end, split || (ok && n == 0), modified || m)
    ensures page + n <= end && (ok && n == 0 ==> m && |free'| < |free|) && (!ok ==> n == 0 && !m)
    ensures !ok ==> mem' == mem
  {
    assert Counted(c, allocate, mem, free, mem', free', page, n, end, ok, m);
    assert Tallied(c, allocate, was, had, mem, free, first, page, end, split, modified);
    assert Tallied(c, allocate, was, had, mem', free', first, page + n, end, split || (ok && n == 0), modified || m);
  }

  lemma NoCutHoleOn(c: Context, was: Tables, first: nat, page: nat, next: nat, end: nat)
    requires NoCutHole(c, was, first, page, end) && NoCutHole(c, was, page, next, end)
    ensures NoCutHole(c, was, first, next, end)
  {
  }

  lemma ReportsOn(c: Context, r: Request, was: Tables, mem: Tables, own: map<nat, Place>, free: seq<nat>,
                  mem': Tables, first: nat, page: nat, n: nat, end: nat, split: bool, modified: bool, ok: bool, m: bool)
    requires Reports(c, r, was, mem, first, page, split, modified)
    requires Underway(c, r, was, mem, own, free, first, page, end) && page < end && page + n <= end
    requires Moved(c, r, mem, mem', page, n, m)
    requires (!ok ==> n == 0 && !m) && (ok && n == 0 ==> m) && (n == 0 && !ok ==> mem' == mem)
    ensures Reports(c, r, was, mem', first, page + n, split || (ok && n == 0), modified || m)
  {
    assert Reported(c, r, was, mem, first, page, split, modified);
    UnderwayIs(c, r, was, mem, own, free, first, page, end);
    if n > 0 {
      if modified && !split { TouchedOn(c, r, was, first, page, page + n); }
      if m && !split {
        StillAsItWas(c, r, was, mem, first, page, end);
        assert Changes(c, r, was, page);
      }
      if !split { SameLevelsOn(c, was, mem, mem'); }
    }
  }

  lemma SameLevelsOn(c: Context, was: Tables, mem: Tables, mem': Tables)
    requires SameLevels(c, was, mem) && SameLevels(c, mem, mem')
    ensures SameLevels(c, was, mem')
  {
  }

  lemma TouchedOn(c: Context, r: Request, was: Tables, first: nat, page: nat, next: nat)
    requires Touched(c, r, was, first, page) && page <= next
    ensures Touched(c, r, was, first, next)
  {
  }

  lemma Begins(c: Context, r: Request, allocate: bool, was: Tables, own: map<nat, Place>, free: seq<nat>, first: nat,
               end: nat)
    requires first <= end && Progress(c, was, own, free, end)
    ensures Underway(c, r, was, was, own, free, first, first, end)
    ensures Tally(c, allocate, was, |free|, was, free, first, first, end, false, false)
    ensures Reports(c, r, was, was, first, first, false, false)
  {
    NothingYet(c, r, was, own, first, end);
    assert Kept(c, r, was, was, own, free, first, first, end);
    assert Tallied(c, allocate, was, |free|, was, free, first, first, end, false, false);
  }

  // ---------------------------------------------------------------- a leaf converted

  lemma ConvertAccount(c: Context, r: Request, was: Tables, now: Tables, own: map<nat, Place>, first: nat, page: nat,
                       s: Slot, v: nat)
    requires Tree(now, own, c.Top(), c.root) && first <= page < c.Space() && v < c.Space()
    requires Find(now, c.Top(), c.root, page) == Some(s) && page % Span(s.level) == 0
    requires Account(c, r, was, now, first, page, v)
    ensures InTree(now, own, s) && s.level <= 3 && !PointsDown(Convert(c.xd, r, Get(now, s)), s.level)
    ensures Account(c, r, was, Set(now, s, Convert(c.xd, r, Get(now, s))), first, page + Span(s.level), v)
  {
    StopIs(c, now, own, page, v);
    StopIs(c, now, own, v, v);
    SetLeaf(c, now, own, page, s, Convert(c.xd, r, Get(now, s)), v);
    Within(page, s.level, v);
    var l, m := LeafAt(c, was, v), LeafAt(c, now, v);
    if StopAt(c, now, v) == Some(s) {
      PieceIsHole(l, m.level, v);
      SlotIsNoHole(c, now, own, page, s, v);
    }
  }

  /** A slot found for one page is found for all of its pages. */
  lemma SlotIsNoHole(c: Context, mem: Tables, own: map<nat, Place>, page: nat, s: Slot, v: nat)
    requires Tree(mem, own, c.Top(), c.root) && page < c.Space() && v < c.Space()
    requires Find(mem, c.Top(), c.root, page) == Some(s) && StopAt(c, mem, v) == Some(s)
    ensures LeafAt(c, mem, v).Maps(v).Some?
  {
    StopIs(c, mem, own, page, v);
  }

  /** An untouched hole is a hole. */
  lemma PieceIsHole(l: Leaf, level: nat, v: nat)
    requires 1 <= level <= l.level <= 4 && (level < l.level ==> l.Maps(v).Some?) && Piece(l, level, v).Maps(v).Some?
    ensures l.Maps(v).Some?
  {
  }

  lemma ConvertSofar(c: Context, r: Request, was: Tables, now: Tables, own: map<nat, Place>, first: nat, page: nat,
                     s: Slot, end: nat)
    requires Tree(now, own, c.Top(), c.root) && first <= page < c.Space() && Sofar(c, r, was, now, first, page, end)
    requires Find(now, c.Top(), c.root, page) == Some(s) && page % Span(s.level) == 0
    requires page + Span(s.level) <= end <= c.Space()
    ensures InTree(now, own, s) && s.level <= 3 && !PointsDown(Convert(c.xd, r, Get(now, s)), s.level)
    ensures Sofar(c, r, was, Set(now, s, Convert(c.xd, r, Get(now, s))), first, page + Span(s.level), end)
  {
    var e, next := Convert(c.xd, r, Get(now, s)), page + Span(s.level);
    assert Account(c, r, was, now, first, page, page) && CutWhere(c, was, now, first, end, page);
    ConvertPage(c, r, was, now, own, first, page, s, end, page);
    forall v: nat | v < c.Space()
      ensures Account(c, r, was, Set(now, s, e), first, next, v) && CutWhere(c, was, Set(now, s, e), first, end, v)
    {
      ConvertPage(c, r, was, now, own, first, page, s, end, v);
    }
    ConvertEdges(c, now, own, first, page, s, e);
  }

  lemma ConvertPage(c: Context, r: Request, was: Tables, now: Tables, own: map<nat, Place>, first: nat, page: nat,
                    s: Slot, end: nat, v: nat)
    requires Tree(now, own, c.Top(), c.root) && first <= page < c.Space() && v < c.Space()
    requires Find(now, c.Top(), c.root, page) == Some(s) && page % Span(s.level) == 0
    requires Account(c, r, was, now, first, page, v) && CutWhere(c, was, now, first, end, v)
    ensures InTree(now, own, s) && s.level <= 3 && !PointsDown(Convert(c.xd, r, Get(now, s)), s.level)
    ensures var now' := Set(now, s, Convert(c.xd, r, Get(now, s)));
      Account(c, r, was, now', first, page + Span(s.level), v) && CutWhere(c, was, now', first, end, v)
  {
    ConvertAccount(c, r, was, now, own, first, page, s, v);
    SameLevel(c, now, own, page, s, Convert(c.xd, r, Get(now, s)), v);
  }

  lemma SameLevel(c: Context, mem: Tables, own: map<nat, Place>, page: nat, s: Slot, e: Entry, v: nat)
    requires Tree(mem, own, c.Top(), c.root) && page < c.Space() && v < c.Space()
    requires StopAt(c, mem, page) == Some(s) && !PointsDown(e, s.level)
    ensures InTree(mem, own, s) && LevelAt(c, Set(mem, s, e), v) == LevelAt(c, mem, v)
  {
    SetLeaf(c, mem, own, page, s, e, v);
  }

  lemma ConvertEdges(c: Context, mem: Tables, own: map<nat, Place>, first: nat, page: nat, s: Slot, e: Entry)
    requires Tree(mem, own, c.Top(), c.root) && first <= page < c.Space() && Edges(c, mem, first, page)
    requires StopAt(c, mem, page) == Some(s) && s.level <= 3 && !PointsDown(e, s.level) && page % Span(s.level) == 0
    requires page + Span(s.level) <= c.Space()
    ensures InTree(mem, own, s) && Edges(c, Set(mem, s, e), first, page + Span(s.level))
  {
    var next := page + Span(s.level);
    SameLevel(c, mem, own, page, s, e, first);
    SameLevel(c, mem, own, page, s, e, next - 1);
    StopIs(c, mem, own, page, next - 1);
    Within(page, s.level, next - 1);
    EndOfSpan(page, s.level);
    if next < c.Space() {
      SameLevel(c, mem, own, page, s, e, next);
      NextLeafIsAligned(c, mem, own, page, next);
    }
  }

  lemma EndOfSpan(page: nat, level: nat)
    requires 1 <= level <= 3 && page % Span(level) == 0
    ensures (page + Span(level)) % Span(level) == 0
  {
  }

  // ---------------------------------------------------------------- a leaf split

  lemma SplitAccount(c: Context, r: Request, was: Tables, now: Tables, own: map<nat, Place>, first: nat, page: nat,
                     s: Slot, p: nat, v: nat)
    requires Tree(now, own, c.Top(), c.root) && first <= page < c.Space() && v < c.Space() && p != 0 && p !in now
    requires Find(now, c.Top(), c.root, page) == Some(s) && 2 <= s.level && Account(c, r, was, now, first, page, v)
    ensures InTree(now, own, s) && s.level <= 3
    ensures Account(c, r, was, Split(now, s, s.level, p), first, page, v)
  {
    StopIs(c, now, own, page, v);
    SplitLeaves(c, now, own, page, s, p, v);
    if StopAt(c, now, v) == Some(s) {
      SlotIsNoHole(c, now, own, page, s, v);
      SplitPiece(c, r, LeafAt(c, was, v), LeafAt(c, now, v), first <= v < page, v);
    }
  }

  lemma SplitPiece(c: Context, r: Request, l: Leaf, m: Leaf, done: bool, v: nat)
    requires 2 <= m.level <= l.level <= 3 && (m.level < l.level ==> l.Maps(v).Some?)
    requires m == if done then Rewritten(c, r, Piece(l, m.level, v)) else Piece(l, m.level, v)
    requires m.Maps(v).Some? && (done ==> l.Maps(v).Some?)
    ensures l.Maps(v).Some?
    ensures Leaf(m.level - 1, Kid(m.e, m.level, Index(v, m.level - 1)))
         == if done then Rewritten(c, r, Piece(l, m.level - 1, v)) else Piece(l, m.level - 1, v)
  {
    KidIsPiece(m.e, m.level, v);
    if m.level < l.level { PieceOfPiece(l, v); }
    RewrittenPiece(c, r, Piece(l, m.level, v), m.level - 1, v);
  }

  /** A leaf of 2MB is split only where the range begins or ends in it. */
  lemma SplitWhere(c: Context, was: Tables, now: Tables, own: map<nat, Place>, first: nat, page: nat, s: Slot, p: nat,
                   end: nat, v: nat)
    requires Tree(now, own, c.Top(), c.root) && first <= page < end <= c.Space() && v < c.Space()
    requires p != 0 && p !in now && StopAt(c, now, page) == Some(s) && 2 <= s.level <= 3
    requires page % Span(s.level) != 0 || end - page < Span(s.level)
    requires CutWhere(c, was, now, first, end, v) && Edges(c, now, first, page)
    ensures InTree(now, own, s)
    ensures CutWhere(c, was, Split(now, s, s.level, p), first, end, v)
  {
    StopIs(c, now, own, page, v);
    LevelSplit(c, now, own, page, s, p, v);
    if StopAt(c, now, v) == Some(s) && s.level == 2 && v % 512 == 0 {
      assert At(v, 2) == At(page, 2);
      Within(v, 2, page);
      assert page != first ==> page % 512 == 0;
    }
  }

  lemma LowerStillDivides(n: nat, level: nat, lower: nat)
    requires 1 <= lower <= level <= 3 && n % Span(level) == 0
    ensures n % Span(lower) == 0
  {
    if level == 3 { Within(n, 3, n); }
    if level >= 2 && lower == 1 { assert n % 1 == 0; }
  }

  lemma SplitEdges(c: Context, now: Tables, own: map<nat, Place>, first: nat, page: nat, s: Slot, p: nat)
    requires Tree(now, own, c.Top(), c.root) && first <= page < c.Space() && Edges(c, now, first, page)
    requires p != 0 && p !in now && StopAt(c, now, page) == Some(s) && 2 <= s.level <= 3
    ensures InTree(now, own, s) && Edges(c, Split(now, s, s.level, p), first, page)
  {
    LevelSplit(c, now, own, page, s, p, page);
    if first < page {
      LevelSplit(c, now, own, page, s, p, first);
      LevelSplit(c, now, own, page, s, p, page - 1);
      StopIs(c, now, own, first, first);
      StopIs(c, now, own, page - 1, page - 1);
      LowerStillDivides(first, LevelAt(c, now, first), LevelAt(c, Split(now, s, s.level, p), first));
      LowerStillDivides(page, LevelAt(c, now, page - 1), LevelAt(c, Split(now, s, s.level, p), page - 1));
      LowerStillDivides(page, s.level, s.level - 1);
    }
  }

  lemma SplitSofar(c: Context, r: Request, was: Tables, now: Tables, own: map<nat, Place>, first: nat, page: nat,
                   s: Slot, p: nat, end: nat)
    requires Tree(now, own, c.Top(), c.root) && first <= page < end <= c.Space() && p != 0 && p !in now
    requires Sofar(c, r, was, now, first, page, end)
    requires Find(now, c.Top(), c.root, page) == Some(s) && 2 <= s.level
    requires page % Span(s.level) != 0 || end - page < Span(s.level)
    ensures InTree(now, own, s) && s.level <= 3
    ensures Sofar(c, r, was, Split(now, s, s.level, p), first, page, end)
  {
    assert Account(c, r, was, now, first, page, page);
    SplitAccount(c, r, was, now, own, first, page, s, p, page);
    forall v: nat | v < c.Space()
      ensures Account(c, r, was, Split(now, s, s.level, p), first, page, v)
      ensures CutWhere(c, was, Split(now, s, s.level, p), first, end, v)
    {
      assert Account(c, r, was, now, first, page, v) && CutWhere(c, was, now, first, end, v);
      SplitAccount(c, r, was, now, own, first, page, s, p, v);
      SplitWhere(c, was, now, own, first, page, s, p, end, v);
    }
    SplitEdges(c, now, own, first, page, s, p);
  }

  // ---------------------------------------------------------------- what the account means

  /** Page v was mapped and is no more: its entry has become one of zeros. */
  ghost predicate Lost(c: Context, was: Tables, now: Tables, v: nat) { Flat(c, was, v).Some? && Flat(c, now, v).None? }

  /** What is asked of page v, of the n from `first` on. */
  ghost function Expected(c: Context, r: Request, was: Tables, first: nat, n: nat, v: nat): Mapping
    requires Flat(c, was, v).Some?
  {
    if first <= v < first + n then Changed(c.xd, r, Flat(c, was, v).value) else Flat(c, was, v).value
  }

  /** Every page reads as asked, but for pages that are lost. */
  ghost predicate Assigned(c: Context, r: Request, was: Tables, now: Tables, first: nat, n: nat) {
    forall v: nat {:trigger Flat(c, now, v)} :: v < c.Space() && !Lost(c, was, now, v) ==>
      && (first <= v < first + n ==> Flat(c, was, v).Some?)
      && Flat(c, now, v) == if Flat(c, was, v).Some? then Some(Expected(c, r, was, first, n, v)) else None
  }

  /** Page v is not page 0, is to have frame 0 with neither P, RW nor NX, and has no other bit; and it is rewritten as
      a page of 4KB, or its 2MB are cut by the range, which goes on to `end`. */
  ghost predicate Endangered(c: Context, r: Request, was: Tables, first: nat, n: nat, end: nat, v: nat) {
    var l := LeafAt(c, was, v);
    && v != 0 && Flat(c, was, v).Some? && Expected(c, r, was, first, n, v) == Mapping(0, true, true, false)
    && !l.e.u && !l.e.a && !l.e.d
    && if l.level == 1 then first <= v < first + n && !l.e.ps && l.e.rest == 0 else CutsAt(first, v) || CutsAt(end, v)
  }

  lemma AccountReads(c: Context, r: Request, was: Tables, now: Tables, own: map<nat, Place>, first: nat, n: nat,
                     v: nat)
    requires Tree(was, own, c.Top(), c.root) && v < c.Space() && Account(c, r, was, now, first, first + n, v)
    ensures first <= v < first + n ==> Flat(c, was, v).Some?
    ensures Flat(c, was, v).None? ==> Flat(c, now, v).None?
    ensures Flat(c, was, v).Some? ==>
      Flat(c, now, v) == if LeafAt(c, now, v).e == ZERO && !(LeafAt(c, now, v).level == 1 && v == 0) then None
                         else Some(Expected(c, r, was, first, n, v))
  {
    var l, m := LeafAt(c, was, v), LeafAt(c, now, v);
    if l.Maps(v).Some? {
      FoundIs(c, was, own, v);
      PieceMapsAlike(l, m.level, v);
      ConvertMaps(c.xd, r, Piece(l, m.level, v).e, m.level, v);
    }
  }

  /** Which pages are lost: those that end in a 4KB page with the entry of zeros. */
  lemma LostIs(c: Context, r: Request, was: Tables, now: Tables, own: map<nat, Place>, first: nat, n: nat, v: nat)
    requires Tree(was, own, c.Top(), c.root) && v < c.Space() && Account(c, r, was, now, first, first + n, v)
    requires Flat(c, was, v).Some?
    ensures Lost(c, was, now, v) <==>
      && v != 0 && LevelAt(c, now, v) == 1 && Expected(c, r, was, first, n, v) == Mapping(0, true, true, false)
      && !LeafAt(c, was, v).e.u && !LeafAt(c, was, v).e.a && !LeafAt(c, was, v).e.d
      && (LevelAt(c, was, v) == 1 ==>
            first <= v < first + n && !LeafAt(c, was, v).e.ps && LeafAt(c, was, v).e.rest == 0)
  {
    var l, m := LeafAt(c, was, v), LeafAt(c, now, v);
    FoundIs(c, was, own, v);
    AccountReads(c, r, was, now, own, first, n, v);
    assert m.level > 1 ==> m.e.ps;
    if m.level == 1 && l.level > 1 {
      PieceFrame(l, v);
    }
  }

  lemma PieceFrame(l: Leaf, v: nat)
    requires 2 <= l.level <= 3
    ensures Piece(l, 1, v).e.addr == FrameBase(l.e, l.level) + v % Span(l.level)
    ensures Piece(l, 1, v).e.addr == 0 ==> v % 512 == 0
  {
    if l.level == 3 { LargeOffset(v); }
  }

  /** Once the whole range is converted, the 2MB that it begins or ends in have been split. */
  lemma CutIsSplit(c: Context, now: Tables, own: map<nat, Place>, first: nat, end: nat, v: nat)
    requires Tree(now, own, c.Top(), c.root) && first < end <= c.Space() && Edges(c, now, first, end)
    requires v < c.Space() && v % 512 == 0 && (CutsAt(first, v) || CutsAt(end, v))
    ensures LevelAt(c, now, v) == 1
  {
    if CutsAt(first, v) {
      SmallEdge(c, now, own, first, first, v);
    } else {
      SmallEdge(c, now, own, end - 1, end, v);
    }
  }

  /** A boundary at b that falls between leaves falls between leaves of 4KB if it is inside a 2MB. */
  lemma SmallEdge(c: Context, now: Tables, own: map<nat, Place>, w: nat, b: nat, v: nat)
    requires Tree(now, own, c.Top(), c.root) && w < c.Space() && v <= w < v + 512 && v % 512 == 0 && CutsAt(b, v)
    requires LevelAt(c, now, w) <= 3 && b % Span(LevelAt(c, now, w)) == 0
    ensures LevelAt(c, now, v) == 1
  {
    StopIs(c, now, own, w, w);
    InsideBlock(b, v);
    EdgeIsSmall(b, LevelAt(c, now, w));
    SmallNeighbour(c, now, own, v, w);
  }

  lemma InsideBlock(b: nat, v: nat)
    requires v % 512 == 0 && CutsAt(b, v)
    ensures b % 512 != 0
  {
  }

  lemma SmallNeighbour(c: Context, mem: Tables, own: map<nat, Place>, v: nat, w: nat)
    requires Tree(mem, own, c.Top(), c.root) && v <= w < v + 512 && w < c.Space() && v % 512 == 0
    requires LevelAt(c, mem, w) == 1
    ensures LevelAt(c, mem, v) == 1
  {
    StopIs(c, mem, own, w, w);
    StopIs(c, mem, own, v, w);
    if LevelAt(c, mem, v) >= 2 {
      Within(v, 2, w);
      SameUp(v, w, 2, LevelAt(c, mem, v));
      assert false;
    }
  }

  lemma EdgeIsSmall(b: nat, level: nat)
    requires 1 <= level <= 3 && b % Span(level) == 0 && b % 512 != 0
    ensures level == 1
  {
    if level == 3 { Within(b, 3, b); }
  }

  /** A page that is lost was endangered. */
  lemma LostIsEndangered(c: Context, r: Request, was: Tables, now: Tables, own: map<nat, Place>, first: nat, page: nat,
                         end: nat, v: nat)
    requires Tree(was, own, c.Top(), c.root) && first <= page && v < c.Space()
    requires Sofar(c, r, was, now, first, page, end) && Lost(c, was, now, v)
    ensures Endangered(c, r, was, first, page - first, end, v)
  {
    assert Account(c, r, was, now, first, page, v) && CutWhere(c, was, now, first, end, v);
    LostIs(c, r, was, now, own, first, page - first, v);
    FoundIs(c, was, own, v);
    if LevelAt(c, was, v) > 1 { PieceFrame(LeafAt(c, was, v), v); }
  }

  /** And where the whole range is converted, every endangered page is lost. */
  lemma EndangeredIsLost(c: Context, r: Request, was: Tables, now: Tables, own: map<nat, Place>, own': map<nat, Place>,
                         first: nat, end: nat, v: nat)
    requires Tree(was, own, c.Top(), c.root) && Tree(now, own', c.Top(), c.root) && first < end <= c.Space()
    requires v < c.Space() && Sofar(c, r, was, now, first, end, end)
    requires Endangered(c, r, was, first, end - first, end, v)
    ensures Lost(c, was, now, v)
  {
    assert Account(c, r, was, now, first, end, v);
    LostIs(c, r, was, now, own, first, end - first, v);
    FoundIs(c, was, own, v);
    if LevelAt(c, was, v) > 1 {
      PieceFrame(LeafAt(c, was, v), v);
      CutIsSplit(c, now, own', first, end, v);
    }
  }

  /** What a caller is told when the first `done` of n pages are converted: each of them reads as changed and every
      other page as before, or is lost; lost pages were endangered, and if all n pages are converted the lost pages
      are exactly the endangered ones. */
  ghost predicate Converted(c: Context, r: Request, was: Tables, now: Tables, first: nat, done: nat, n: nat) {
    && done <= n && Assigned(c, r, was, now, first, done) && LostOnly(c, r, was, now, first, done, first + n)
    && (done == n ==> LostAll(c, r, was, now, first, n, first + n))
  }

  /** The range ends in the large page that maps page v as its first, with frame 0, neither P, RW nor NX, and no other
      bit: once that page is split, the search finds a hole at v. */
  ghost predicate CutHole(c: Context, was: Tables, end: nat, v: nat) {
    var l := LeafAt(c, was, v);
    && v != 0 && v < end < v + 512 && l.level > 1 && Flat(c, was, v) == Some(Mapping(0, true, true, false))
    && !l.e.u && !l.e.a && !l.e.d
  }

  ghost predicate NoCutHole(c: Context, was: Tables, first: nat, page: nat, end: nat) {
    forall v {:trigger CutHole(c, was, end, v)} :: first <= v < page ==> !CutHole(c, was, end, v)
  }

  /** The search finds no hole in the range, neither one that is there nor one that a split leaves. */
  ghost predicate NoHole(c: Context, was: Tables, first: nat, end: nat) {
    forall v: nat {:trigger Flat(c, was, v)} :: first <= v < end ==> Flat(c, was, v).Some? && !CutHole(c, was, end, v)
  }

  /** A leaf that is found and converted is none of those. */
  lemma ConvertsNoHole(c: Context, r: Request, was: Tables, now: Tables, own: map<nat, Place>, first: nat, page: nat,
                       s: Slot, end: nat, v: nat)
    requires Tree(now, own, c.Top(), c.root) && first <= page <= v < c.Space() && end <= c.Space()
    requires Find(now, c.Top(), c.root, page) == Some(s) && 1 <= s.level <= 3 && page % Span(s.level) == 0
    requires v < page + Span(s.level) <= end && Account(c, r, was, now, first, page, v)
    ensures !CutHole(c, was, end, v)
  {
    if CutHole(c, was, end, v) {
      StopIs(c, now, own, page, v);
      Within(page, s.level, v);
      SlotIsNoHole(c, now, own, page, s, v);
      PieceFrame(LeafAt(c, was, v), v);
      CutPiece(LeafAt(c, was, v), s.level, v);
      if s.level >= 2 { LeafCoversBlock(page, s.level, v); }
    }
  }

  lemma ConvertsNoHoles(c: Context, r: Request, was: Tables, now: Tables, own: map<nat, Place>, first: nat, page: nat,
                        s: Slot, end: nat)
    requires Tree(now, own, c.Top(), c.root) && first <= page && end <= c.Space()
    requires Find(now, c.Top(), c.root, page) == Some(s) && page % Span(s.level) == 0
    requires page + Span(s.level) <= end && page < c.Space() && Sofar(c, r, was, now, first, page, end)
    ensures NoCutHole(c, was, page, page + Span(s.level), end)
  {
    FoundSlot(c, now, own, page, s);
    forall v | page <= v < page + Span(s.level) ensures !CutHole(c, was, end, v) {
      assert Account(c, r, was, now, first, page, v);
      ConvertsNoHole(c, r, was, now, own, first, page, s, end, v);
    }
  }

  /** A bare leaf of frame 0, cut down to 4KB, is a hole. */
  lemma CutPiece(l: Leaf, level: nat, v: nat)
    requires 1 <= level <= l.level <= 3 && l.level > 1 && v != 0 && l.Maps(v) == Some(Mapping(0, true, true, false))
    requires !l.e.u && !l.e.a && !l.e.d
    ensures v % 512 == 0
    ensures level == 1 ==> Piece(l, level, v).Maps(v).None?
  {
    PieceFrame(l, v);
  }

  lemma LeafCoversBlock(page: nat, level: nat, v: nat)
    requires 2 <= level <= 3 && page % Span(level) == 0 && page <= v < page + Span(level) && v % 512 == 0
    ensures v + 512 <= page + Span(level)
  {
    if level == 3 { assert page == 512 * (512 * (page / 262144)); }
  }

  /** When the loop comes to its end. */
  lemma HolesEndIt(c: Context, r: Request, was: Tables, now: Tables, own: map<nat, Place>, first: nat, done: nat,
                   end: nat)
    requires Tree(was, own, c.Top(), c.root) && first + done <= end <= c.Space() && first < end
    requires Converted(c, r, was, now, first, done, end - first)
    requires NoCutHole(c, was, first, first + done, end)
    ensures first + done == end ==> NoHole(c, was, first, end)
    ensures first + done < end && Flat(c, now, first + done).None? ==> !NoHole(c, was, first, end)
  {
    if first + done == end {
      forall v: nat | first <= v < end ensures Flat(c, was, v).Some? && !CutHole(c, was, end, v) {
        assert Flat(c, now, v) == Flat(c, now, v);
      }
    } else if Flat(c, now, first + done).None? {
      var v := first + done;
      if Flat(c, was, v).Some? {
        FoundIs(c, was, own, v);
        assert Lost(c, was, now, v);
        assert Endangered(c, r, was, first, done, end, v);
        assert CutHole(c, was, end, v);
      }
    }
  }

  lemma EndsWell(c: Context, r: Request, was: Tables, now: Tables, own: map<nat, Place>, own': map<nat, Place>,
                 first: nat, done: nat, end: nat)
    requires Tree(was, own, c.Top(), c.root) && Tree(now, own', c.Top(), c.root)
    requires first + done <= end <= c.Space() && first < end
    requires Sofar(c, r, was, now, first, first + done, end) && NoCutHole(c, was, first, first + done, end)
    ensures Converted(c, r, was, now, first, done, end - first)
    ensures first + done == end ==> NoHole(c, was, first, end)
    ensures first + done < end && Flat(c, now, first + done).None? ==> !NoHole(c, was, first, end)
    ensures 0 <= Splits(c, was, first, end) <= 4 && 0 <= Splits(c, now, first + done, end)
  {
    SofarMeans(c, r, was, now, own, own', first, first + done, end);
    HolesEndIt(c, r, was, now, own, first, done, end);
    SplitsBound(c, was, own, first, end);
    if first + done < end { SplitsBound(c, now, own', first + done, end); }
  }

  lemma SofarMeans(c: Context, r: Request, was: Tables, now: Tables, own: map<nat, Place>, own': map<nat, Place>,
                   first: nat, page: nat, end: nat)
    requires Tree(was, own, c.Top(), c.root) && Tree(now, own', c.Top(), c.root)
    requires first <= page <= end <= c.Space() && first < end && Sofar(c, r, was, now, first, page, end)
    ensures Converted(c, r, was, now, first, page - first, end - first)
  {
    forall v: nat | v < c.Space() && !Lost(c, was, now, v)
      ensures (first <= v < page ==> Flat(c, was, v).Some?) && Flat(c, now, v)
        == if Flat(c, was, v).Some? then Some(Expected(c, r, was, first, page - first, v)) else None
    {
      assert Account(c, r, was, now, first, page, v);
      AccountReads(c, r, was, now, own, first, page - first, v);
    }
    forall v: nat | v < c.Space() && Lost(c, was, now, v) ensures Endangered(c, r, was, first, page - first, end, v) {
      LostIsEndangered(c, r, was, now, own, first, page, end, v);
    }
    if page == end {
      forall v: nat | v < c.Space() && Endangered(c, r, was, first, page - first, end, v)
        ensures Lost(c, was, now, v)
      {
        EndangeredIsLost(c, r, was, now, own, own', first, end, v);
      }
    }
  }

  ghost predicate LostOnly(c: Context, r: Request, was: Tables, now: Tables, first: nat, n: nat, end: nat) {
    forall v: nat {:trigger Lost(c, was, now, v)} :: v < c.Space() && Lost(c, was, now, v) ==>
      Endangered(c, r, was, first, n, end, v)
  }

  ghost predicate LostAll(c: Context, r: Request, was: Tables, now: Tables, first: nat, n: nat, end: nat) {
    forall v: nat {:trigger Lost(c, was, now, v)} {:trigger Endangered(c, r, was, first, n, end, v)} ::
      v < c.Space() && Endangered(c, r, was, first, n, end, v) ==> Lost(c, was, now, v)
  }

  // ---------------------------------------------------------------- whether anything changed

  ghost predicate SameLevels(c: Context, was: Tables, now: Tables) {
    forall v: nat {:trigger LevelAt(c, now, v)} :: v < c.Space() ==> LevelAt(c, now, v) == LevelAt(c, was, v)
  }

  /** The request makes something else of the entry that maps page v. */
  ghost predicate Changes(c: Context, r: Request, mem: Tables, v: nat) {
    Convert(c.xd, r, LeafAt(c, mem, v).e) != LeafAt(c, mem, v).e
  }

  ghost predicate Touched(c: Context, r: Request, was: Tables, first: nat, page: nat) {
    exists v: nat {:trigger Changes(c, r, was, v)} :: first <= v < page && v < c.Space() && Changes(c, r, was, v)
  }

  lemma ConvertChanges(c: Context, mem: Tables, own: map<nat, Place>, r: Request, page: nat, s: Slot)
    requires Tree(mem, own, c.Top(), c.root) && page < c.Space() && Find(mem, c.Top(), c.root, page) == Some(s)
    ensures InTree(mem, own, s)
    ensures var mem' := Set(mem, s, Convert(c.xd, r, Get(mem, s)));
      && |mem'| == |mem| && SameLevels(c, mem, mem') && (mem' != mem ==> Changes(c, r, mem, page))
  {
    FoundSlot(c, mem, own, page, s);
    FoundIs(c, mem, own, page);
    var e := Convert(c.xd, r, Get(mem, s));
    forall v: nat | v < c.Space() ensures LevelAt(c, Set(mem, s, e), v) == LevelAt(c, mem, v) {
      SameLevel(c, mem, own, page, s, e, v);
    }
    assert Set(mem, s, e).Keys == mem.Keys;
    if e == Get(mem, s) {
      assert mem[s.table][s.index := e] == mem[s.table];
      assert Set(mem, s, e) == mem;
    }
  }

  /** As long as nothing has been split, the leaves to come are as they were. */
  lemma StillAsItWas(c: Context, r: Request, was: Tables, now: Tables, first: nat, page: nat, end: nat)
    requires Sofar(c, r, was, now, first, page, end) && page < c.Space() && SameLevels(c, was, now)
    ensures LeafAt(c, now, page) == LeafAt(c, was, page)
  {
    assert Account(c, r, was, now, first, page, page);
    assert LevelAt(c, now, page) == LevelAt(c, was, page);
  }

  lemma IsChanged(c: Context, r: Request, was: Tables, now: Tables, first: nat, page: nat, end: nat, split: bool,
                  modified: bool)
    requires Sofar(c, r, was, now, first, page, end)
    requires if split then |now| != |was| else SameLevels(c, was, now)
    requires modified ==> split || Touched(c, r, was, first, page)
    ensures modified ==> now != was
  {
    if modified && !split {
      var v: nat :| first <= v < page && v < c.Space() && Changes(c, r, was, v);
      assert Account(c, r, was, now, first, page, v);
      assert LevelAt(c, now, v) == LevelAt(c, was, v);
    }
  }

  lemma TallyMeans(c: Context, r: Request, allocate: bool, was: Tables, had: nat, mem: Tables, free: seq<nat>,
                   first: nat, page: nat, end: nat, split: bool, modified: bool)
    requires Tally(c, allocate, was, had, mem, free, first, page, end, split, modified)
    requires Reports(c, r, was, mem, first, page, split, modified) && Sofar(c, r, was, mem, first, page, end)
    ensures |free| + Splits(c, was, first, end) == had + Splits(c, mem, page, end)
    ensures if split then |free| < had && allocate else |free| == had
    ensures modified <==> mem != was
  {
    assert Tallied(c, allocate, was, had, mem, free, first, page, end, split, modified);
    assert Reported(c, r, was, mem, first, page, split, modified);
    IsChanged(c, r, was, mem, first, page, end, split, modified);
  }

  // ---------------------------------------------------------------- what a caller gets

  /** Page v is not page 0, has frame 0, and an entry in which an edit could leave nothing. */
  ghost predicate AtRisk(c: Context, mem: Tables, v: nat) {
    var l := LeafAt(c, mem, v);
    && v != 0 && Flat(c, mem, v).Some? && Flat(c, mem, v).value.frame == 0 && !l.e.u && !l.e.a && !l.e.d
    && (l.level == 1 ==> !l.e.ps && l.e.rest == 0) && (c.xd || !l.e.nx)
  }

  /** A page can be lost by some request if and only if it is at risk: so a table serves all requests as asked if and
      only if none of its pages is. */
  lemma AtRiskIff(c: Context, mem: Tables, own: map<nat, Place>, v: nat)
    requires Tree(mem, own, c.Top(), c.root) && v < c.Space()
    ensures AtRisk(c, mem, v) <==>
      exists r, first: nat, n: nat, end: nat :: Endangered(c, r, mem, first, n, end, v)
  {
    if Flat(c, mem, v).Some? { FoundIs(c, mem, own, v); }
    if AtRisk(c, mem, v) {
      var l := LeafAt(c, mem, v);
      if l.level > 1 { PieceFrame(l, v); }
      assert Endangered(c, Request(PageActionAssign, Attributes(true, true, false, false)), mem, v, 1, v + 1, v);
    }
  }

  /** After an assignment the pages of the range that are not lost read back exactly the attributes asked for (XP only
      where XD is active), keep their frames, and stay identity-mapped if they were; an identity map loses none. */
  lemma AssignReadsBack(c: Context, attributes: Attributes, was: Tables, now: Tables, first: nat, n: nat, end: nat,
                        v: nat)
    requires var r := Request(PageActionAssign, attributes);
      Assigned(c, r, was, now, first, n) && LostOnly(c, r, was, now, first, n, end)
    requires v < c.Space()
    ensures Flat(c, was, v).Some? && Flat(c, was, v).value.frame == v ==>
      Flat(c, now, v).Some? && Flat(c, now, v).value.frame == v
    ensures first <= v < first + n && Flat(c, now, v).Some? ==> (
        var m := Flat(c, now, v).value;
        && Flat(c, was, v).Some? && m.frame == Flat(c, was, v).value.frame
        && m.rp == attributes.rp && m.ro == attributes.ro && (c.xd ==> m.xp == attributes.xp))
    ensures !(first <= v < first + n) && Flat(c, now, v).Some? ==> Flat(c, now, v) == Flat(c, was, v)
  {
    assert Flat(c, now, v) == Flat(c, now, v);
    assert Lost(c, was, now, v) ==>
      Endangered(c, Request(PageActionAssign, attributes), was, first, n, end, v);
  }

  /** After setting attributes the pages of the range that are not lost have those they had and those asked for; after
      clearing them, those they had and not those asked for. */
  lemma SetReadsBack(c: Context, attributes: Attributes, was: Tables, now: Tables, first: nat, n: nat, v: nat)
    requires Assigned(c, Request(PageActionSet, attributes), was, now, first, n)
    requires v < c.Space() && first <= v < first + n && Flat(c, now, v).Some?
    ensures Flat(c, was, v).Some?
    ensures var l, m := Flat(c, was, v).value, Flat(c, now, v).value;
      && m.frame == l.frame && m.rp == (l.rp || attributes.rp) && m.ro == (l.ro || attributes.ro)
      && m.xp == (l.xp || (c.xd && attributes.xp))
  {
    assert Flat(c, now, v) == Flat(c, now, v);
  }

  lemma ClearReadsBack(c: Context, attributes: Attributes, was: Tables, now: Tables, first: nat, n: nat, v: nat)
    requires Assigned(c, Request(PageActionClear, attributes), was, now, first, n)
    requires v < c.Space() && first <= v < first + n && Flat(c, now, v).Some?
    ensures Flat(c, was, v).Some?
    ensures var l, m := Flat(c, was, v).value, Flat(c, now, v).value;
      && m.frame == l.frame && m.rp == (l.rp && !attributes.rp) && m.ro == (l.ro && !attributes.ro)
      && m.xp == (l.xp && !(c.xd && attributes.xp))
  {
    assert Flat(c, now, v) == Flat(c, now, v);
  }

  /** What the flat map of a PAE table says of a page, read off the entries on the way to it. */
  lemma PaeFlatIs(c: Context, mem: Tables, v: nat)
    requires c.machine == I386
    ensures Flat(c, mem, v) == Read3(mem, c.root, v)
  {
    ReadsAre(mem, c.root, v);
  }

  /** And that of a 4-level table. */
  lemma LongFlatIs(c: Context, mem: Tables, v: nat)
    requires c.machine == X64 && c.root in mem && |mem[c.root]| == 512
    ensures var e4 := mem[c.root][v / 134217728 % 512];
      Flat(c, mem, v) == if e4 == ZERO then None else Read3(mem, e4.addr, v)
  {
    var e4 := mem[c.root][v / 134217728 % 512];
    assert Index(v, 4) == v / 134217728 % 512;
    ReadsAre(mem, e4.addr, v);
  }

  /** Page v read in the table l3: it is in a page of 1GB, or looked up in a page directory. */
  ghost function Read3(mem: Tables, l3: nat, v: nat): Option<Mapping> {
    if l3 !in mem || |mem[l3]| != 512 then None
    else
      var e := mem[l3][v / 262144 % 512];
      if e == ZERO then None
      else if e.ps then Some(Mapping(e.addr / 262144 * 262144 + v % 262144, !e.p, !e.rw, e.nx))
      else Read2(mem, e.addr, v)
  }

  /** In a page directory: it is in a page of 2MB, or looked up in a page table. */
  ghost function Read2(mem: Tables, l2: nat, v: nat): Option<Mapping> {
    if l2 !in mem || |mem[l2]| != 512 then None
    else
      var e := mem[l2][v / 512 % 512];
      if e == ZERO then None
      else if e.ps then Some(Mapping(e.addr / 512 * 512 + v % 512, !e.p, !e.rw, e.nx))
      else Read1(mem, e.addr, v)
  }

  /** In a page table: an entry of zeros is a hole, except for page 0. */
  ghost function Read1(mem: Tables, l1: nat, v: nat): Option<Mapping> {
    if l1 !in mem || |mem[l1]| != 512 then None
    else
      var e := mem[l1][v % 512];
      if e == ZERO && v != 0 then None else Some(Mapping(e.addr, !e.p, !e.rw, e.nx))
  }

  lemma ReadsAre(mem: Tables, t: nat, v: nat)
    ensures View(mem, 3, t, v) == Read3(mem, t, v)
  {
    assert Index(v, 3) == v / 262144 % 512;
    if t in mem && |mem[t]| == 512 { Reads2Are(mem, mem[t][v / 262144 % 512].addr, v); }
  }

  lemma Reads2Are(mem: Tables, t: nat, v: nat)
    ensures View(mem, 2, t, v) == Read2(mem, t, v)
  {
    assert Index(v, 2) == v / 512 % 512;
    if t in mem && |mem[t]| == 512 { Reads1Are(mem, mem[t][v / 512 % 512].addr, v); }
  }

  lemma Reads1Are(mem: Tables, t: nat, v: nat)
    ensures View(mem, 1, t, v) == Read1(mem, t, v)
  {
    assert v % 1 == 0;
  }

  // ---------------------------------------------------------------- one turn of the loop

  /** What the loop keeps, as far as the tables go. */
  ghost predicate Progress(c: Context, mem: Tables, own: map<nat, Place>, free: seq<nat>, end: nat) {
    Tree(mem, own, c.Top(), c.root) && FreeApart(mem, free) && end <= c.Space()
  }

  lemma FoundSlot(c: Context, mem: Tables, own: map<nat, Place>, page: nat, s: Slot)
    requires Tree(mem, own, c.Top(), c.root) && page < c.Space() && Find(mem, c.Top(), c.root, page) == Some(s)
    ensures InTree(mem, own, s) && 1 <= s.level <= 3 && LeafAt(c, mem, page) == Leaf(s.level, Get(mem, s))
    ensures StopAt(c, mem, page) == Some(s) && Flat(c, mem, page).Some?
  {
    StopIs(c, mem, own, page, page);
  }

  lemma ConvertStep(c: Context, mem: Tables, own: map<nat, Place>, free: seq<nat>, r: Request, was: Tables, first: nat,
                    page: nat, s: Slot, end: nat)
    requires Progress(c, mem, own, free, end) && first <= page && Sofar(c, r, was, mem, first, page, end)
    requires Find(mem, c.Top(), c.root, page) == Some(s) && page % Span(s.level) == 0 && page + Span(s.level) <= end
    ensures InTree(mem, own, s)
    ensures var mem' := Set(mem, s, Convert(c.xd, r, Get(mem, s)));
      && Progress(c, mem', own, free, end) && Sofar(c, r, was, mem', first, page + Span(s.level), end)
      && Splits(c, mem', page + Span(s.level), end) == Splits(c, mem, page, end)
  {
    ConvertSofar(c, r, was, mem, own, first, page, s, end);
    SetLeaf(c, mem, own, page, s, Convert(c.xd, r, Get(mem, s)), page);
    ConvertSplits(c, mem, own, page, s, Convert(c.xd, r, Get(mem, s)), end);
  }

  lemma SplitStep(c: Context, mem: Tables, own: map<nat, Place>, free: seq<nat>, r: Request, was: Tables, first: nat,
                  page: nat, s: Slot, end: nat)
    requires Progress(c, mem, own, free, end) && |free| > 0 && first <= page < end
    requires Sofar(c, r, was, mem, first, page, end)
    requires Find(mem, c.Top(), c.root, page) == Some(s) && s.level >= 2
    requires page % Span(s.level) != 0 || end - page < Span(s.level)
    ensures InTree(mem, own, s) && s.level <= 3
    ensures var mem' := Split(mem, s, s.level, free[0]);
      && Progress(c, mem', own[free[0] := Place(s.level - 1, Position(own, s))], free[1..], end)
      && Sofar(c, r, was, mem', first, page, end)
      && Splits(c, mem', page, end) + 1 == Splits(c, mem, page, end)
  {
    FoundSlot(c, mem, own, page, s);
    SplitSofar(c, r, was, mem, own, first, page, s, free[0], end);
    SplitLeaves(c, mem, own, page, s, free[0], page);
    SplitSplits(c, mem, own, page, s, free[0], end);
  }

  /** A page of 4KB is never to be split. */
  lemma EndIsCut(page: nat, end: nat)
    requires page < end
    ensures page % Span(1) == 0 && Span(1) <= end - page
  {
    assert page % 1 == 0;
  }

  // ---------------------------------------------------------------- entries that look like holes

  ghost predicate SameFlat(c: Context, was: Tables, now: Tables) {
    forall v: nat {:trigger Flat(c, now, v)} {:trigger Flat(c, was, v)} :: v < c.Space() ==>
      Flat(c, now, v) == Flat(c, was, v)
  }

  /** All bits that a split hands down are clear. */
  predicate Bare(e: Entry) { !e.p && !e.rw && !e.u && !e.a && !e.d && !e.nx }

  /** When a split writes an all-zero entry, which the search takes for a hole. */
  lemma KidVanishes(e: Entry, level: nat, k: nat)
    requires 2 <= level <= 3 && k < 512
    ensures Kid(e, level, k) == ZERO <==> level == 2 && Bare(e) && FrameBase(e, level) == 0 && k == 0
  {
  }

  /** Splitting a leaf leaves the mapping of every page alone, but for a page that gets a hole. */
  lemma SplitFlat(c: Context, mem: Tables, own: map<nat, Place>, page: nat, s: Slot, p: nat, w: nat)
    requires Tree(mem, own, c.Top(), c.root) && page < c.Space() && p != 0 && p !in mem && w < c.Space()
    requires Find(mem, c.Top(), c.root, page) == Some(s) && s.level >= 2
    ensures InTree(mem, own, s) && s.level <= 3
    ensures Flat(c, Split(mem, s, s.level, p), w)
         == if StopAt(c, mem, w) == Some(s) && Hole(Kid(Get(mem, s), s.level, Index(w, s.level - 1)), s.level - 1, w)
            then None else Flat(c, mem, w)
  {
    FoundSlot(c, mem, own, page, s);
    StopIs(c, mem, own, page, w);
    SplitLeaves(c, mem, own, page, s, p, w);
    if StopAt(c, mem, w) == Some(s) {
      SlotIsNoHole(c, mem, own, page, s, w);
      KidIsPiece(Get(mem, s), s.level, w);
      PieceMapsAlike(Leaf(s.level, Get(mem, s)), s.level - 1, w);
    }
  }

  /** In any table, a split leaves the flat map alone if and only if the leaf is not a bare 2M page of frame 0 away from
      address 0; of such a leaf the first page is lost. */
  lemma SplitKeepsIff(c: Context, mem: Tables, own: map<nat, Place>, page: nat, s: Slot, p: nat)
    requires Tree(mem, own, c.Top(), c.root) && page < c.Space() && p != 0 && p !in mem
    requires Find(mem, c.Top(), c.root, page) == Some(s) && s.level >= 2
    ensures InTree(mem, own, s)
    ensures SameFlat(c, mem, Split(mem, s, s.level, p))
       <==> !(s.level == 2 && Bare(Get(mem, s)) && FrameBase(Get(mem, s), 2) == 0 && page >= 512)
  {
    var e := Get(mem, s);
    FoundSlot(c, mem, own, page, s);
    if s.level == 2 && Bare(e) && FrameBase(e, 2) == 0 && page >= 512 {
      var w := page / 512 * 512;
      StopIs(c, mem, own, page, w);
      SlotIsNoHole(c, mem, own, page, s, w);
      KidVanishes(e, 2, Index(w, 1));
      SplitFlat(c, mem, own, page, s, p, w);
      assert Flat(c, Split(mem, s, s.level, p), w).None?;
    } else {
      forall w: nat | w < c.Space() ensures Flat(c, Split(mem, s, s.level, p), w) == Flat(c, mem, w) {
        StopIs(c, mem, own, page, w);
        KidVanishes(e, s.level, Index(w, s.level - 1));
        SplitFlat(c, mem, own, page, s, p, w);
      }
    }
  }

  /** When ConvertPageEntryAttribute writes one: it clears P, RW and NX, and there is nothing else in the entry. */
  lemma ConvertVanishes(xd: bool, r: Request, e: Entry)
    ensures Convert(xd, r, e) == ZERO
       <==> (&& ChangeBit(r.action, r.attributes.rp, !e.p) && ChangeBit(r.action, r.attributes.ro, !e.rw)
             && !(if xd then ChangeBit(r.action, r.attributes.xp, e.nx) else e.nx)
             && e == Entry(e.p, e.rw, false, false, false, false, e.nx, 0, 0))
  {
  }

  /** The pages of slot s have been changed as asked, and no other page. */
  ghost predicate Rewrote(c: Context, r: Request, was: Tables, now: Tables, s: Slot) {
    forall w: nat {:trigger Flat(c, now, w)} :: w < c.Space() ==>
      Flat(c, now, w) == if StopAt(c, was, w) == Some(s)
                         then Some(Changed(c.xd, r, MappingOf(Get(was, s), s.level, w))) else Flat(c, was, w)
  }

  /** In any table, rewriting a leaf does what was asked if and only if the new entry is not all zero, or is that of
      page 0. */
  lemma ConvertKeepsIff(c: Context, mem: Tables, own: map<nat, Place>, r: Request, page: nat, s: Slot)
    requires Tree(mem, own, c.Top(), c.root) && page < c.Space() && Find(mem, c.Top(), c.root, page) == Some(s)
    ensures InTree(mem, own, s)
    ensures var e := Convert(c.xd, r, Get(mem, s));
      Rewrote(c, r, mem, Set(mem, s, e), s) <==> e != ZERO || page == 0
  {
    var e := Convert(c.xd, r, Get(mem, s));
    FoundSlot(c, mem, own, page, s);
    FoundIs(c, mem, own, page);
    if e == ZERO && page != 0 {
      SetLeaf(c, mem, own, page, s, e, page);
      assert Flat(c, Set(mem, s, e), page).None?;
    } else {
      forall w: nat | w < c.Space()
        ensures Flat(c, Set(mem, s, e), w)
          == if StopAt(c, mem, w) == Some(s) then Some(Changed(c.xd, r, MappingOf(Get(mem, s), s.level, w)))
             else Flat(c, mem, w)
      {
        SetLeaf(c, mem, own, page, s, e, w);
        StopIs(c, mem, own, page, w);
        ConvertMaps(c.xd, r, Get(mem, s), s.level, w);
      }
    }
  }

  // ---------------------------------------------------------------- two tables in which a page is lost

  const PAE := Context(I386, 1, true, true)

  /** A table with one entry that is not zero. */
  function Single(k: nat, e: Entry): (r: seq<Entry>)
    ensures |r| == 512 && forall i {:trigger r[i]} :: 0 <= i < 512 ==> r[i] == if i == k then e else ZERO
  {
    seq(512, i requires 0 <= i < 512 => if i == k then e else ZERO)
  }

  function Link(table: nat): Entry { Entry(true, true, false, false, false, false, false, table, 0) }

  /** One 2MB page at address 2MB. */
  function Large(e: Entry): Tables { map[1 := Single(0, Link(2)), 2 := Single(1, e)] }

  lemma LargeIs(e: Entry)
    requires e.ps
    ensures Tree(Large(e), map[1 := Place(3, 0), 2 := Place(2, 0)], 3, 1) && LeafAt(PAE, Large(e), 512) == Leaf(2, e)
  {
    assert Index(512, 3) == 0 && Index(512, 2) == 1;
    assert Stop(Large(e), 2, 2, 512) == Some(Slot(2, 1, 2));
    assert Stop(Large(e), 3, 1, 512) == Some(Slot(2, 1, 2));
  }

  /** One 4KB page at address 2MB. */
  function Small(e: Entry): Tables { map[1 := Single(0, Link(2)), 2 := Single(1, Link(3)), 3 := Single(0, e)] }

  lemma SmallIs(e: Entry)
    ensures Tree(Small(e), map[1 := Place(3, 0), 2 := Place(2, 0), 3 := Place(1, 1)], 3, 1)
    ensures LeafAt(PAE, Small(e), 512) == Leaf(1, e)
  {
    assert Index(512, 3) == 0 && Index(512, 2) == 1 && Index(512, 1) == 0;
    assert Stop(Small(e), 1, 3, 512) == Some(Slot(3, 0, 1));
    assert Stop(Small(e), 2, 2, 512) == Some(Slot(3, 0, 1));
    assert Stop(Small(e), 3, 1, 512) == Some(Slot(3, 0, 1));
  }

  /** A 2M page of frame 0 at address 2MB that is not present and has no other bit: any request for its last 4KB loses
      its first 4KB. */
  lemma SplitLosesPage(r: Request)
    ensures var e := Entry(false, false, false, false, false, true, false, 0, 0);
      Tree(Large(e), map[1 := Place(3, 0), 2 := Place(2, 0)], 3, 1) && Endangered(PAE, r, Large(e), 1023, 1, 1024, 512)
  {
    var e := Entry(false, false, false, false, false, true, false, 0, 0);
    LargeIs(e);
    assert MappingOf(e, 2, 512) == Mapping(0, true, true, false);
  }

  /** In the same table a request for the first 4KB alone comes to the hole that its own split makes, however many pages
      there are to give. */
  lemma SplitFailsCall()
    ensures var e := Entry(false, false, false, false, false, true, false, 0, 0);
      && Tree(Large(e), map[1 := Place(3, 0), 2 := Place(2, 0)], 3, 1)
      && Flat(PAE, Large(e), 512).Some? && !NoHole(PAE, Large(e), 512, 513) && Splits(PAE, Large(e), 512, 513) == 1
  {
    var e := Entry(false, false, false, false, false, true, false, 0, 0);
    LargeIs(e);
    assert MappingOf(e, 2, 512) == Mapping(0, true, true, false);
    assert CutHole(PAE, Large(e), 513, 512);
  }

  /** A writable 4K page of frame 0 at address 2MB that was never accessed: assigning RP and RO to it loses it. */
  lemma ConvertLosesPage()
    ensures var e := Entry(true, true, false, false, false, false, false, 0, 0);
      && Tree(Small(e), map[1 := Place(3, 0), 2 := Place(2, 0), 3 := Place(1, 1)], 3, 1)
      && Endangered(PAE, Request(PageActionAssign, Attributes(true, true, false, false)), Small(e), 512, 1, 513, 512)
  {
    var e := Entry(true, true, false, false, false, false, false, 0, 0);
    SmallIs(e);
    assert MappingOf(e, 1, 512) == Mapping(0, false, false, false);
  }
}
