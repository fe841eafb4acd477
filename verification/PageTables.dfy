/**
 * The page-table dump (kernel/kdb/generic/linear_ptab_dump.cc): a loop with two stack arrays in place of recursion.
 * A page-table pointer is a table and an index into it.
 */
module PageTables {
  import opened Options
  import opened Arithmetic

  /** An entry is invalid, maps a page, or points to a table of the next smaller size. */
  datatype Entry = Invalid | Page(frame: nat) | Subtree(table: seq<Entry>)

  /** What is printed at one entry; Blank stands for the invalid ones, at which nothing is. */
  datatype Event = Table(vaddr: nat, size: nat) | Mapping(vaddr: nat, size: nat, frame: nat) | Blank

  /** What the architecture gives: for each size the table length and the page size; the size of the address space. */
  datatype RawArch = RawArch(tableSize: seq<nat>, pageSize: seq<nat>, space: nat)

  /** A page is as large as the table of the next smaller size covers. */
  predicate Sound(a: RawArch) {
    && |a.tableSize| == |a.pageSize| > 0 && a.space > 0
    && (forall s | 0 <= s < |a.tableSize| :: a.tableSize[s] > 0)
    && (forall s | 0 < s < |a.pageSize| :: a.pageSize[s] == a.tableSize[s - 1] * a.pageSize[s - 1])
  }

  type Arch = a: RawArch | Sound(a) witness RawArch([1], [1], 1)

  function Sizes(a: Arch): nat { |a.pageSize| }

  /** Subtrees are full tables, and entries of the smallest size have none. */
  ghost predicate WellFormed(a: Arch, e: Entry, size: nat)
    decreases size, 0
  {
    e.Subtree? ==>
      0 < size && size - 1 < Sizes(a) && |e.table| == a.tableSize[size - 1] && AllWellFormed(a, e.table, size - 1)
  }

  ghost predicate AllWellFormed(a: Arch, es: seq<Entry>, size: nat)
    decreases size, 1
  {
    size < Sizes(a) && forall i | 0 <= i < |es| :: WellFormed(a, es[i], size)
  }

  /** Addresses wrap around at the end of the address space. */
  function At(a: Arch, vaddr: nat, offset: nat): nat { (vaddr + offset) % a.space }

  /** The addresses that n entries of the size cover. */
  function Span(a: Arch, n: nat, size: nat): nat
    requires size < Sizes(a)
  {
    n * a.pageSize[size]
  }

  // ----- the recursive traversal

  /** The events of a run of entries of one table, the first of them at vaddr, each followed by those of its subtree. */
  ghost function Walk(a: Arch, es: seq<Entry>, size: nat, vaddr: nat): seq<Event>
    requires AllWellFormed(a, es, size)
    decreases size, |es|
  {
    if es == [] then []
    else
      assert WellFormed(a, es[0], size);
      [Here(es[0], size, vaddr)]
        + (if es[0].Subtree? then Walk(a, es[0].table, size - 1, vaddr) else [])
        + Walk(a, es[1..], size, At(a, vaddr, a.pageSize[size]))
  }

  function Here(e: Entry, size: nat, vaddr: nat): Event {
    match e
    case Invalid => Blank
    case Page(frame) => Mapping(vaddr, size, frame)
    case Subtree(_) => Table(vaddr, size)
  }

  // ----- the listing, entry by entry

  /** The entries met in going through a run of entries and all that is below them. */
  function Visits(es: seq<Entry>): nat {
    if es == [] then 0 else 1 + (if es[0].Subtree? then Visits(es[0].table) else 0) + Visits(es[1..])
  }

  /** Indexes from a run of entries down through the tables below it. */
  ghost predicate OnPath(es: seq<Entry>, path: seq<nat>): (yes: bool)
    ensures yes ==> path != []
    decreases |path|
  {
    && path != [] && path[0] < |es|
    && (|path| > 1 ==> es[path[0]].Subtree? && OnPath(es[path[0]].table, path[1..]))
  }

  function EntryAt(es: seq<Entry>, path: seq<nat>): Entry
    requires OnPath(es, path)
    decreases |path|
  {
    if |path| == 1 then es[path[0]] else EntryAt(es[path[0]].table, path[1..])
  }

  /** How many entries are met before the one at the path. */
  function Position(es: seq<Entry>, path: seq<nat>): nat
    requires OnPath(es, path)
    decreases |path|
  {
    Visits(es[..path[0]]) + if |path| == 1 then 0 else 1 + Position(es[path[0]].table, path[1..])
  }

  /** The address that the entry at the path maps: each index counts pages of its table's size. */
  function AddressAt(a: Arch, size: nat, vaddr: nat, path: seq<nat>): nat
    requires 0 < |path| <= size + 1 <= Sizes(a)
    decreases |path|
  {
    var here := At(a, vaddr, path[0] * a.pageSize[size]);
    if |path| == 1 then here else AddressAt(a, size - 1, here, path[1..])
  }

  /** The event for the entry at a path: its own address and size, and the frame it maps if it maps one. */
  ghost predicate Prints(a: Arch, es: seq<Entry>, size: nat, vaddr: nat, path: seq<nat>, event: Event) {
    && OnPath(es, path) && |path| <= size + 1 <= Sizes(a)
    && var address, own := AddressAt(a, size, vaddr, path), size + 1 - |path|;
       match EntryAt(es, path)
       case Invalid => event == Blank
       case Page(frame) => event == Mapping(address, own, frame)
       case Subtree(_) => event == Table(address, own)
  }

  /** `out` has at its place the event of each entry met by then, and nothing else. */
  ghost predicate Lists(a: Arch, es: seq<Entry>, size: nat, vaddr: nat, out: seq<Event>) {
    && (forall path: seq<nat>, k: nat | IsAt(es, path, k) && k < |out| :: Prints(a, es, size, vaddr, path, out[k]))
    && (forall k: nat | k < |out| :: Belongs(es, k))
  }

  /** The k-th place of the listing is an entry's. */
  ghost predicate Belongs(es: seq<Entry>, k: nat) { exists path :: IsAt(es, path, k) }

  ghost predicate IsAt(es: seq<Entry>, path: seq<nat>, k: nat) { OnPath(es, path) && Position(es, path) == k }

  lemma {:induction false} WalkLength(a: Arch, es: seq<Entry>, size: nat, vaddr: nat)
    requires AllWellFormed(a, es, size) && vaddr < a.space
    ensures |Walk(a, es, size, vaddr)| == Visits(es)
    decreases size, |es|
  {
    hide Walk, At, Sound, Here;
    if es == [] {
      WalkNothing(a, size, vaddr);
    } else {
      WalkStep(a, es, size, vaddr);
      InSpace(a, vaddr, a.pageSize[size]);
      if es[0].Subtree? { WalkLength(a, es[0].table, size - 1, vaddr); }
      WalkLength(a, es[1..], size, At(a, vaddr, a.pageSize[size]));
    }
  }

  /** The i-th entry of a run in the run's listing: its event, behind it what is below it, then the later entries. */
  lemma WalkEntry(a: Arch, es: seq<Entry>, size: nat, vaddr: nat, i: nat)
    requires AllWellFormed(a, es, size) && vaddr < a.space && i < |es|
    ensures Visits(es[..i]) < |Walk(a, es, size, vaddr)|
    ensures var here, event := At(a, vaddr, i * a.pageSize[size]), Walk(a, es, size, vaddr)[Visits(es[..i])];
            match es[i]
            case Invalid => event == Blank
            case Page(frame) => event == Mapping(here, size, frame)
            case Subtree(table) =>
              && event == Table(here, size) && size > 0 && here < a.space && AllWellFormed(a, table, size - 1)
              && var from, sub := Visits(es[..i]) + 1, Walk(a, table, size - 1, here);
                 from + |sub| <= |Walk(a, es, size, vaddr)| &&
                 Walk(a, es, size, vaddr)[from..from + |sub|] == sub
  {
    hide Walk, At, Sound;
    WalkSplit(a, es, i, size, vaddr);
    var here := At(a, vaddr, Span(a, i, size));
    InSpace(a, vaddr, Span(a, i, size));
    assert es[i..][0] == es[i];
    WalkStep(a, es[i..], size, here);
    WalkLength(a, es[..i], size, vaddr);
    var front := Walk(a, es[..i], size, vaddr);
    var sub := if es[i].Subtree? then Walk(a, es[i].table, size - 1, here) else [];
    var rest := Walk(a, es[i..][1..], size, At(a, here, a.pageSize[size]));
    Middle(front, [Here(es[i], size, here)], sub, rest);
  }

  lemma Middle(a: seq<Event>, b: seq<Event>, c: seq<Event>, d: seq<Event>)
    requires |b| == 1
    ensures var all := a + (b + (c + d)); all[|a|] == b[0] && all[|a| + 1..|a| + 1 + |c|] == c
  {
    var all := a + (b + (c + d));
    assert all == (a + b) + c + d && |a + b| == |a| + 1;
  }

  /** Every entry, of whatever table, is printed at its place, with its own address, size and frame. */
  lemma {:induction false} PathListed(a: Arch, es: seq<Entry>, size: nat, vaddr: nat, path: seq<nat>)
    requires AllWellFormed(a, es, size) && vaddr < a.space && OnPath(es, path)
    ensures Position(es, path) < |Walk(a, es, size, vaddr)|
    ensures Prints(a, es, size, vaddr, path, Walk(a, es, size, vaddr)[Position(es, path)])
    decreases |path|
  {
    hide Walk, At, Sound, Visits;
    var i := path[0];
    SizeInRange(a, es, size);
    WalkEntry(a, es, size, vaddr, i);
    if |path| > 1 {
      var here, table := At(a, vaddr, i * a.pageSize[size]), es[i].table;
      PathListed(a, table, size - 1, here, path[1..]);
      var from, sub, k := Visits(es[..i]) + 1, Walk(a, table, size - 1, here), Position(table, path[1..]);
      assert Walk(a, es, size, vaddr)[from + k] == Walk(a, es, size, vaddr)[from..from + |sub|][k];
    }
  }

  /** Every place of the listing belongs to an entry. */
  lemma {:induction false} Origin(es: seq<Entry>, k: nat)
    requires k < Visits(es)
    ensures Belongs(es, k)
    decreases es
  {
    var below := if es[0].Subtree? then Visits(es[0].table) else 0;
    if k == 0 {
      assert es[..0] == [];
      assert IsAt(es, [0], 0);
    } else if k <= below {
      Origin(es[0].table, k - 1);
      var path: seq<nat> :| IsAt(es[0].table, path, k - 1);
      assert ([0] + path)[1..] == path && es[..0] == [];
      assert IsAt(es, [0] + path, k);
    } else {
      Origin(es[1..], k - 1 - below);
      var path: seq<nat> :| IsAt(es[1..], path, k - 1 - below);
      var shifted := [path[0] + 1] + path[1..];
      assert shifted[1..] == path[1..];
      assert es[..path[0] + 1][1..] == es[1..][..path[0]] && es[..path[0] + 1][0] == es[0];
      assert IsAt(es, shifted, k);
    }
  }

  /** Any part of the listing from its start on lists the entries met by then. */
  lemma WalkLists(a: Arch, es: seq<Entry>, size: nat, vaddr: nat, out: seq<Event>)
    requires AllWellFormed(a, es, size) && vaddr < a.space && out <= Walk(a, es, size, vaddr)
    ensures Lists(a, es, size, vaddr, out)
  {
    hide Walk, Prints, Position, OnPath, Visits, AllWellFormed, Belongs;
    WalkLength(a, es, size, vaddr);
    forall path: seq<nat>, k: nat | IsAt(es, path, k) && k < |out| ensures Prints(a, es, size, vaddr, path, out[k]) {
      PathListed(a, es, size, vaddr, path);
    }
    forall k: nat | k < |out| ensures Belongs(es, k) {
      Origin(es, k);
    }
  }

  // ----- the explicit stack

  /** rests[s] is what is left to do in the table of size s + 1, for s from `size` up. */
  ghost predicate Frames(a: Arch, rests: seq<seq<Entry>>, size: nat) {
    |rests| < Sizes(a) && size <= |rests| && forall s | size <= s < |rests| :: AllWellFormed(a, rests[s], s + 1)
  }

  ghost function Pending(a: Arch, rests: seq<seq<Entry>>, size: nat, vaddr: nat): seq<Event>
    requires Frames(a, rests, size)
    decreases |rests| - size
  {
    if size == |rests| then []
    else Walk(a, rests[size], size + 1, vaddr)
         + Pending(a, rests, size + 1, At(a, vaddr, Span(a, |rests[size]|, size + 1)))
  }

  /** Where the traversal ends. */
  ghost function End(a: Arch, rests: seq<seq<Entry>>, size: nat, vaddr: nat): nat
    requires Frames(a, rests, size)
    decreases |rests| - size
  {
    if size == |rests| then vaddr
    else End(a, rests, size + 1, At(a, vaddr, Span(a, |rests[size]|, size + 1)))
  }

  lemma AtAt(a: Arch, vaddr: nat, x: nat, y: nat)
    ensures At(a, At(a, vaddr, x), y) == At(a, vaddr, x + y)
  {
    var m, v := a.space, vaddr + x;
    var w := v % m + y;
    assert v + y == m * (v / m) + m * (w / m) + w % m;
    assert m * (v / m) + m * (w / m) == m * (v / m + w / m);
    ModUnique(v + y, v / m + w / m, w % m, m);
  }

  /** Rests below the current size are of no account. */
  lemma {:induction false} PendingFrame(a: Arch, rests: seq<seq<Entry>>, size: nat, s: nat, rest: seq<Entry>,
                                        vaddr: nat)
    requires Frames(a, rests, size) && s < size
    ensures Frames(a, rests[s := rest], size)
    ensures Pending(a, rests[s := rest], size, vaddr) == Pending(a, rests, size, vaddr)
    ensures End(a, rests[s := rest], size, vaddr) == End(a, rests, size, vaddr)
    decreases |rests| - size
  {
    if size >= |rests| {
    } else {
      PendingFrame(a, rests, size + 1, s, rest, At(a, vaddr, Span(a, |rests[size]|, size + 1)));
    }
  }

  /** What a traversal standing at `cur` still has to emit, and where it will end. */
  ghost predicate Ahead(a: Arch, cur: seq<Entry>, rests: seq<seq<Entry>>, size: nat, vaddr: nat,
                        events: seq<Event>, end: nat)
  {
    && AllWellFormed(a, cur, size) && Frames(a, rests, size) && vaddr < a.space
    && events == Walk(a, cur, size, vaddr) + Pending(a, rests, size, At(a, vaddr, Span(a, |cur|, size)))
    && end == End(a, rests, size, At(a, vaddr, Span(a, |cur|, size)))
  }

  lemma WalkStep(a: Arch, cur: seq<Entry>, size: nat, vaddr: nat)
    requires AllWellFormed(a, cur, size) && cur != []
    ensures AllWellFormed(a, cur[1..], size)
    ensures cur[0].Subtree? ==> size > 0 && AllWellFormed(a, cur[0].table, size - 1) &&
                                |cur[0].table| == a.tableSize[size - 1]
    ensures Walk(a, cur, size, vaddr) ==
            [Here(cur[0], size, vaddr)]
              + ((if cur[0].Subtree? then Walk(a, cur[0].table, size - 1, vaddr) else [])
                 + Walk(a, cur[1..], size, At(a, vaddr, a.pageSize[size])))
  {
    assert WellFormed(a, cur[0], size);
    var sub := if cur[0].Subtree? then Walk(a, cur[0].table, size - 1, vaddr) else [];
    var rest := Walk(a, cur[1..], size, At(a, vaddr, a.pageSize[size]));
    var here := [Here(cur[0], size, vaddr)];
    assert here + sub + rest == here + (sub + rest);
  }

  /** The first of n entries covers a page, the others what follows it. */
  lemma SpanStep(a: Arch, n: nat, size: nat, vaddr: nat)
    requires n > 0 && size < Sizes(a)
    ensures At(a, vaddr, Span(a, n, size)) == At(a, At(a, vaddr, a.pageSize[size]), Span(a, n - 1, size))
  {
    var p := a.pageSize[size];
    assert n * p == p + (n - 1) * p;
    AtAt(a, vaddr, p, (n - 1) * p);
  }

  lemma NoSpan(a: Arch, size: nat, vaddr: nat)
    requires size < Sizes(a) && vaddr < a.space
    ensures At(a, vaddr, Span(a, 0, size)) == vaddr
  {
  }

  /** A page is as large as the table below it covers. */
  lemma TableSpan(a: Arch, size: nat)
    requires 0 < size < Sizes(a)
    ensures Span(a, a.tableSize[size - 1], size - 1) == a.pageSize[size]
  {
  }

  lemma PassOver(a: Arch, cur: seq<Entry>, rests: seq<seq<Entry>>, size: nat, vaddr: nat,
                 events: seq<Event>, end: nat)
    requires Ahead(a, cur, rests, size, vaddr, events, end) && cur != [] && !cur[0].Subtree?
    ensures events != [] && events[0] == Here(cur[0], size, vaddr)
    ensures events[0] == if cur[0].Page? then Mapping(vaddr, size, cur[0].frame) else Blank
    ensures Ahead(a, cur[1..], rests, size, At(a, vaddr, a.pageSize[size]), events[1..], end)
  {
    hide AllWellFormed, Walk, Frames, Pending, At, End, Span, Sound;
    WalkStep(a, cur, size, vaddr);
    SpanStep(a, |cur|, size, vaddr);
    InSpace(a, vaddr, a.pageSize[size]);
    var here, rest := [Here(cur[0], size, vaddr)], Walk(a, cur[1..], size, At(a, vaddr, a.pageSize[size]));
    var tail := Pending(a, rests, size, At(a, vaddr, Span(a, |cur|, size)));
    assert [] + rest == rest;
    assert events == here + (rest + tail);
  }

  lemma InSpace(a: Arch, vaddr: nat, x: nat)
    ensures At(a, vaddr, x) < a.space
  {
  }

  lemma GoDown(a: Arch, cur: seq<Entry>, rests: seq<seq<Entry>>, size: nat, vaddr: nat,
               events: seq<Event>, end: nat)
    requires Ahead(a, cur, rests, size, vaddr, events, end) && cur != [] && cur[0].Subtree?
    ensures 0 < size <= |rests| && events != [] && events[0] == Table(vaddr, size)
    ensures |cur[0].table| == a.tableSize[size - 1]
    ensures Ahead(a, cur[0].table, rests[size - 1 := cur[1..]], size - 1, vaddr, events[1..], end)
  {
    hide AllWellFormed, Walk, Pending, At, End, Sound, Frames, Span;
    WalkStep(a, cur, size, vaddr);
    SpanStep(a, |cur|, size, vaddr);
    FramesLength(a, rests, size);
    var table, after := cur[0].table, At(a, vaddr, Span(a, |cur|, size));
    PendingFrame(a, rests, size, size - 1, cur[1..], after);
    var down := rests[size - 1 := cur[1..]];
    PendingStep(a, down, size - 1, At(a, vaddr, a.pageSize[size]));
    TableSpan(a, size);
    var sub, rest := Walk(a, table, size - 1, vaddr), Walk(a, cur[1..], size, At(a, vaddr, a.pageSize[size]));
    var tail := Pending(a, rests, size, after);
    assert events == [Table(vaddr, size)] + (sub + (rest + tail));
  }

  lemma FramesLength(a: Arch, rests: seq<seq<Entry>>, size: nat)
    requires Frames(a, rests, size)
    ensures size <= |rests| < Sizes(a)
    ensures size < |rests| ==> AllWellFormed(a, rests[size], size + 1) && Frames(a, rests, size + 1)
  {
  }

  lemma PendingStep(a: Arch, rests: seq<seq<Entry>>, size: nat, vaddr: nat)
    requires size < |rests| < Sizes(a) && AllWellFormed(a, rests[size], size + 1) && Frames(a, rests, size + 1)
    ensures Frames(a, rests, size)
    ensures var after := At(a, vaddr, Span(a, |rests[size]|, size + 1));
            && Pending(a, rests, size, vaddr) ==
               Walk(a, rests[size], size + 1, vaddr) + Pending(a, rests, size + 1, after)
            && End(a, rests, size, vaddr) == End(a, rests, size + 1, after)
  {
  }

  lemma ComeUp(a: Arch, cur: seq<Entry>, rests: seq<seq<Entry>>, size: nat, vaddr: nat,
               events: seq<Event>, end: nat)
    requires Ahead(a, cur, rests, size, vaddr, events, end) && cur == [] && size < |rests|
    ensures Ahead(a, rests[size], rests, size + 1, vaddr, events, end)
  {
    hide AllWellFormed, Walk, Pending, At, End, Sound, Frames, Span;
    AheadHere(a, cur, rests, size, vaddr, events, end);
    FramesLength(a, rests, size);
    PendingStep(a, rests, size, vaddr);
  }

  lemma SizeInRange(a: Arch, es: seq<Entry>, size: nat)
    requires AllWellFormed(a, es, size)
    ensures size < Sizes(a)
  {
  }

  /** A finished table leaves what its stack holds. */
  lemma AheadHere(a: Arch, cur: seq<Entry>, rests: seq<seq<Entry>>, size: nat, vaddr: nat,
                  events: seq<Event>, end: nat)
    requires Ahead(a, cur, rests, size, vaddr, events, end) && cur == []
    ensures Frames(a, rests, size)
    ensures events == Pending(a, rests, size, vaddr) && end == End(a, rests, size, vaddr)
  {
    hide AllWellFormed, Pending, At, End, Sound, Frames, Span;
    SizeInRange(a, cur, size);
    NoSpan(a, size, vaddr);
    assert Walk(a, cur, size, vaddr) == [];
    assert [] + Pending(a, rests, size, vaddr) == Pending(a, rests, size, vaddr);
  }

  // ----- the dump

  /** A page-table pointer: a table and an index into it. */
  datatype Pointer = Pointer(table: seq<Entry>, index: nat) {
    function Run(num: nat): (r: seq<Entry>)
      requires index + num <= |table|
      ensures |r| == num
    {
      table[index..index + num]
    }

    function Next(n: nat): Pointer { Pointer(table, index + n) }
  }

  lemma RunStep(pg: Pointer, num: nat)
    requires pg.index + num <= |pg.table| && num > 0
    ensures pg.Run(num)[0] == pg.table[pg.index] && pg.Next(1).Run(num - 1) == pg.Run(num)[1..]
  {
  }

  lemma RunAll(table: seq<Entry>)
    ensures Pointer(table, 0).Run(|table|) == table
  {
  }

  /** The stack arrays hold, for each size from `size` up to `max`, the rests of the tables above. */
  ghost predicate Stacked(rPg: array<Pointer>, rNum: array<nat>, rests: seq<seq<Entry>>, size: nat)
    reads rPg, rNum
  {
    && |rests| <= rPg.Length == rNum.Length && size <= |rests|
    && forall s | size <= s < |rests| ::
         rPg[s].index + rNum[s] <= |rPg[s].table| && rPg[s].Run(rNum[s]) == rests[s] && |rests[s]| == rNum[s]
  }

  /** What the recursive traversal of `num` entries at `pg` prints. */
  ghost function Listing(a: Arch, pg: Pointer, num: nat, size: nat, vaddr: nat): seq<Event>
    requires pg.index + num <= |pg.table| && AllWellFormed(a, pg.Run(num), size)
  {
    Walk(a, pg.Run(num), size, vaddr)
  }

  lemma AheadStart(a: Arch, pg: Pointer, num: nat, rests: seq<seq<Entry>>, size: nat, vaddr: nat)
    requires pg.index + num <= |pg.table| && AllWellFormed(a, pg.Run(num), size) && |rests| == size && vaddr < a.space
    ensures size < Sizes(a)
    ensures Ahead(a, pg.Run(num), rests, size, vaddr, Listing(a, pg, num, size, vaddr),
                  At(a, vaddr, Span(a, num, size)))
  {
    hide AllWellFormed, Walk, At, Sound, Span;
    SizeInRange(a, pg.Run(num), size);
    var after := At(a, vaddr, Span(a, num, size));
    assert Pending(a, rests, size, after) == [] && End(a, rests, size, after) == after;
    assert Walk(a, pg.Run(num), size, vaddr) + [] == Walk(a, pg.Run(num), size, vaddr);
  }

  /**
   * Dumps `num` entries from `pg` on. The user is asked to continue at every 4000th entry; `stop` says whether he
   * declines there. What is printed is the recursive traversal's listing, up to the entry at which he does.
   */
  method Dump(a: Arch, start: Pointer, num0: nat, maxSize: nat, vaddr0: nat, stop: nat -> bool)
    returns (out: seq<Event>, vaddr: nat)
    requires maxSize < Sizes(a) && vaddr0 < a.space
    requires start.index + num0 <= |start.table| && AllWellFormed(a, start.Run(num0), maxSize)
    ensures out <= Listing(a, start, num0, maxSize, vaddr0)
    ensures Lists(a, start.Run(num0), maxSize, vaddr0, out)
    ensures forall n | 1 <= n <= |out| && n % 4000 == 0 :: !stop(n)
    ensures if out == Listing(a, start, num0, maxSize, vaddr0) then vaddr == At(a, vaddr0, Span(a, num0, maxSize))
            else (|out| + 1) % 4000 == 0 && stop(|out| + 1)
  {
    hide Ahead, AllWellFormed, WellFormed, Walk, At, Span, Sound, Listing, Here, Pending, End, Pointer.Run, Lists;
    var pg, num: nat, size: nat := start, num0, maxSize;
    out, vaddr := [], vaddr0;
    var rPg, rNum := new Pointer[Sizes(a) - 1], new nat[Sizes(a) - 1];
    var count := 0;
    ghost var rests: seq<seq<Entry>> := seq(maxSize, _ => []);
    ghost var full, end := Listing(a, start, num0, maxSize, vaddr0), At(a, vaddr0, Span(a, num0, maxSize));
    ghost var events := full;
    AheadStart(a, pg, num, rests, size, vaddr);
    while num > 0
      invariant pg.index + num <= |pg.table| && |rests| == maxSize
      invariant Stacked(rPg, rNum, rests, size) && fresh(rPg) && fresh(rNum) && rPg.Length == Sizes(a) - 1
      invariant Ahead(a, pg.Run(num), rests, size, vaddr, events, end)
      invariant num == 0 ==> size == maxSize
      invariant out + events == full && count == |out|
      invariant forall n | 1 <= n <= count && n % 4000 == 0 :: !stop(n)
      decreases |events|
    {
      ghost var cur := pg.Run(num);
      var e := pg.table[pg.index];
      RunStep(pg, num);
      if e.Subtree? { GoDown(a, cur, rests, size, vaddr, events, end); }
      else { PassOver(a, cur, rests, size, vaddr, events, end); }
      count := count + 1;
      if count % 4000 == 0 && stop(count) {
        DumpLists(a, start, num0, maxSize, vaddr0, out);
        return;
      }
      Emit(out, events);
      if e.Subtree? {
        out, events := out + [Table(vaddr, size)], events[1..];
        size := size - 1;
        Push(rPg, rNum, rests, size, pg.Next(1), num - 1);
        rests := rests[size := cur[1..]];
        TableNonempty(a, size);
        pg, num := Pointer(e.table, 0), a.tableSize[size];
        RunAll(e.table);
      } else {
        out, events := out + [Here(e, size, vaddr)], events[1..];
        vaddr := At(a, vaddr, a.pageSize[size]);
        pg, num := pg.Next(1), num - 1;
        pg, num, size := Ascend(a, rPg, rNum, pg, num, size, maxSize, rests, vaddr, events, end);
      }
    }
    AheadHere(a, pg.Run(num), rests, size, vaddr, events, end);
    NothingPending(a, rests, size, vaddr);
    DumpLists(a, start, num0, maxSize, vaddr0, out);
  }

  lemma DumpLists(a: Arch, start: Pointer, num: nat, size: nat, vaddr: nat, out: seq<Event>)
    requires start.index + num <= |start.table| && AllWellFormed(a, start.Run(num), size) && vaddr < a.space
    requires out <= Listing(a, start, num, size, vaddr)
    ensures Lists(a, start.Run(num), size, vaddr, out)
  {
    hide Walk, Lists, AllWellFormed, Pointer.Run;
    WalkLists(a, start.Run(num), size, vaddr, out);
  }

  lemma NothingPending(a: Arch, rests: seq<seq<Entry>>, size: nat, vaddr: nat)
    requires Frames(a, rests, size) && size == |rests|
    ensures Pending(a, rests, size, vaddr) == [] && End(a, rests, size, vaddr) == vaddr
  {
  }

  lemma TableNonempty(a: Arch, size: nat)
    requires size < Sizes(a)
    ensures size < |a.tableSize| && a.tableSize[size] > 0
  {
  }

  lemma Emit(out: seq<Event>, events: seq<Event>)
    requires events != []
    ensures (out + [events[0]]) + events[1..] == out + events
  {
  }

  /** Remembers where to go on after the subtree. */
  method Push(rPg: array<Pointer>, rNum: array<nat>, ghost rests: seq<seq<Entry>>, size: nat, back: Pointer, left: nat)
    requires size < |rests| && Stacked(rPg, rNum, rests, size + 1) && back.index + left <= |back.table|
    modifies rPg, rNum
    ensures Stacked(rPg, rNum, rests[size := back.Run(left)], size)
  {
    rPg[size], rNum[size] := back, left;
  }

  /** Goes back up past every table that is done. */
  method Ascend(a: Arch, rPg: array<Pointer>, rNum: array<nat>, pg0: Pointer, num0: nat, size0: nat, maxSize: nat,
                ghost rests: seq<seq<Entry>>, ghost vaddr: nat, ghost events: seq<Event>, ghost end: nat)
    returns (pg: Pointer, num: nat, size: nat)
    requires |rests| == maxSize && pg0.index + num0 <= |pg0.table| && Stacked(rPg, rNum, rests, size0)
    requires Ahead(a, pg0.Run(num0), rests, size0, vaddr, events, end)
    ensures pg.index + num <= |pg.table| && size0 <= size && Stacked(rPg, rNum, rests, size)
    ensures Ahead(a, pg.Run(num), rests, size, vaddr, events, end)
    ensures num == 0 ==> size == maxSize
  {
    hide Ahead, AllWellFormed, WellFormed, Walk, At, Span, Sound;
    pg, num, size := pg0, num0, size0;
    while num == 0 && size < maxSize
      invariant pg.index + num <= |pg.table| && size0 <= size <= maxSize
      invariant Stacked(rPg, rNum, rests, size)
      invariant Ahead(a, pg.Run(num), rests, size, vaddr, events, end)
      decreases maxSize - size
    {
      ComeUp(a, pg.Run(num), rests, size, vaddr, events, end);
      pg, num := rPg[size], rNum[size];
      size := size + 1;
    }
  }

  // ----- finding the first table

  /** Where the architecture's index function points in a table of each size. */
  ghost predicate InTables(a: Arch, index: (nat, nat) -> nat) {
    forall s: nat, v: nat | s < Sizes(a) :: index(s, v) < a.tableSize[s]
  }

  /** The pointer of size `low` on the path to vaddr; None when the path meets an entry that is no subtree. */
  function Descend(a: Arch, index: (nat, nat) -> nat, pg: Pointer, size: nat, low: nat, vaddr: nat): Option<Pointer>
    requires InTables(a, index) && low <= size < Sizes(a)
    requires pg.index < |pg.table| && WellFormed(a, pg.table[pg.index], size)
    decreases size
  {
    var e := pg.table[pg.index];
    if size == low then Some(pg)
    else if !e.Subtree? then None
    else
      assert AllWellFormed(a, e.table, size - 1);
      var next := Pointer(e.table, index(size - 1, vaddr));
      Descend(a, index, next, size - 1, low, vaddr)
  }

  /** A table and the entries of it that a pointer and a number name, in the listing of the table. */
  lemma {:induction false} WalkSplit(a: Arch, es: seq<Entry>, k: nat, size: nat, vaddr: nat)
    requires AllWellFormed(a, es, size) && k <= |es| && vaddr < a.space
    ensures AllWellFormed(a, es[..k], size) && AllWellFormed(a, es[k..], size)
    ensures Walk(a, es, size, vaddr) ==
            Walk(a, es[..k], size, vaddr) + Walk(a, es[k..], size, At(a, vaddr, Span(a, k, size)))
    decreases k
  {
    hide Walk, At, Span, Sound, Here;
    if k == 0 {
      NoSpan(a, size, vaddr);
      WalkNothing(a, size, vaddr);
      assert es[0..] == es && es[..0] == [];
      assert [] + Walk(a, es, size, vaddr) == Walk(a, es, size, vaddr);
    } else {
      var front, next := es[..k], At(a, vaddr, a.pageSize[size]);
      assert front[1..] == es[1..][..k - 1] && es[1..][k - 1..] == es[k..];
      WalkStep(a, es, size, vaddr);
      WalkStep(a, front, size, vaddr);
      SpanStep(a, k, size, vaddr);
      InSpace(a, vaddr, a.pageSize[size]);
      WalkSplit(a, es[1..], k - 1, size, next);
      var sub := if es[0].Subtree? then Walk(a, es[0].table, size - 1, vaddr) else [];
      Regroup([Here(es[0], size, vaddr)], sub, Walk(a, front[1..], size, next),
              Walk(a, es[k..], size, At(a, vaddr, Span(a, k, size))));
    }
  }

  lemma WalkNothing(a: Arch, size: nat, vaddr: nat)
    requires size < Sizes(a)
    ensures AllWellFormed(a, [], size) && Walk(a, [], size, vaddr) == []
  {
  }

  lemma Regroup(a: seq<Event>, b: seq<Event>, c: seq<Event>, d: seq<Event>)
    ensures a + (b + (c + d)) == (a + (b + c)) + d
  {
  }

  /** The address at which a table's listing that starts at 0 comes to the page of vaddr. */
  function Base(a: Arch, index: (nat, nat) -> nat, size: nat, low: nat, vaddr: nat): nat
    requires low <= size < Sizes(a)
    decreases size
  {
    Span(a, index(size, vaddr), size) + if size == low then 0 else Base(a, index, size - 1, low, vaddr)
  }

  ghost predicate Part(part: seq<Event>, whole: seq<Event>) {
    exists before, after :: whole == before + part + after
  }

  lemma PartOf(before: seq<Event>, part: seq<Event>, after: seq<Event>)
    ensures Part(part, before + part + after)
  {
  }

  lemma PartWithin(part: seq<Event>, mid: seq<Event>, before: seq<Event>, after: seq<Event>)
    requires Part(part, mid)
    ensures Part(part, before + mid + after)
  {
    var b, c :| mid == b + part + c;
    assert before + mid + after == (before + b) + part + (c + after);
  }

  /** Where a dump may start: at the entry the index function names, in a full table of the size. */
  ghost predicate StartsAt(a: Arch, index: (nat, nat) -> nat, pg: Pointer, size: nat, vaddr: nat)
    requires size < Sizes(a)
  {
    |pg.table| == a.tableSize[size] && AllWellFormed(a, pg.table, size) && pg.index == index(size, vaddr) < |pg.table|
  }

  /** What a dump from the pointer found prints is a part of the listing of the whole table. */
  lemma {:induction false} DescendListed(a: Arch, index: (nat, nat) -> nat, pg: Pointer, size: nat, low: nat,
                                         vaddr: nat, start: nat, num: nat)
    requires InTables(a, index) && low <= size < Sizes(a) && StartsAt(a, index, pg, size, vaddr) && start < a.space
    requires Descend(a, index, pg, size, low, vaddr).Some?
    ensures var found := Descend(a, index, pg, size, low, vaddr).value;
            && StartsAt(a, index, found, low, vaddr)
            && (found.index + num <= |found.table| ==>
                  && AllWellFormed(a, found.Run(num), low)
                  && Part(Listing(a, found, num, low, At(a, start, Base(a, index, size, low, vaddr))),
                          Walk(a, pg.table, size, start)))
    decreases size
  {
    hide Walk, At, Span, Sound, Part, InTables, Here;
    var i, table := pg.index, pg.table;
    var here := At(a, start, Span(a, i, size));
    WalkSplit(a, table, i, size, start);
    InSpace(a, start, Span(a, i, size));
    if size == low {
      if i + num <= |table| {
        WalkSplit(a, table[i..], num, size, here);
        assert table[i..][..num] == pg.Run(num);
        var rest := Walk(a, table[i..][num..], size, At(a, here, Span(a, num, size)));
        PartOf(Walk(a, table[..i], size, start), Walk(a, pg.Run(num), size, here), rest);
        assert Walk(a, table[..i], size, start) + (Walk(a, pg.Run(num), size, here) + rest) ==
               Walk(a, table[..i], size, start) + Walk(a, pg.Run(num), size, here) + rest;
      }
    } else {
      var e := table[i];
      assert WellFormed(a, e, size);
      var next := Pointer(e.table, index(size - 1, vaddr));
      IndexInTable(a, index, size - 1, vaddr);
      DescendListed(a, index, next, size - 1, low, vaddr, here, num);
      AtAt(a, start, Span(a, i, size), Base(a, index, size - 1, low, vaddr));
      var found := Descend(a, index, pg, size, low, vaddr).value;
      if found.index + num <= |found.table| {
        assert table[i..][0] == e;
        WalkStep(a, table[i..], size, here);
        var sub := Walk(a, e.table, size - 1, here);
        var rest := Walk(a, table[i..][1..], size, At(a, here, a.pageSize[size]));
        var before := Walk(a, table[..i], size, start) + [Here(e, size, here)];
        assert Walk(a, table, size, start) == before + sub + rest;
        PartWithin(Listing(a, found, num, low, At(a, here, Base(a, index, size - 1, low, vaddr))), sub, before, rest);
      }
    }
  }

  lemma IndexInTable(a: Arch, index: (nat, nat) -> nat, size: nat, vaddr: nat)
    requires InTables(a, index) && size < Sizes(a)
    ensures index(size, vaddr) < a.tableSize[size]
  {
  }

  /** The descent fails exactly where the path meets an entry that is no subtree above the wanted size. */
  lemma {:induction false} DescendFails(a: Arch, index: (nat, nat) -> nat, pg: Pointer, size: nat, low: nat, vaddr: nat)
    requires InTables(a, index) && low <= size < Sizes(a)
    requires pg.index < |pg.table| && WellFormed(a, pg.table[pg.index], size)
    ensures Descend(a, index, pg, size, low, vaddr).None? <==> BlockedAbove(a, index, pg, size, low, vaddr)
    decreases size
  {
    hide Blocked, InTables;
    var e := pg.table[pg.index];
    if size == low {
    } else if !e.Subtree? {
      BlockedHere(a, index, pg, size, vaddr);
      assert Blocked(a, index, pg, size, size, vaddr);
    } else {
      assert AllWellFormed(a, e.table, size - 1);
      IndexInTable(a, index, size - 1, vaddr);
      var next, below := Pointer(e.table, index(size - 1, vaddr)), size - 1;
      DescendFails(a, index, next, below, low, vaddr);
      if BlockedAbove(a, index, pg, size, low, vaddr) {
        var s: nat :| low < s <= size && Blocked(a, index, pg, size, s, vaddr);
        BlockedBelow(a, index, pg, size, s, vaddr);
      }
      if BlockedAbove(a, index, next, below, low, vaddr) {
        var s: nat :| low < s <= below && Blocked(a, index, next, below, s, vaddr);
        BlockedBelow(a, index, pg, size, s, vaddr);
      }
    }
  }

  /** The pointer of size s on the path is reached, and its entry is no subtree. */
  ghost predicate Blocked(a: Arch, index: (nat, nat) -> nat, pg: Pointer, size: nat, s: nat, vaddr: nat)
    requires InTables(a, index) && s <= size < Sizes(a)
    requires pg.index < |pg.table| && WellFormed(a, pg.table[pg.index], size)
  {
    match Descend(a, index, pg, size, s, vaddr)
    case Some(q) => q.index < |q.table| && !q.table[q.index].Subtree?
    case None => false
  }

  ghost predicate BlockedAbove(a: Arch, index: (nat, nat) -> nat, pg: Pointer, size: nat, low: nat, vaddr: nat)
    requires InTables(a, index) && low <= size < Sizes(a)
    requires pg.index < |pg.table| && WellFormed(a, pg.table[pg.index], size)
  {
    exists s: nat :: low < s <= size && Blocked(a, index, pg, size, s, vaddr)
  }

  lemma BlockedHere(a: Arch, index: (nat, nat) -> nat, pg: Pointer, size: nat, vaddr: nat)
    requires InTables(a, index) && size < Sizes(a)
    requires pg.index < |pg.table| && WellFormed(a, pg.table[pg.index], size)
    ensures Blocked(a, index, pg, size, size, vaddr) <==> !pg.table[pg.index].Subtree?
  {
  }

  lemma BlockedBelow(a: Arch, index: (nat, nat) -> nat, pg: Pointer, size: nat, s: nat, vaddr: nat)
    requires InTables(a, index) && s <= size < Sizes(a)
    requires pg.index < |pg.table| && WellFormed(a, pg.table[pg.index], size) && pg.table[pg.index].Subtree?
    ensures var next := Pointer(pg.table[pg.index].table, index(size - 1, vaddr));
            && next.index < |next.table| && WellFormed(a, next.table[next.index], size - 1)
            && (Blocked(a, index, pg, size, s, vaddr) <==> s < size && Blocked(a, index, next, size - 1, s, vaddr))
  {
    var next := Pointer(pg.table[pg.index].table, index(size - 1, vaddr));
    assert AllWellFormed(a, next.table, size - 1);
    IndexInTable(a, index, size - 1, vaddr);
    assert WellFormed(a, next.table[next.index], size - 1);
    if s == size { BlockedHere(a, index, pg, size, vaddr); }
  }

  function TableLength(a: Arch, size: nat): (t: nat)
    requires size < Sizes(a)
    ensures t > 0 && size < |a.tableSize| && t == a.tableSize[size]
  {
    a.tableSize[size]
  }

  /** An address's index in a table of each size: the digits of its page number. */
  ghost predicate Digits(a: Arch, index: (nat, nat) -> nat) {
    && (forall s: nat | s < Sizes(a) :: a.pageSize[s] > 0)
    && (forall s: nat, v: nat | s < Sizes(a) :: index(s, v) == v / a.pageSize[s] % TableLength(a, s))
  }

  /** Then the path to an address leads to its page: the one that starts at the address rounded down. */
  lemma {:induction false} BaseIsPage(a: Arch, index: (nat, nat) -> nat, size: nat, low: nat, vaddr: nat)
    requires Digits(a, index) && low <= size < Sizes(a)
    ensures var span := Span(a, a.tableSize[size], size);
            span > 0 && Base(a, index, size, low, vaddr) == vaddr % span - vaddr % a.pageSize[low]
    decreases size
  {
    hide Sound;
    var t, p := TableLength(a, size), a.pageSize[size];
    DigitsAt(a, index, size, vaddr);
    Multiples(p, t);
    ModSplit(vaddr, t, p);
    if size == low {
    } else {
      TableSpan(a, size);
      BaseIsPage(a, index, size - 1, low, vaddr);
    }
  }

  lemma DigitsAt(a: Arch, index: (nat, nat) -> nat, size: nat, vaddr: nat)
    requires Digits(a, index) && size < Sizes(a)
    ensures a.pageSize[size] > 0 && TableLength(a, size) > 0
    ensures index(size, vaddr) == vaddr / a.pageSize[size] % TableLength(a, size)
  {
  }

  lemma ModSplit(v: nat, t: nat, p: nat)
    requires t > 0 && p > 0
    ensures t * p > 0 && v % (t * p) == (v / p % t) * p + v % p
  {
    var q, r := v / p, v % p;
    var m := t * p;
    Multiples(p, t);
    assert p * t == m;
    var k := q / t;
    assert q == t * k + q % t;
    assert v == (t * k + q % t) * p + r;
    assert (t * k + q % t) * p == m * k + (q % t) * p;
    assert (q % t) * p + r < m by {
      Multiples(p, t - q % t);
      assert p * (t - q % t) == m - (q % t) * p;
    }
    ModUnique(v, k, (q % t) * p + r, m);
  }

  /**
   * Goes down to the table of the wanted size. From the entry found, a dump of any number of the table's entries
   * prints a part of what the dump of the whole space prints; there is none exactly if the path is blocked above.
   */
  method FindStart(a: Arch, index: (nat, nat) -> nat, root: seq<Entry>, maxSize: nat, vaddr: nat)
    returns (start: Option<Pointer>)
    requires InTables(a, index) && maxSize < Sizes(a)
    requires |root| == a.tableSize[Sizes(a) - 1] && AllWellFormed(a, root, Sizes(a) - 1)
    ensures start.Some? ==> StartsAt(a, index, start.value, maxSize, vaddr)
    ensures start.Some? ==> forall num: nat | start.value.index + num <= |start.value.table| ::
              && AllWellFormed(a, start.value.Run(num), maxSize)
              && Part(Listing(a, start.value, num, maxSize, At(a, 0, Base(a, index, Sizes(a) - 1, maxSize, vaddr))),
                      Walk(a, root, Sizes(a) - 1, 0))
    ensures index(Sizes(a) - 1, vaddr) < |root| && WellFormed(a, root[index(Sizes(a) - 1, vaddr)], Sizes(a) - 1)
    ensures start.None? <==>
            BlockedAbove(a, index, Pointer(root, index(Sizes(a) - 1, vaddr)), Sizes(a) - 1, maxSize, vaddr)
  {
    hide BlockedAbove, Part, Walk, At, Base, Sound;
    var size := Sizes(a) - 1;
    var pg := Pointer(root, index(size, vaddr));
    IndexInTable(a, index, size, vaddr);
    assert WellFormed(a, root[pg.index], size);
    DescendFails(a, index, pg, size, maxSize, vaddr);
    ghost var path := Descend(a, index, pg, size, maxSize, vaddr);
    InSpace(a, 0, 0);
    if path.Some? {
      DescendListed(a, index, pg, size, maxSize, vaddr, 0, 0);
      forall num: nat | path.value.index + num <= |path.value.table|
        ensures && AllWellFormed(a, path.value.Run(num), maxSize)
                && Part(Listing(a, path.value, num, maxSize, At(a, 0, Base(a, index, size, maxSize, vaddr))),
                        Walk(a, root, size, 0))
      {
        DescendListed(a, index, pg, size, maxSize, vaddr, 0, num);
      }
    }
    while size != maxSize
      invariant maxSize <= size < Sizes(a) && pg.index < |pg.table| && WellFormed(a, pg.table[pg.index], size)
      invariant Descend(a, index, pg, size, maxSize, vaddr) == path
      decreases size
    {
      var e := pg.table[pg.index];
      if !e.Subtree? { return None; }
      assert WellFormed(a, e, size);
      size := size - 1;
      pg := Pointer(e.table, index(size, vaddr));
      IndexInTable(a, index, size, vaddr);
      assert WellFormed(a, e.table[pg.index], size);
    }
    start := Some(pg);
  }
}
