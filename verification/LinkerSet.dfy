/**
 * Linker sets (kernel/kdb/generic/linker_set.cc): start-up moves the entries of each set together, in place, and
 * iteration then walks them. A pointer into the section is the index of an entry; address 0 is NULL.
 */
module LinkerSets {

  datatype Entry = Entry(owner: LinkerSet, address: nat)

  class LinkerSet {
    var list: nat
    var entries: nat
    var curidx: nat

    method Reset()
      modifies this`curidx
      ensures curidx == 0
    {
      curidx := 0;
    }

    /** The set's entries lie inside the section; the list pointer of a set without entries means nothing. */
    ghost predicate Placed(section: array<Entry>)
      reads this`list, this`entries
    {
      entries == 0 || list + entries <= section.Length
    }

    /** The addresses the set holds, in the order of the section. */
    ghost function Members(section: array<Entry>): (r: seq<nat>)
      reads this`list, this`entries, section
      requires Placed(section)
      ensures |r| == entries
    {
      if entries == 0 then [] else Addresses(section[list..list + entries])
    }

    method Next(section: array<Entry>) returns (address: nat)
      requires Placed(section)
      modifies this`curidx
      ensures old(curidx) < entries ==> address == Members(section)[old(curidx)] && curidx == old(curidx) + 1
      ensures old(curidx) >= entries ==> address == 0 && curidx == old(curidx)
    {
      if curidx >= entries { return 0; }
      address := section[list + curidx].address;
      curidx := curidx + 1;
    }

    method Size(ghost section: array<Entry>) returns (n: nat)
      requires Placed(section)
      ensures n == |Members(section)|
    {
      n := entries;
    }

    method Get(section: array<Entry>, n: nat) returns (address: nat)
      requires Placed(section)
      ensures address == if n < entries then Members(section)[n] else 0
    {
      if n >= entries { return 0; }
      address := section[list + n].address;
    }
  }

  function Addresses(es: seq<Entry>): (r: seq<nat>)
    ensures |r| == |es|
    ensures forall i | 0 <= i < |es| :: r[i] == es[i].address
  {
    if es == [] then [] else [es[0].address] + Addresses(es[1..])
  }

  /** The entries of one set, in their order. */
  function Of(es: seq<Entry>, t: LinkerSet): seq<Entry> {
    if es == [] then [] else (if es[0].owner == t then [es[0]] else []) + Of(es[1..], t)
  }

  function Others(es: seq<Entry>, t: LinkerSet): (r: seq<Entry>)
    ensures |r| <= |es|
  {
    if es == [] then [] else (if es[0].owner != t then [es[0]] else []) + Others(es[1..], t)
  }

  /** The stable grouping: the sets in order of first appearance, each with its entries in their order. */
  function Grouped(es: seq<Entry>): seq<Entry>
    decreases |es|
  {
    if es == [] then [] else Of(es, es[0].owner) + Grouped(Others(es[1..], es[0].owner))
  }

  /** Where the block of t starts in the grouping; the length of the grouping if t has no entry. */
  function Start(es: seq<Entry>, t: LinkerSet): nat
    decreases |es|
  {
    if es == [] || es[0].owner == t then 0
    else |Of(es, es[0].owner)| + Start(Others(es[1..], es[0].owner), t)
  }

  // ----- the grouping is what it should be

  lemma {:induction false} OfAppend(a: seq<Entry>, b: seq<Entry>, t: LinkerSet)
    ensures Of(a + b, t) == Of(a, t) + Of(b, t)
  {
    if a == [] {
      assert a + b == b;
    } else {
      var head := if a[0].owner == t then [a[0]] else [];
      assert (a + b)[1..] == a[1..] + b;
      OfAppend(a[1..], b, t);
      assert head + (Of(a[1..], t) + Of(b, t)) == (head + Of(a[1..], t)) + Of(b, t);
    }
  }

  lemma {:induction false} OthersAppend(a: seq<Entry>, b: seq<Entry>, t: LinkerSet)
    ensures Others(a + b, t) == Others(a, t) + Others(b, t)
  {
    if a == [] {
      assert a + b == b;
    } else {
      var head := if a[0].owner != t then [a[0]] else [];
      assert (a + b)[1..] == a[1..] + b;
      OthersAppend(a[1..], b, t);
      assert head + (Others(a[1..], t) + Others(b, t)) == (head + Others(a[1..], t)) + Others(b, t);
    }
  }

  lemma {:induction false} OfOthers(es: seq<Entry>, t: LinkerSet, u: LinkerSet)
    ensures Of(Others(es, t), u) == if t == u then [] else Of(es, u)
  {
    if es == [] {
    } else {
      OfOthers(es[1..], t, u);
      OfAppend(if es[0].owner != t then [es[0]] else [], Others(es[1..], t), u);
      assert Of([es[0]], u) == if es[0].owner == u then [es[0]] else [] by { assert Of([es[0]][1..], u) == []; }
      assert Of([], u) == [];
    }
  }

  lemma {:induction false} OfOf(es: seq<Entry>, t: LinkerSet, u: LinkerSet)
    ensures Of(Of(es, t), u) == if t == u then Of(es, t) else []
    ensures forall e | e in Of(es, t) :: e.owner == t
  {
    if es == [] {
    } else {
      OfOf(es[1..], t, u);
      OfAppend(if es[0].owner == t then [es[0]] else [], Of(es[1..], t), u);
      assert Of([es[0]], u) == if es[0].owner == u then [es[0]] else [] by { assert Of([es[0]][1..], u) == []; }
      assert Of([], u) == [];
    }
  }

  lemma MultisetCons(e: Entry, es: seq<Entry>)
    ensures multiset([e] + es) == multiset{e} + multiset(es)
  {
  }

  lemma OfStep(es: seq<Entry>, t: LinkerSet)
    requires es != []
    ensures Of(es, t) == if es[0].owner == t then [es[0]] + Of(es[1..], t) else Of(es[1..], t)
    ensures Others(es, t) == if es[0].owner != t then [es[0]] + Others(es[1..], t) else Others(es[1..], t)
  {
  }

  lemma {:induction false} SplitPermutes(es: seq<Entry>, t: LinkerSet)
    ensures multiset(es) == multiset(Of(es, t)) + multiset(Others(es, t))
  {
    hide Of, Others;
    if es == [] {
      OfNone(t);
    } else {
      OfStep(es, t);
      SplitPermutes(es[1..], t);
      MultisetCons(es[0], Of(es[1..], t));
      MultisetCons(es[0], Others(es[1..], t));
      MultisetCons(es[0], es[1..]);
      assert es == [es[0]] + es[1..];
    }
  }

  /** The grouping permutes the entries. */
  lemma {:induction false} GroupedPermutes(es: seq<Entry>)
    ensures multiset(Grouped(es)) == multiset(es) && |Grouped(es)| == |es|
    decreases |es|
  {
    if es == [] {
    } else {
      var t := es[0].owner;
      SplitPermutes(es, t);
      GroupedPermutes(Others(es[1..], t));
      assert Others(es, t) == Others(es[1..], t);
      assert |multiset(Grouped(es))| == |Grouped(es)| && |multiset(es)| == |es|;
    }
  }

  lemma SliceRight(a: seq<Entry>, b: seq<Entry>, i: nat, j: nat)
    requires i <= j <= |b|
    ensures (a + b)[|a| + i..|a| + j] == b[i..j]
  {
  }

  /** Every set is one contiguous block of the grouping, with its entries in the original order. */
  lemma {:induction false} GroupedBlock(es: seq<Entry>, t: LinkerSet)
    ensures Start(es, t) + |Of(es, t)| <= |Grouped(es)|
    ensures Grouped(es)[Start(es, t)..Start(es, t) + |Of(es, t)|] == Of(es, t)
    ensures Of(es, t) == [] ==> Start(es, t) == |Grouped(es)|
    decreases |es|
  {
    hide Of, Others;
    if es == [] { OfNone(t); return; }
    StartStep(es, t);
    OfNonempty(es);
    var u := es[0].owner;
    if u == t {
    } else {
      var rest := Others(es[1..], u);
      GroupedBlock(rest, t);
      SliceRight(Of(es, u), Grouped(rest), Start(rest, t), Start(rest, t) + |Of(rest, t)|);
    }
  }

  lemma OfNone(t: LinkerSet)
    ensures Of([], t) == [] && Others([], t) == []
  {
  }

  lemma OfNonempty(es: seq<Entry>)
    requires es != []
    ensures Of(es, es[0].owner) != []
  {
  }

  lemma OfOne(e: Entry, t: LinkerSet)
    ensures Of([e], t) == if e.owner == t then [e] else []
    ensures Others([e], t) == if e.owner != t then [e] else []
  {
    assert [e][1..] == [];
  }

  function InsertAt(es: seq<Entry>, k: nat, e: Entry): seq<Entry>
    requires k <= |es|
  {
    es[..k] + [e] + es[k..]
  }

  lemma InsertAfter(a: seq<Entry>, b: seq<Entry>, k: nat, e: Entry)
    requires k <= |b|
    ensures a + InsertAt(b, k, e) == InsertAt(a + b, |a| + k, e)
  {
  }

  lemma GroupedHead(es: seq<Entry>, e: Entry)
    requires es != []
    ensures var u := es[0].owner;
            && Of(es + [e], u) == Of(es, u) + (if e.owner == u then [e] else [])
            && Others((es + [e])[1..], u) == Others(es[1..], u) + (if e.owner != u then [e] else [])
  {
    var u := es[0].owner;
    assert (es + [e])[1..] == es[1..] + [e];
    OfAppend(es, [e], u);
    OthersAppend(es[1..], [e], u);
    OfOne(e, u);
  }

  /** Where one more entry goes: to the end of its set's block. */
  lemma {:induction false} GroupedPush(es: seq<Entry>, e: Entry)
    ensures var k := Start(es, e.owner) + |Of(es, e.owner)|;
            k <= |Grouped(es)| && Grouped(es + [e]) == InsertAt(Grouped(es), k, e)
    decreases |es|
  {
    hide Of, Others, Start, InsertAt, Grouped;
    if es == [] {
      GroupedFirst(e);
      return;
    }
    GroupedBlock(es, e.owner);
    var u := es[0].owner;
    var rest := Others(es[1..], u);
    GroupedHead(es, e);
    StartStep(es, e.owner);
    assert (es + [e])[0].owner == u;
    GroupedStep(es);
    GroupedStep(es + [e]);
    if e.owner == u {
      assert rest + [] == rest;
      InsertBetween(Of(es, u), Grouped(rest), e);
    } else {
      GroupedPush(rest, e);
      assert Of(es, u) + [] == Of(es, u);
      InsertAfter(Of(es, u), Grouped(rest), Start(rest, e.owner) + |Of(rest, e.owner)|, e);
    }
  }

  lemma GroupedStep(es: seq<Entry>)
    requires es != []
    ensures Grouped(es) == Of(es, es[0].owner) + Grouped(Others(es[1..], es[0].owner))
  {
  }

  lemma InsertBetween(a: seq<Entry>, b: seq<Entry>, e: Entry)
    ensures (a + [e]) + b == InsertAt(a + b, |a|, e)
  {
  }

  lemma GroupedFirst(e: Entry)
    ensures Start([], e.owner) + |Of([], e.owner)| == 0 && Grouped([] + [e]) == InsertAt(Grouped([]), 0, e)
  {
    assert [] + [e] == [e];
    OfOne(e, e.owner);
    assert Others([e][1..], e.owner) == [] && Grouped([]) == [];
    assert Grouped([e]) == [e] + Grouped([]);
  }

  lemma StartStep(es: seq<Entry>, t: LinkerSet)
    requires es != []
    ensures es[0].owner == t ==> Start(es, t) == 0
    ensures es[0].owner != t ==>
              && Start(es, t) == |Of(es, es[0].owner)| + Start(Others(es[1..], es[0].owner), t)
              && Of(Others(es[1..], es[0].owner), t) == Of(es, t)
  {
    if es[0].owner != t { OfOthers(es[1..], es[0].owner, t); }
  }

  /** What one more entry does to the start of a block. */
  lemma {:induction false} StartPush(es: seq<Entry>, e: Entry, t: LinkerSet)
    requires Of(es, t) != []
    ensures var k := Start(es, e.owner) + |Of(es, e.owner)|;
            Start(es + [e], t) == if t != e.owner && Start(es, t) >= k then Start(es, t) + 1 else Start(es, t)
    decreases |es|
  {
    if es == [] {
    } else {
      hide Of, Others, Start;
      var u := es[0].owner;
      GroupedHead(es, e);
      StartStep(es, t);
      StartStep(es, e.owner);
      StartStep(es + [e], t);
      assert (es + [e])[0] == es[0];
      if t != u {
        if e.owner == u {
          assert Others(es[1..], u) + [] == Others(es[1..], u);
        } else {
          assert Of(es, u) + [] == Of(es, u);
          StartPush(Others(es[1..], u), e, t);
        }
      }
    }
  }

  /** The first entry of a set starts a block at the end. */
  lemma {:induction false} StartFirst(es: seq<Entry>, e: Entry)
    requires Of(es, e.owner) == []
    ensures Start(es + [e], e.owner) == |Grouped(es)|
    decreases |es|
  {
    assert (es + [e])[0] == if es == [] then e else es[0];
    if es == [] {
    } else {
      GroupedHead(es, e);
      StartStep(es, e.owner);
      StartStep(es + [e], e.owner);
      assert Of(es, es[0].owner) + [] == Of(es, es[0].owner);
      StartFirst(Others(es[1..], es[0].owner), e);
    }
  }

  /** An entry of t stands nowhere but in the block of t. */
  lemma {:induction false} OnlyInBlock(es: seq<Entry>, t: LinkerSet, j: nat)
    requires j < |Grouped(es)| && Grouped(es)[j].owner == t
    ensures Start(es, t) <= j < Start(es, t) + |Of(es, t)|
    decreases |es|
  {
    if es == [] {
    } else {
      var u := es[0].owner;
      OfOf(es, u, u);
      StartStep(es, t);
      if j < |Of(es, u)| {
        assert Grouped(es)[j] == Of(es, u)[j] && Of(es, u)[j] in Of(es, u);
      } else {
        OfOthersNone(es[1..], u, j - |Of(es, u)|, t);
        OnlyInBlock(Others(es[1..], u), t, j - |Of(es, u)|);
      }
    }
  }

  lemma OfOthersNone(es: seq<Entry>, u: LinkerSet, j: nat, t: LinkerSet)
    requires j < |Grouped(Others(es, u))| && Grouped(Others(es, u))[j].owner == t
    ensures t != u
  {
    GroupedPermutes(Others(es, u));
    assert Grouped(Others(es, u))[j] in multiset(Others(es, u));
    OthersOwners(es, u);
  }

  lemma {:induction false} OthersOwners(es: seq<Entry>, u: LinkerSet)
    ensures forall e | e in Others(es, u) :: e.owner != u && e in es
  {
    if es == [] {
    } else {
      OthersOwners(es[1..], u);
    }
  }

  /** The last entry of a block belongs to its set, and the block's first does. */
  lemma BlockEnds(es: seq<Entry>, t: LinkerSet)
    requires Of(es, t) != []
    ensures var k := Start(es, t) + |Of(es, t)|;
            0 < k <= |Grouped(es)| && Grouped(es)[k - 1].owner == t && Grouped(es)[Start(es, t)].owner == t
  {
    hide Of, Start, Grouped;
    GroupedBlock(es, t);
    OfOf(es, t, t);
    var g, block, k := Grouped(es), Of(es, t), Start(es, t);
    assert block[0] == g[k..k + |block|][0] == g[k];
    assert block[|block| - 1] == g[k..k + |block|][|block| - 1] == g[k + |block| - 1];
    assert block[0] in block && block[|block| - 1] in block;
  }

  // ----- the array algorithm

  /** What the descriptors say after the first |es| entries. */
  ghost predicate Described(es: seq<Entry>, owners: set<LinkerSet>)
    reads owners
  {
    forall t | t in owners ::
      t.entries == |Of(es, t)| && (Of(es, t) != [] ==> t.list == Start(es, t) && t.curidx == 0)
  }

  ghost predicate Shifted(es: seq<Entry>, owners: set<LinkerSet>, m: nat)
    reads owners
  {
    forall t | t in owners && Of(es, t) != [] :: t.list == if Start(es, t) >= m then Start(es, t) + 1 else Start(es, t)
  }

  /** Swaps the entry at m with the one above it, whose set's list pointer may have to follow it. */
  method MoveStep(section: array<Entry>, m: nat, ghost es: seq<Entry>, ghost owners: set<LinkerSet>)
    requires 0 < m < section.Length && m <= |Grouped(es)| && section[m - 1] == Grouped(es)[m - 1]
    requires section[m - 1].owner in owners && Shifted(es, owners, m)
    modifies section, owners`list
    ensures section[m - 1] == old(section[m]) && section[m] == old(section[m - 1])
    ensures forall j | 0 <= j < section.Length && j != m - 1 && j != m :: section[j] == old(section[j])
    ensures Shifted(es, owners, m - 1)
  {
    ghost var g, u := Grouped(es), section[m - 1].owner;
    OnlyInBlock(es, u, m - 1);
    forall t | t in owners && Of(es, t) != [] && Start(es, t) == m - 1 ensures t == u { BlockEnds(es, t); }
    hide Of, Start, Grouped;
    var tmp := section[m - 1];
    section[m - 1] := section[m];
    section[m] := tmp;
    if section[m].owner.list == m - 1 {
      section[m].owner.list := m;
    }
  }

  /** Moves the entry at i up to the end of its set's block, and the starts of the blocks it passes one down. */
  method MoveUp(section: array<Entry>, i: nat, ghost es: seq<Entry>, ghost owners: set<LinkerSet>)
    requires i < section.Length && |Grouped(es)| == i && section[..i] == Grouped(es)
    requires Of(es, section[i].owner) != []
    requires forall j | 0 <= j < section.Length :: section[j].owner in owners
    requires forall t | t in owners && Of(es, t) != [] :: t.list == Start(es, t)
    modifies section, owners`list
    ensures var e := old(section[i]);
            var k := Start(es, e.owner) + |Of(es, e.owner)|;
            && k <= i && section[..i + 1] == InsertAt(Grouped(es), k, e)
            && Shifted(es, owners, k)
    ensures section[i + 1..] == old(section[i + 1..])
  {
    hide Of, Start, Grouped;
    ghost var e, g := section[i], Grouped(es);
    ghost var k := Start(es, e.owner) + |Of(es, e.owner)|;
    BlockEnds(es, e.owner);
    forall t | t in owners && Of(es, t) != [] ensures Start(es, t) < i { BlockEnds(es, t); }
    var m := i;
    forall j | 0 <= j < i ensures section[j] == g[j] { assert section[..i][j] == g[j]; }
    while section[m].owner != section[m - 1].owner
      invariant k <= m <= i && section[m] == e
      invariant forall j | 0 <= j < m :: section[j] == g[j]
      invariant forall j | m < j <= i :: section[j] == g[j - 1]
      invariant forall j | i < j < section.Length :: section[j] == old(section[j])
      invariant forall j | 0 <= j < section.Length :: section[j].owner in owners
      invariant Shifted(es, owners, m)
      decreases m
    {
      MoveStep(section, m, es, owners);
      m := m - 1;
    }
    OnlyInBlock(es, e.owner, m - 1);
    assert m == k;
  }

  lemma PushStarts(es: seq<Entry>, e: Entry, owners: set<LinkerSet>)
    ensures forall t | t in owners :: Of(es + [e], t) == Of(es, t) + (if t == e.owner then [e] else [])
    ensures forall t | t in owners && Of(es, t) != [] ::
              Start(es + [e], t) == if t != e.owner && Start(es, t) >= Start(es, e.owner) + |Of(es, e.owner)|
                                    then Start(es, t) + 1 else Start(es, t)
    ensures forall t | t in owners && Of(es, t) != [] :: Start(es, t) < |Grouped(es)|
  {
    hide Of, Start, Grouped;
    forall t ensures Of(es + [e], t) == Of(es, t) + (if t == e.owner then [e] else []) {
      OfAppend(es, [e], t);
      OfOne(e, t);
    }
    forall t | t in owners && Of(es, t) != []
      ensures Start(es, t) < |Grouped(es)|
      ensures Start(es + [e], t) == if t != e.owner && Start(es, t) >= Start(es, e.owner) + |Of(es, e.owner)|
                                    then Start(es, t) + 1 else Start(es, t)
    {
      StartPush(es, e, t);
      BlockEnds(es, t);
    }
  }

  /** Takes in one entry: the first of its set stays where it is, another one moves up to its set. */
  method Place(section: array<Entry>, i: nat, ghost es: seq<Entry>, ghost owners: set<LinkerSet>)
    requires i < section.Length && |es| == i && section[..i] == Grouped(es)
    requires forall e | e in section[..] :: e.owner in owners
    requires Described(es, owners)
    modifies section, owners
    ensures section[..i + 1] == Grouped(es + [old(section[i])]) && section[i + 1..] == old(section[i + 1..])
    ensures Described(es + [old(section[i])], owners)
  {
    hide Of, Start, Grouped;
    ghost var e := section[i];
    forall j | 0 <= j < section.Length ensures section[j].owner in owners { assert section[j] in section[..]; }
    GroupedPush(es, e);
    PushStarts(es, e, owners);
    GroupedPermutes(es);
    var t := section[i].owner;
    t.entries := t.entries + 1;
    if t.entries == 1 {
      assert Of(es, t) == [];
      StartFirst(es, e);
      GroupedBlock(es, t);
      t.list := i;
      t.curidx := 0;
      assert section[..i + 1] == section[..i] + [section[i]];
    } else {
      MoveUp(section, i, es, owners);
    }
  }

  /** Start-up: groups the whole section. Every descriptor starts out with no entries. */
  method InitSets(section: array<Entry>, ghost owners: set<LinkerSet>)
    requires forall e | e in section[..] :: e.owner in owners
    requires forall t | t in owners :: t.entries == 0
    modifies section, owners
    ensures section[..] == Grouped(old(section[..]))
    ensures Described(old(section[..]), owners)
  {
    ghost var es := section[..];
    assert es[..0] == [];
    for i := 0 to section.Length
      invariant section[..i] == Grouped(es[..i]) && section[i..] == es[i..]
      invariant Described(es[..i], owners)
    {
      StillOwned(section, i, es, owners);
      assert section[i] == section[i..][0] == es[i];
      assert es[..i + 1] == es[..i] + [es[i]];
      Place(section, i, es[..i], owners);
      assert es[i..][1..] == es[i + 1..];
    }
    assert es[..|es|] == es;
  }

  lemma {:induction false} GroupedOwners(es: seq<Entry>)
    ensures forall e | e in Grouped(es) :: e in es
  {
    GroupedPermutes(es);
    forall e | e in Grouped(es) ensures e in es { assert e in multiset(Grouped(es)); }
  }

  lemma StillOwned(section: array<Entry>, i: nat, es: seq<Entry>, owners: set<LinkerSet>)
    requires i <= section.Length == |es| && section[..i] == Grouped(es[..i]) && section[i..] == es[i..]
    requires forall e | e in es :: e.owner in owners
    ensures forall e | e in section[..] :: e.owner in owners
  {
    hide Grouped;
    GroupedOwners(es[..i]);
    forall e | e in section[..] ensures e in es {
      var j :| 0 <= j < section.Length && section[j] == e;
      if j < i {
        assert section[..i][j] == e && e in es[..i];
      } else {
        assert section[i..][j - i] == e && es[i..][j - i] == es[j];
      }
    }
  }

  /** After start-up a set holds exactly its entries of the section as linked, in their order. */
  lemma SetHoldsItsEntries(section: array<Entry>, es: seq<Entry>, owners: set<LinkerSet>, t: LinkerSet)
    requires section[..] == Grouped(es) && Described(es, owners) && t in owners
    ensures t.Placed(section) && t.Members(section) == Addresses(Of(es, t))
  {
    GroupedBlock(es, t);
    if t.entries > 0 {
      assert section[t.list..t.list + t.entries] == section[..][t.list..t.list + t.entries];
    }
  }

  /** The loop of the set's users: reset, then next until it returns NULL. */
  method Visit(section: array<Entry>, t: LinkerSet) returns (seen: seq<nat>)
    requires t.Placed(section) && forall a | a in t.Members(section) :: a != 0
    modifies t`curidx
    ensures seen == t.Members(section) && t.curidx == t.entries
  {
    hide LinkerSet.Members, Addresses;
    ghost var members := t.Members(section);
    t.Reset();
    seen := [];
    assert |members| > 0 ==> members[0] in members;
    var address := t.Next(section);
    while address != 0
      invariant t.Placed(section) && t.Members(section) == members
      invariant t.curidx == (if address != 0 then |seen| + 1 else |seen|) <= t.entries
      invariant seen == members[..|seen|]
      invariant if address != 0 then address == members[|seen|] else |seen| == t.entries
      decreases t.entries - |seen|
    {
      seen := seen + [address];
      assert |seen| < |members| ==> members[|seen|] in members;
      address := t.Next(section);
    }
  }
}
