/**
 * Opening, closing and restoring the tree control (contrib/cml2/tree.py: toggle_state, expanded, expand; and
 * contrib/cml2/cmlconfigure.py: update_tree), without its drawing.
 */
module TreeState {
  import opened TreeControl

  /** What get_contents has to say about a node: whether it can be opened, and the nodes under it. */
  datatype Content = Content(id: nat, expandable: bool, kids: seq<Content>)

  /** Sibling ids tell the siblings apart. */
  predicate DistinctIds(c: Content) {
    && (forall i, j | 0 <= i < j < |c.kids| :: c.kids[i].id != c.kids[j].id)
    && (forall i | 0 <= i < |c.kids| :: DistinctIds(c.kids[i]))
  }

  /** The control shows the contents: an open node has all its subnodes, a closed one none. */
  predicate Shows(n: Node, c: Content)
    decreases c
  {
    && n.id == c.id
    && (if n.open then
          && c.expandable && |n.subnodes| == |c.kids|
          && forall i | 0 <= i < |c.kids| :: Shows(n.subnodes[i], c.kids[i])
        else n.subnodes == [])
  }

  function Closed(c: Content): Node { Node(c.id, false, []) }

  function AllClosed(cs: seq<Content>): (ns: seq<Node>)
    ensures |ns| == |cs| && forall i | 0 <= i < |cs| :: ns[i] == Closed(cs[i])
  {
    seq(|cs|, i requires 0 <= i < |cs| => Closed(cs[i]))
  }

  /** toggle_state with a wanted state; a node without an open icon stays as it is. */
  function SetOpen(n: Node, c: Content, state: bool): Node {
    if !c.expandable || n.open == state then n
    else if state then Node(n.id, true, AllClosed(c.kids))
    else Node(n.id, false, [])
  }

  function Find(ns: seq<Node>, id: nat): (i: nat)
    ensures i <= |ns| && (i < |ns| ==> ns[i].id == id) && forall j | 0 <= j < i :: ns[j].id != id
  {
    if ns == [] || ns[0].id == id then 0 else 1 + Find(ns[1..], id)
  }

  /** Opens what exists of the path of ids. */
  function Expand(n: Node, c: Content, dirs: seq<nat>): Node
    requires Shows(n, c)
    decreases c
  {
    var now := SetOpen(n, c, true);
    if dirs == [] then now
    else
      var i := Find(now.subnodes, dirs[0]);
      if i < |now.subnodes| && i < |c.kids| then
        now.(subnodes := now.subnodes[i := Expand(now.subnodes[i], c.kids[i], dirs[1..])])
      else now
  }

  function ExpandAll(n: Node, c: Content, list: seq<seq<nat>>): Node
    requires Shows(n, c)
    decreases |list|
  {
    if list == [] then n
    else
      ExpandShows(n, c, list[0]);
      ExpandAll(Expand(n, c, list[0]), c, list[1..])
  }

  lemma {:induction false} ExpandShows(n: Node, c: Content, dirs: seq<nat>)
    requires Shows(n, c)
    ensures Shows(Expand(n, c, dirs), c)
    decreases c
  {
    var now := SetOpen(n, c, true);
    assert Shows(now, c);
    if dirs == [] {
    } else {
      var i := Find(now.subnodes, dirs[0]);
      if i < |now.subnodes| && i < |c.kids| { ExpandShows(now.subnodes[i], c.kids[i], dirs[1..]); }
    }
  }

  // ----- the expanded paths

  predicate HasOpen(ns: seq<Node>) { exists i :: 0 <= i < |ns| && ns[i].open }

  /** The id paths, from n, of the open nodes that have no open subnode, in the order of the explicit stack. */
  function Expanded(n: Node): seq<seq<nat>>
    decreases n, 1
  {
    if HasOpen(n.subnodes) then ExpandedUpTo(n, |n.subnodes|) else [[]]
  }

  /** Later subnodes come first: they lie further up on the stack. */
  function ExpandedUpTo(n: Node, k: nat): seq<seq<nat>>
    requires k <= |n.subnodes|
    decreases n, 0, k
  {
    if k == 0 then []
    else
      var sub := n.subnodes[k - 1];
      (if sub.open then Under(sub.id, Expanded(sub)) else []) + ExpandedUpTo(n, k - 1)
  }

  // ----- what a list of paths opens

  /** The paths that lead through the subnode, from it on. */
  function Through(list: seq<seq<nat>>, id: nat): seq<seq<nat>> {
    if list == [] then []
    else (if list[0] != [] && list[0][0] == id then [list[0][1..]] else []) + Through(list[1..], id)
  }

  /** The tree in which exactly the existing prefixes of the paths are open. */
  function Opened(c: Content, list: seq<seq<nat>>): Node
    decreases c, 1
  {
    if list == [] || !c.expandable then Closed(c) else Node(c.id, true, OpenedKids(c, list, 0))
  }

  function OpenedKids(c: Content, list: seq<seq<nat>>, i: nat): (ns: seq<Node>)
    requires i <= |c.kids|
    ensures |ns| == |c.kids| - i
    decreases c, 0, |c.kids| - i
  {
    if i == |c.kids| then [] else [Opened(c.kids[i], Through(list, c.kids[i].id))] + OpenedKids(c, list, i + 1)
  }

  lemma {:induction false} OpenedKid(c: Content, list: seq<seq<nat>>, i: nat, k: nat)
    requires i <= k < |c.kids|
    ensures OpenedKids(c, list, i)[k - i] == Opened(c.kids[k], Through(list, c.kids[k].id))
    decreases k - i
  {
    if i >= k {
    } else {
      OpenedKid(c, list, i + 1, k);
    }
  }

  lemma {:induction false} OpenedShows(c: Content, list: seq<seq<nat>>)
    ensures Shows(Opened(c, list), c)
    decreases c
  {
    if list != [] && c.expandable {
      forall i | 0 <= i < |c.kids| ensures Shows(OpenedKids(c, list, 0)[i], c.kids[i]) {
        OpenedKid(c, list, 0, i);
        OpenedShows(c.kids[i], Through(list, c.kids[i].id));
      }
    }
  }

  lemma {:induction false} ThroughAppend(a: seq<seq<nat>>, b: seq<seq<nat>>, id: nat)
    ensures Through(a + b, id) == Through(a, id) + Through(b, id)
  {
    if a == [] {
      assert a + b == b;
    } else {
      assert (a + b)[1..] == a[1..] + b;
      ThroughAppend(a[1..], b, id);
      var head := if a[0] != [] && a[0][0] == id then [a[0][1..]] else [];
      assert head + (Through(a[1..], id) + Through(b, id)) == (head + Through(a[1..], id)) + Through(b, id);
    }
  }

  lemma ThroughOne(dirs: seq<nat>, id: nat)
    ensures Through([dirs], id) == if dirs != [] && dirs[0] == id then [dirs[1..]] else []
  {
    assert [dirs][1..] == [];
  }

  /** An open node shows a list's openings; opening a closed one shows those of the empty list. */
  lemma OpenedStart(c: Content, list: seq<seq<nat>>)
    requires c.expandable
    ensures SetOpen(Opened(c, list), c, true) == Node(c.id, true, OpenedKids(c, list, 0))
  {
    if list == [] {
      forall i | 0 <= i < |c.kids| ensures AllClosed(c.kids)[i] == OpenedKids(c, list, 0)[i] {
        OpenedKid(c, list, 0, i);
      }
      assert AllClosed(c.kids) == OpenedKids(c, list, 0);
    }
  }

  lemma ThroughMore(list: seq<seq<nat>>, dirs: seq<nat>, id: nat)
    ensures Through(list + [dirs], id) == Through(list, id) + (if dirs != [] && dirs[0] == id then [dirs[1..]] else [])
  {
    ThroughAppend(list, [dirs], id);
    ThroughOne(dirs, id);
  }

  /** One more path leads on from at most one kid. */
  lemma OneMore(c: Content, list: seq<seq<nat>>, dirs: seq<nat>)
    requires DistinctIds(c)
    ensures var kids, more := OpenedKids(c, list, 0), OpenedKids(c, list + [dirs], 0);
            && (forall k | 0 <= k < |c.kids| :: kids[k].id == c.kids[k].id)
            && (dirs == [] || Find(kids, dirs[0]) == |kids| ==> more == kids)
            && (dirs != [] && Find(kids, dirs[0]) < |kids| ==>
                  var i := Find(kids, dirs[0]);
                  && kids[i] == Opened(c.kids[i], Through(list, c.kids[i].id))
                  && more == kids[i := Opened(c.kids[i], Through(list, c.kids[i].id) + [dirs[1..]])])
  {
    hide Through, Opened, OpenedKids, Find;
    var kids, more := OpenedKids(c, list, 0), OpenedKids(c, list + [dirs], 0);
    forall k | 0 <= k < |c.kids|
      ensures kids[k] == Opened(c.kids[k], Through(list, c.kids[k].id)) && kids[k].id == c.kids[k].id
    {
      OpenedKid(c, list, 0, k);
      OpenedId(c.kids[k], Through(list, c.kids[k].id));
    }
    forall k | 0 <= k < |c.kids|
      ensures more[k] ==
              if dirs != [] && dirs[0] == c.kids[k].id
              then Opened(c.kids[k], Through(list, c.kids[k].id) + [dirs[1..]]) else kids[k]
    {
      OpenedKid(c, list + [dirs], 0, k);
      ThroughMore(list, dirs, c.kids[k].id);
      assert Through(list, c.kids[k].id) + [] == Through(list, c.kids[k].id);
    }
    if dirs == [] || Find(kids, dirs[0]) == |kids| {
      assert more == kids;
    } else {
      var i := Find(kids, dirs[0]);
      assert more == kids[i := more[i]];
    }
  }

  lemma OpenedId(c: Content, list: seq<seq<nat>>)
    ensures Opened(c, list).id == c.id
  {
  }

  lemma {:induction false} Unopenable(c: Content, list: seq<seq<nat>>, dirs: seq<nat>)
    requires !c.expandable
    ensures Shows(Opened(c, list), c) && Expand(Opened(c, list), c, dirs) == Opened(c, list + [dirs])
  {
  }

  /** Expanding one more path adds it to the paths that are open. */
  lemma {:induction false} ExpandOpened(c: Content, list: seq<seq<nat>>, dirs: seq<nat>)
    requires DistinctIds(c)
    ensures Shows(Opened(c, list), c)
    ensures Expand(Opened(c, list), c, dirs) == Opened(c, list + [dirs])
    decreases c
  {
    hide Through, Shows, OpenedKids, Find;
    OpenedShows(c, list);
    if !c.expandable {
      Unopenable(c, list, dirs);
      return;
    }
    OpenedStart(c, list);
    OneMore(c, list, dirs);
    var kids := OpenedKids(c, list, 0);
    if dirs != [] && Find(kids, dirs[0]) < |kids| {
      var i := Find(kids, dirs[0]);
      ExpandOpened(c.kids[i], Through(list, c.kids[i].id), dirs[1..]);
    }
  }

  lemma {:induction false} ExpandAllOpened(c: Content, list: seq<seq<nat>>, more: seq<seq<nat>>)
    requires DistinctIds(c)
    ensures Shows(Opened(c, list), c)
    ensures ExpandAll(Opened(c, list), c, more) == Opened(c, list + more)
    decreases |more|
  {
    OpenedShows(c, list);
    if more == [] {
      assert list + more == list;
    } else {
      ExpandOpened(c, list, more[0]);
      ExpandAllOpened(c, list + [more[0]], more[1..]);
      assert list + [more[0]] + more[1..] == list + more;
    }
  }

  // ----- restoring

  lemma {:induction false} ThroughPrefixed(list: seq<seq<nat>>, id: nat, other: nat)
    ensures Through(Under(id, list), other) == if id == other then list else []
  {
    if list == [] {
    } else {
      ThroughPrefixed(list[1..], id, other);
      assert Under(id, list)[1..] == Under(id, list[1..]);
      assert ([id] + list[0])[1..] == list[0];
    }
  }

  /** The paths through one subnode are those that start with its id. */
  lemma ThroughHead(sub: Node, rest: seq<seq<nat>>, id: nat)
    ensures Through((if sub.open then Under(sub.id, Expanded(sub)) else []) + rest, id) ==
            (if sub.open && sub.id == id then Expanded(sub) else []) + Through(rest, id)
  {
    hide Expanded;
    ThroughAppend(if sub.open then Under(sub.id, Expanded(sub)) else [], rest, id);
    ThroughPrefixed(Expanded(sub), sub.id, id);
  }

  lemma KidIds(n: Node, c: Content, i: nat)
    requires Shows(n, c) && n.open && DistinctIds(c) && i < |n.subnodes|
    ensures i < |c.kids| && n.subnodes[i].id == c.kids[i].id
    ensures Shows(n.subnodes[i], c.kids[i]) && DistinctIds(c.kids[i])
    ensures forall k | 0 <= k < |n.subnodes| && k != i :: n.subnodes[k].id != c.kids[i].id
  {
    forall k | 0 <= k < |n.subnodes| && k != i ensures n.subnodes[k].id != c.kids[i].id {
      assert Shows(n.subnodes[k], c.kids[k]);
    }
  }

  lemma {:induction false} ThroughExpanded(n: Node, c: Content, k: nat, i: nat)
    requires Shows(n, c) && n.open && DistinctIds(c) && k <= |n.subnodes| && i < |n.subnodes| && i < |c.kids|
    ensures Through(ExpandedUpTo(n, k), c.kids[i].id) ==
            if i < k && n.subnodes[i].open then Expanded(n.subnodes[i]) else []
    decreases k
  {
    hide Through, Expanded, Shows, DistinctIds;
    if k > 0 {
      ThroughExpanded(n, c, k - 1, i);
      ThroughHead(n.subnodes[k - 1], ExpandedUpTo(n, k - 1), c.kids[i].id);
      KidIds(n, c, i);
    } else {
      ThroughNothing(c.kids[i].id);
    }
  }

  lemma ThroughNothing(id: nat)
    ensures Through([], id) == []
  {
  }

  lemma {:induction false} ExpandedNonempty(n: Node)
    ensures Expanded(n) != []
    decreases n, 1, 0
  {
    if HasOpen(n.subnodes) {
      var i :| 0 <= i < |n.subnodes| && n.subnodes[i].open;
      UpToNonempty(n, i, |n.subnodes|);
    }
  }

  lemma {:induction false} UpToNonempty(n: Node, i: nat, k: nat)
    requires i < k <= |n.subnodes| && n.subnodes[i].open
    ensures ExpandedUpTo(n, k) != []
    decreases n, 0, k
  {
    if i < k - 1 { UpToNonempty(n, i, k - 1); } else { ExpandedNonempty(n.subnodes[i]); }
  }

  lemma ClosedShown(n: Node, c: Content)
    requires Shows(n, c) && !n.open
    ensures n == Closed(c) == Opened(c, [])
  {
  }

  lemma ShownExpandable(n: Node, c: Content)
    requires Shows(n, c) && n.open
    ensures c.expandable && n.id == c.id && |n.subnodes| == |c.kids|
  {
  }

  /** The paths of the expanded nodes say all there is to say about an open tree. */
  lemma {:induction false} OpenedExpanded(n: Node, c: Content)
    requires Shows(n, c) && DistinctIds(c) && n.open
    ensures Opened(c, Expanded(n)) == n
    decreases c
  {
    hide Through, Shows, DistinctIds;
    ShownExpandable(n, c);
    ExpandedNonempty(n);
    var kids := OpenedKids(c, Expanded(n), 0);
    forall i | 0 <= i < |c.kids| ensures kids[i] == n.subnodes[i] {
      OpenedKid(c, Expanded(n), 0, i);
      KidIds(n, c, i);
      ThroughKid(n, c, i);
      var sub := n.subnodes[i];
      if sub.open { OpenedExpanded(sub, c.kids[i]); } else { ClosedShown(sub, c.kids[i]); }
    }
    assert kids == n.subnodes;
  }

  lemma ThroughKid(n: Node, c: Content, i: nat)
    requires Shows(n, c) && n.open && DistinctIds(c) && i < |n.subnodes| == |c.kids|
    ensures Through(Expanded(n), c.kids[i].id) == if n.subnodes[i].open then Expanded(n.subnodes[i]) else []
  {
    hide Shows, DistinctIds;
    if HasOpen(n.subnodes) {
      ThroughExpanded(n, c, |n.subnodes|, i);
    } else {
      ThroughMore([], [], c.kids[i].id);
    }
  }

  /** Collapsing the root and expanding the recorded paths restores exactly the open nodes, if the root was open. */
  lemma Restored(root: Node, c: Content)
    requires Shows(root, c) && DistinctIds(c)
    ensures Shows(SetOpen(root, c, false), c)
    ensures ExpandAll(SetOpen(root, c, false), c, Expanded(root)) == root <==> root.open || !c.expandable
  {
    if c.expandable {
      ClosedShown(Closed(c), c);
      ExpandAllOpened(c, [], Expanded(root));
      assert [] + Expanded(root) == Expanded(root);
      ExpandedNonempty(root);
      if root.open { OpenedExpanded(root, c); }
    } else {
      Unexpandable(c, Expanded(root));
      ClosedShown(root, c);
    }
  }

  /** A root that was closed ends open, with every node under it closed. */
  lemma RestoredClosed(root: Node, c: Content)
    requires Shows(root, c) && DistinctIds(c) && !root.open
    ensures Shows(SetOpen(root, c, false), c)
    ensures ExpandAll(SetOpen(root, c, false), c, Expanded(root)) == SetOpen(root, c, true)
  {
    ClosedShown(root, c);
    assert Expanded(root) == [[]];
    assert Expanded(root)[1..] == [];
  }

  lemma {:induction false} Unexpandable(c: Content, list: seq<seq<nat>>)
    requires !c.expandable
    ensures Shows(Closed(c), c) && ExpandAll(Closed(c), c, list) == Closed(c)
    decreases |list|
  {
    if list == [] {
    } else {
      Unexpandable(c, list[1..]);
    }
  }

  // ----- the explicit stack of the collecting loop

  /** A node with the ids on the way to it, its own and the root's among them. */
  type Visit = (Node, seq<nat>)

  function Behind(p: seq<nat>, list: seq<seq<nat>>): (r: seq<seq<nat>>)
    ensures |r| == |list| && forall k | 0 <= k < |list| :: r[k] == p + list[k]
  {
    seq(|list|, k requires 0 <= k < |list| => p + list[k])
  }

  /** What the loop still finds, from the top of the stack down. */
  function Ahead(stack: seq<Visit>): seq<seq<nat>>
    requires forall e | e in stack :: e.1 != []
  {
    if stack == [] then []
    else
      var (n, p) := stack[|stack| - 1];
      Behind(p[1..], Expanded(n)) + Ahead(stack[..|stack| - 1])
  }

  lemma AheadPush(stack: seq<Visit>, n: Node, p: seq<nat>)
    requires p != [] && forall e | e in stack :: e.1 != []
    ensures Ahead(stack + [(n, p)]) == Behind(p[1..], Expanded(n)) + Ahead(stack)
  {
    assert (stack + [(n, p)])[..|stack|] == stack;
  }

  function Count(n: Node): (c: nat)
    ensures c > 0
    decreases n, 1
  {
    1 + CountUpTo(n, |n.subnodes|)
  }

  function CountUpTo(n: Node, k: nat): nat
    requires k <= |n.subnodes|
    decreases n, 0, k
  {
    if k == 0 then 0 else Count(n.subnodes[k - 1]) + CountUpTo(n, k - 1)
  }

  function Weight(stack: seq<Visit>): nat {
    if stack == [] then 0 else Count(stack[|stack| - 1].0) + Weight(stack[..|stack| - 1])
  }

  lemma WeightPush(stack: seq<Visit>, e: Visit)
    ensures Weight(stack + [e]) == Count(e.0) + Weight(stack)
  {
    assert (stack + [e])[..|stack|] == stack;
  }

  predicate OpenUpTo(n: Node, k: nat)
    requires k <= |n.subnodes|
  {
    exists j :: 0 <= j < k && n.subnodes[j].open
  }

  /** Pushing the k-th subnode of n, if it is open, onto what was pushed before it. */
  lemma PushStep(n: Node, p: seq<nat>, k: nat, base: seq<Visit>, stack: seq<Visit>)
    requires p != [] && k < |n.subnodes|
    requires forall e | e in base + stack :: e.1 != []
    requires Ahead(stack) == Behind(p[1..], ExpandedUpTo(n, k)) + Ahead(base)
    ensures var sub := n.subnodes[k];
            var after := if sub.open then stack + [(sub, p + [sub.id])] else stack;
            && (forall e | e in after :: e.1 != [])
            && Ahead(after) == Behind(p[1..], ExpandedUpTo(n, k + 1)) + Ahead(base)
            && Weight(after) <= Count(sub) + Weight(stack)
            && (OpenUpTo(n, k + 1) <==> OpenUpTo(n, k) || sub.open)
            && CountUpTo(n, k + 1) == Count(sub) + CountUpTo(n, k)
  {
    hide Ahead, Weight, Expanded, Count;
    var sub := n.subnodes[k];
    if sub.open {
      AheadPush(stack, sub, p + [sub.id]);
      WeightPush(stack, (sub, p + [sub.id]));
      BehindPrefixed(p, sub.id, Expanded(sub), ExpandedUpTo(n, k));
    } else {
      assert [] + ExpandedUpTo(n, k) == ExpandedUpTo(n, k);
    }
  }

  lemma BehindPrefixed(p: seq<nat>, id: nat, list: seq<seq<nat>>, more: seq<seq<nat>>)
    requires p != []
    ensures Behind((p + [id])[1..], list) + Behind(p[1..], more) == Behind(p[1..], Under(id, list) + more)
  {
    assert (p + [id])[1..] == p[1..] + [id];
    forall k | 0 <= k < |list| ensures (p[1..] + [id]) + list[k] == p[1..] + ([id] + list[k]) {}
  }

  /** After the last subnode a node without an open one gives its own path, and the stack is lighter than before. */
  lemma Pushed(n: Node, p: seq<nat>, leaf: seq<seq<nat>>, base: seq<Visit>, stack: seq<Visit>)
    requires p != []
    requires forall e | e in base + stack :: e.1 != []
    requires leaf == if OpenUpTo(n, |n.subnodes|) then [] else [p[1..]]
    requires Ahead(stack) == Behind(p[1..], ExpandedUpTo(n, |n.subnodes|)) + Ahead(base)
    requires Weight(stack) <= CountUpTo(n, |n.subnodes|) + Weight(base)
    ensures leaf + Ahead(stack) == Behind(p[1..], Expanded(n)) + Ahead(base)
    ensures Weight(stack) < Count(n) + Weight(base)
  {
    hide Ahead, Weight;
    OwnPath(n, p[1..]);
    if OpenUpTo(n, |n.subnodes|) {
      assert [] + Ahead(stack) == Ahead(stack);
    } else {
      assert [] + Ahead(base) == Ahead(base);
    }
  }

  lemma OwnPath(n: Node, q: seq<nat>)
    ensures var found := Behind(q, ExpandedUpTo(n, |n.subnodes|));
            if OpenUpTo(n, |n.subnodes|) then Behind(q, Expanded(n)) == found
            else Behind(q, Expanded(n)) == [q] && found == []
  {
    if OpenUpTo(n, |n.subnodes|) {
      var j :| 0 <= j < |n.subnodes| && n.subnodes[j].open;
      assert HasOpen(n.subnodes);
    } else {
      NoneOpen(n, |n.subnodes|);
      assert Expanded(n) == [[]] && q + [] == q;
      assert Behind(q, Expanded(n))[0] == q;
    }
  }

  lemma Turned(list: seq<seq<nat>>, leaf: seq<seq<nat>>, after: seq<seq<nat>>, before: seq<seq<nat>>)
    requires leaf + after == before
    ensures (list + leaf) + after == list + before
  {
  }

  lemma {:induction false} NoneOpen(n: Node, k: nat)
    requires k <= |n.subnodes| && !OpenUpTo(n, k)
    ensures ExpandedUpTo(n, k) == []
  {
    if k == 0 {
    } else {
      assert !n.subnodes[k - 1].open;
      assert !OpenUpTo(n, k - 1);
      NoneOpen(n, k - 1);
    }
  }

  lemma Started(n: Node, id: nat)
    ensures Ahead([(n, [id])]) == Expanded(n)
  {
    hide Expanded;
    assert [(n, [id])][..0] == [];
    assert [id][1..] == [];
    forall k | 0 <= k < |Expanded(n)| ensures [] + Expanded(n)[k] == Expanded(n)[k] {}
    assert Behind([], Expanded(n)) == Expanded(n);
  }

  lemma Popped(stack: seq<Visit>)
    requires stack != [] && forall e | e in stack :: e.1 != []
    ensures var ((n, p), base) := (stack[|stack| - 1], stack[..|stack| - 1]);
            && Ahead(stack) == Behind(p[1..], Expanded(n)) + Ahead(base)
            && Weight(stack) == Count(n) + Weight(base)
  {
  }

  lemma Starting(n: Node, p: seq<nat>, base: seq<Visit>)
    requires p != [] && forall e | e in base :: e.1 != []
    ensures Ahead(base) == Behind(p[1..], ExpandedUpTo(n, 0)) + Ahead(base)
    ensures CountUpTo(n, 0) == 0 && !OpenUpTo(n, 0)
  {
  }

  lemma Finished()
    ensures Ahead([]) == []
  {
  }

  lemma ExpandNothing(n: Node, c: Content)
    requires Shows(n, c)
    ensures ExpandAll(n, c, []) == n
  {
  }

  lemma {:induction false} ExpandOneMore(n: Node, c: Content, list: seq<seq<nat>>, dirs: seq<nat>)
    requires Shows(n, c)
    ensures Shows(ExpandAll(n, c, list), c)
    ensures ExpandAll(n, c, list + [dirs]) == Expand(ExpandAll(n, c, list), c, dirs)
    decreases |list|
  {
    hide Expand, Shows;
    if list == [] {
      ExpandShows(n, c, dirs);
      assert [dirs][1..] == [];
    } else {
      ExpandShows(n, c, list[0]);
      ExpandOneMore(Expand(n, c, list[0]), c, list[1..], dirs);
      assert (list + [dirs])[1..] == list[1..] + [dirs];
    }
  }

  // ----- the cursor

  /** The path of ids leads to a visible node. */
  predicate Present(n: Node, dirs: seq<nat>) {
    dirs == [] ||
    (Find(n.subnodes, dirs[0]) < |n.subnodes| && Present(n.subnodes[Find(n.subnodes, dirs[0])], dirs[1..]))
  }

  /** Whether the node the path leads to is closed though it could be open. */
  predicate CanOpen(n: Node, c: Content, dirs: seq<nat>)
    requires Shows(n, c) && Present(n, dirs)
    decreases c
  {
    if dirs == [] then c.expandable && !n.open
    else var i := Find(n.subnodes, dirs[0]); CanOpen(n.subnodes[i], c.kids[i], dirs[1..])
  }

  /** Expanding the path to a visible node opens that node, and nothing else. */
  lemma {:induction false} ExpandVisible(n: Node, c: Content, dirs: seq<nat>)
    requires Shows(n, c) && Present(n, dirs)
    ensures Present(Expand(n, c, dirs), dirs)
    ensures Expand(n, c, dirs) == n <==> !CanOpen(n, c, dirs)
    decreases c
  {
    if dirs == [] {
    } else {
      var i := Find(n.subnodes, dirs[0]);
      ExpandVisible(n.subnodes[i], c.kids[i], dirs[1..]);
      var sub := Expand(n.subnodes[i], c.kids[i], dirs[1..]);
      ExpandShows(n.subnodes[i], c.kids[i], dirs[1..]);
      FindReplaced(n.subnodes, dirs[0], sub);
      assert sub == n.subnodes[i] ==> n.subnodes[i := sub] == n.subnodes;
      assert n.subnodes[i := sub][i] == sub;
    }
  }

  lemma {:induction false} FindReplaced(ns: seq<Node>, id: nat, sub: Node)
    requires Find(ns, id) < |ns| && sub.id == id
    ensures Find(ns[Find(ns, id) := sub], id) == Find(ns, id)
  {
    var i := Find(ns, id);
    var ms := ns[i := sub];
    assert ms[i] == sub;
    assert forall k | 0 <= k < i :: ms[k] == ns[k];
  }

  /** In a closed tree the cursor is at the root. */
  lemma ClosedCursor(n: Node, c: Content, dirs: seq<nat>)
    requires Shows(n, c) && Present(n, dirs)
    ensures Shows(SetOpen(n, c, true), c)
    ensures !n.open ==> Expand(SetOpen(n, c, true), c, dirs) == Expand(n, c, dirs)
  {
  }
}
