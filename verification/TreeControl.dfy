/**
 * The tree control of the graphical configurator (contrib/cml2/tree.py): moving among the visible nodes. A node is
 * named by its path, the child numbers that lead to it from the root.
 */
module TreeControl {
  import opened Options

  /** A closed node has no subnodes. */
  datatype Node = Node(id: nat, open: bool, subnodes: seq<Node>)

  type Path = seq<nat>

  predicate IsNode(n: Node, p: Path) {
    p == [] || (p[0] < |n.subnodes| && IsNode(n.subnodes[p[0]], p[1..]))
  }

  function At(n: Node, p: Path): Node
    requires IsNode(n, p)
  {
    if p == [] then n else At(n.subnodes[p[0]], p[1..])
  }

  // ----- the visible nodes from top to bottom

  function Under(i: nat, ps: seq<Path>): (qs: seq<Path>)
    ensures |qs| == |ps| && forall k | 0 <= k < |ps| :: qs[k] == [i] + ps[k]
  {
    seq(|ps|, k requires 0 <= k < |ps| => [i] + ps[k])
  }

  function Preorder(n: Node): seq<Path>
    decreases n, 1
  {
    [[]] + PreorderFrom(n, 0)
  }

  /** The nodes under the subnodes from the i-th on. */
  function PreorderFrom(n: Node, i: nat): seq<Path>
    requires i <= |n.subnodes|
    decreases n, 0, |n.subnodes| - i
  {
    if i == |n.subnodes| then [] else Under(i, Preorder(n.subnodes[i])) + PreorderFrom(n, i + 1)
  }

  /** The bottom node. */
  function LastPath(n: Node): Path {
    if n.subnodes == [] then [] else var i := |n.subnodes| - 1; [i] + LastPath(n.subnodes[i])
  }

  // ----- the neighbours, found from the root

  function NextIn(n: Node, p: Path): Option<Path>
    requires IsNode(n, p)
  {
    if p == [] then if n.subnodes != [] then Some([0]) else None
    else match NextIn(n.subnodes[p[0]], p[1..])
      case Some(q) => Some([p[0]] + q)
      case None => if p[0] + 1 < |n.subnodes| then Some([p[0] + 1]) else None
  }

  function PrevIn(n: Node, p: Path): Path
    requires IsNode(n, p) && p != []
  {
    if p[1..] != [] then [p[0]] + PrevIn(n.subnodes[p[0]], p[1..])
    else if p[0] > 0 then [p[0] - 1] + LastPath(n.subnodes[p[0] - 1])
    else []
  }

  // ----- preorder

  lemma {:induction false} PreorderEnds(n: Node)
    ensures Preorder(n) != [] && Preorder(n)[0] == [] && Preorder(n)[|Preorder(n)| - 1] == LastPath(n)
    decreases n, 1
  {
    if n.subnodes != [] { FromEnds(n, 0); }
  }

  lemma {:induction false} FromEnds(n: Node, i: nat)
    requires i < |n.subnodes|
    ensures var ps := PreorderFrom(n, i); ps != [] && ps[0] == [i] && ps[|ps| - 1] == LastPath(n)
    decreases n, 0, |n.subnodes| - i
  {
    PreorderEnds(n.subnodes[i]);
    assert [i] + [] == [i];
    if i + 1 >= |n.subnodes| {
    } else {
      FromEnds(n, i + 1);
    }
  }

  lemma {:induction false} NextEnumerates(n: Node, k: nat)
    requires k < |Preorder(n)|
    ensures IsNode(n, Preorder(n)[k])
    ensures NextIn(n, Preorder(n)[k]) == if k + 1 < |Preorder(n)| then Some(Preorder(n)[k + 1]) else None
    decreases n, 1
  {
    if k == 0 {
      if n.subnodes != [] { FromEnds(n, 0); }
    } else {
      NextEnumeratesFrom(n, 0, k - 1);
    }
  }

  lemma {:induction false} NextEnumeratesFrom(n: Node, i: nat, k: nat)
    requires i <= |n.subnodes| && k < |PreorderFrom(n, i)|
    ensures var ps := PreorderFrom(n, i);
            && ps[k] != [] && i <= ps[k][0] && IsNode(n, ps[k])
            && NextIn(n, ps[k]) == if k + 1 < |ps| then Some(ps[k + 1]) else None
    decreases n, 0, |n.subnodes| - i
  {
    var ps, sub := PreorderFrom(n, i), Preorder(n.subnodes[i]);
    if k < |sub| {
      NextEnumerates(n.subnodes[i], k);
      assert ps[k] == [i] + sub[k] && ps[k][1..] == sub[k];
      if k + 1 == |sub| && i + 1 < |n.subnodes| { FromEnds(n, i + 1); }
    } else {
      NextEnumeratesFrom(n, i + 1, k - |sub|);
    }
  }

  lemma {:induction false} PrevEnumerates(n: Node, k: nat)
    requires 0 < k < |Preorder(n)|
    ensures IsNode(n, Preorder(n)[k]) && Preorder(n)[k] != []
    ensures PrevIn(n, Preorder(n)[k]) == Preorder(n)[k - 1]
    decreases n, 1
  {
    PrevEnumeratesFrom(n, 0, k - 1);
  }

  /** What stands before the k-th of the nodes under the subnodes from the i-th on. */
  function Preceding(n: Node, i: nat, k: nat): Path
    requires i <= |n.subnodes| && k < |PreorderFrom(n, i)|
  {
    if k > 0 then PreorderFrom(n, i)[k - 1] else if i == 0 then [] else [i - 1] + LastPath(n.subnodes[i - 1])
  }

  lemma {:induction false} PrevEnumeratesFrom(n: Node, i: nat, k: nat)
    requires i <= |n.subnodes| && k < |PreorderFrom(n, i)|
    ensures var p := PreorderFrom(n, i)[k]; p != [] && IsNode(n, p) && PrevIn(n, p) == Preceding(n, i, k)
    decreases n, 0, |n.subnodes| - i
  {
    var sub := Preorder(n.subnodes[i]);
    PreorderEnds(n.subnodes[i]);
    if k < |sub| {
      NextEnumerates(n.subnodes[i], k);
      if k > 0 { PrevEnumerates(n.subnodes[i], k); }
      PrevStep(n, i, sub[k]);
    } else {
      PrevEnumeratesFrom(n, i + 1, k - |sub|);
    }
  }

  lemma PrevStep(n: Node, i: nat, q: Path)
    requires i < |n.subnodes| && IsNode(n.subnodes[i], q)
    ensures IsNode(n, [i] + q)
    ensures PrevIn(n, [i] + q) == if q != [] then [i] + PrevIn(n.subnodes[i], q)
                                  else if i > 0 then [i - 1] + LastPath(n.subnodes[i - 1]) else []
  {
    assert ([i] + q)[1..] == q;
  }

  /** Every visible node has its place in the preorder list. */
  lemma {:induction false} InPreorder(n: Node, p: Path) returns (k: nat)
    requires IsNode(n, p)
    ensures k < |Preorder(n)| && Preorder(n)[k] == p
    decreases n, 1
  {
    if p == [] { return 0; }
    var j := InPreorderFrom(n, 0, p);
    k := j + 1;
  }

  lemma {:induction false} InPreorderFrom(n: Node, i: nat, p: Path) returns (k: nat)
    requires IsNode(n, p) && p != [] && i <= p[0]
    ensures k < |PreorderFrom(n, i)| && PreorderFrom(n, i)[k] == p
    decreases n, 0, |n.subnodes| - i
  {
    var sub := Preorder(n.subnodes[i]);
    if p[0] == i {
      k := InPreorder(n.subnodes[i], p[1..]);
      assert [i] + p[1..] == p;
    } else {
      var j := InPreorderFrom(n, i + 1, p);
      k := j + |sub|;
    }
  }

  /** And no other place. */
  lemma {:induction false} PreorderDistinct(n: Node, j: nat, k: nat)
    requires j < k < |Preorder(n)|
    ensures Preorder(n)[j] != Preorder(n)[k]
    decreases n, 1
  {
    if j == 0 { PrevEnumerates(n, k); } else { FromDistinct(n, 0, j - 1, k - 1); }
  }

  lemma {:induction false} FromDistinct(n: Node, i: nat, j: nat, k: nat)
    requires i <= |n.subnodes| && j < k < |PreorderFrom(n, i)|
    ensures PreorderFrom(n, i)[j] != PreorderFrom(n, i)[k]
    decreases n, 0, |n.subnodes| - i
  {
    var ps, sub := PreorderFrom(n, i), Preorder(n.subnodes[i]);
    if k < |sub| {
      PreorderDistinct(n.subnodes[i], j, k);
      assert ps[j][1..] == sub[j] && ps[k][1..] == sub[k];
    } else if j < |sub| {
      NextEnumeratesFrom(n, i + 1, k - |sub|);
      assert ps[j][0] == i;
    } else {
      FromDistinct(n, i + 1, j - |sub|, k - |sub|);
    }
  }

  /** Going down and up again comes back, and so does going up and down. */
  lemma NextAndPrev(n: Node, p: Path)
    requires IsNode(n, p)
    ensures NextIn(n, p).Some? ==> IsNode(n, NextIn(n, p).value) && NextIn(n, p).value != [] &&
                                   PrevIn(n, NextIn(n, p).value) == p
    ensures p != [] ==> IsNode(n, PrevIn(n, p)) && NextIn(n, PrevIn(n, p)) == Some(p)
    ensures NextIn(n, p).None? <==> p == LastPath(n)
  {
    hide Preorder, NextIn, PrevIn, LastPath, IsNode;
    var k := InPreorder(n, p);
    NextEnumerates(n, k);
    PreorderEnds(n);
    if k + 1 < |Preorder(n)| {
      PrevEnumerates(n, k + 1);
      PreorderDistinct(n, k, |Preorder(n)| - 1);
    }
    if k > 0 {
      PrevEnumerates(n, k);
      NextEnumerates(n, k - 1);
    }
  }

  // ----- the same neighbours, found by climbing as the control does

  function Parent(p: Path): Path
    requires p != []
  {
    p[..|p| - 1]
  }

  function Last(p: Path): nat
    requires p != []
  {
    p[|p| - 1]
  }

  lemma {:induction false} ParentIsNode(n: Node, p: Path)
    requires IsNode(n, p) && p != []
    ensures IsNode(n, Parent(p)) && Last(p) < |At(n, Parent(p)).subnodes|
  {
    if |p| <= 1 {
    } else {
      ParentIsNode(n.subnodes[p[0]], p[1..]);
      assert Parent(p)[1..] == Parent(p[1..]);
    }
  }

  lemma {:induction false} ChildIsNode(n: Node, p: Path, i: nat)
    requires IsNode(n, p) && i < |At(n, p).subnodes|
    ensures IsNode(n, p + [i]) && At(n, p + [i]) == At(n, p).subnodes[i]
  {
    if p == [] {
      assert p + [i] == [i];
    } else {
      ChildIsNode(n.subnodes[p[0]], p[1..], i);
      assert (p + [i])[1..] == p[1..] + [i];
    }
  }

  /** The next sibling of the node or of the closest ancestor that has one. */
  function Above(n: Node, p: Path): Option<Path>
    requires IsNode(n, p)
    decreases |p|
  {
    if p == [] then None
    else
      ParentIsNode(n, p);
      if Last(p) + 1 < |At(n, Parent(p)).subnodes| then Some(Parent(p) + [Last(p) + 1]) else Above(n, Parent(p))
  }

  lemma {:induction false} AboveStep(n: Node, p: Path)
    requires IsNode(n, p) && p != []
    ensures Above(n, p) == match Above(n.subnodes[p[0]], p[1..])
                           case Some(q) => Some([p[0]] + q)
                           case None => if p[0] + 1 < |n.subnodes| then Some([p[0] + 1]) else None
    decreases |p|
  {
    var sub, q := n.subnodes[p[0]], p[1..];
    ParentIsNode(n, p);
    if q == [] {
      assert Parent(p) == [] && [] + [Last(p) + 1] == [p[0] + 1];
    } else {
      ParentIsNode(sub, q);
      AboveStep(n, Parent(p));
      assert Parent(p)[1..] == Parent(q) && Last(p) == Last(q);
      assert Parent(p) + [Last(p) + 1] == [p[0]] + (Parent(q) + [Last(q) + 1]);
    }
  }

  lemma {:induction false} NextByClimbing(n: Node, p: Path)
    requires IsNode(n, p)
    ensures NextIn(n, p) == if At(n, p).subnodes != [] then Some(p + [0]) else Above(n, p)
  {
    if p != [] {
      NextByClimbing(n.subnodes[p[0]], p[1..]);
      AboveStep(n, p);
      assert [p[0]] + (p[1..] + [0]) == p + [0];
    } else {
      assert [] + [0] == [0];
    }
  }

  /** The bottom of the previous sibling, or the parent. */
  function Below(n: Node, p: Path): Path
    requires IsNode(n, p) && p != []
  {
    ParentIsNode(n, p);
    if Last(p) > 0 then Parent(p) + ([Last(p) - 1] + LastPath(At(n, Parent(p)).subnodes[Last(p) - 1])) else Parent(p)
  }

  lemma ParentStep(n: Node, p: Path)
    requires IsNode(n, p) && |p| > 1
    ensures p[0] < |n.subnodes| && IsNode(n.subnodes[p[0]], p[1..]) && IsNode(n, Parent(p))
    ensures IsNode(n.subnodes[p[0]], Parent(p[1..]))
    ensures Parent(p) == [p[0]] + Parent(p[1..]) && Last(p) == Last(p[1..])
    ensures At(n, Parent(p)) == At(n.subnodes[p[0]], Parent(p[1..]))
  {
    ParentIsNode(n, p);
    ParentIsNode(n.subnodes[p[0]], p[1..]);
    assert Parent(p)[1..] == Parent(p[1..]);
  }

  lemma Assoc(a: Path, b: Path, c: Path)
    ensures (a + b) + c == a + (b + c)
  {
  }

  lemma BelowStep(n: Node, p: Path)
    requires IsNode(n, p) && |p| > 1
    ensures Below(n, p) == [p[0]] + Below(n.subnodes[p[0]], p[1..])
  {
    hide IsNode, At, LastPath, Parent, Last;
    ParentStep(n, p);
    ParentIsNode(n, p);
    var sub, q := n.subnodes[p[0]], p[1..];
    if Last(p) > 0 {
      Assoc([p[0]], Parent(q), [Last(p) - 1] + LastPath(At(sub, Parent(q)).subnodes[Last(p) - 1]));
    }
  }

  lemma {:induction false} PrevByClimbing(n: Node, p: Path)
    requires IsNode(n, p) && p != []
    ensures PrevIn(n, p) == Below(n, p)
  {
    if |p| > 1 {
      PrevByClimbing(n.subnodes[p[0]], p[1..]);
      BelowStep(n, p);
    } else {
      ParentIsNode(n, p);
      assert Parent(p) == [];
      if Last(p) > 0 {
        var tail := [Last(p) - 1] + LastPath(n.subnodes[Last(p) - 1]);
        assert [] + tail == tail;
      }
    }
  }

  method Next(root: Node, p: Path) returns (q: Path)
    requires IsNode(root, p)
    ensures q == match NextIn(root, p) case Some(r) => r case None => p
  {
    NextByClimbing(root, p);
    if At(root, p).subnodes != [] { return p + [0]; }
    var n := p;
    while n != []
      invariant IsNode(root, n) && Above(root, n) == Above(root, p)
      decreases |n|
    {
      ParentIsNode(root, n);
      var i := Last(n) + 1;
      if i < |At(root, Parent(n)).subnodes| { return Parent(n) + [i]; }
      n := Parent(n);
    }
    q := p;
  }

  /** Goes to the bottom of the subtree at p. */
  method Bottom(root: Node, p: Path) returns (q: Path)
    requires IsNode(root, p)
    ensures q == p + LastPath(At(root, p)) && IsNode(root, q)
  {
    q := p;
    assert p + LastPath(At(root, p)) == q + LastPath(At(root, q));
    while At(root, q).subnodes != []
      invariant IsNode(root, q) && p + LastPath(At(root, p)) == q + LastPath(At(root, q))
      decreases At(root, q)
    {
      var i := |At(root, q).subnodes| - 1;
      ChildIsNode(root, q, i);
      assert q + ([i] + LastPath(At(root, q + [i]))) == (q + [i]) + LastPath(At(root, q + [i]));
      q := q + [i];
    }
    assert q + [] == q;
  }

  method Prev(root: Node, p: Path) returns (q: Path)
    requires IsNode(root, p)
    ensures q == if p == [] then p else PrevIn(root, p)
  {
    if p == [] { return p; }
    PrevByClimbing(root, p);
    ParentIsNode(root, p);
    if Last(p) > 0 {
      ChildIsNode(root, Parent(p), Last(p) - 1);
      q := Bottom(root, Parent(p) + [Last(p) - 1]);
      var tail := LastPath(At(root, Parent(p)).subnodes[Last(p) - 1]);
      assert (Parent(p) + [Last(p) - 1]) + tail == Parent(p) + ([Last(p) - 1] + tail);
    } else {
      q := Parent(p);
    }
  }

  /** The End key: the node from which next does not move. */
  method LastVisible(root: Node) returns (q: Path)
    ensures IsNode(root, q) && forall p | IsNode(root, p) :: NextIn(root, p).None? <==> p == q
  {
    q := Bottom(root, []);
    assert [] + LastPath(root) == LastPath(root);
    forall p | IsNode(root, p) ensures NextIn(root, p).None? <==> p == q { NextAndPrev(root, p); }
  }
}
