/** Moving among the menus and symbols of a rulebase (contrib/cml2/cmlsystem.py, next_node). */
module MenuTree {
  import opened Options
  import opened TreeControl

  /** An item that is walked into is a menu without a default; choices and defaulted menus are passed by. */
  datatype Item = Item(walked: bool, items: seq<Item>)

  /** Childless menus are messages, which are not walked into. */
  predicate WellFormed(x: Item) {
    (x.walked ==> x.items != []) && forall i | 0 <= i < |x.items| :: WellFormed(x.items[i])
  }

  /** The items as the tree whose nodes are walked through. */
  function Walked(x: Item): Node {
    Node(0, x.walked, if x.walked then WalkedAll(x.items) else [])
  }

  function WalkedAll(xs: seq<Item>): (ns: seq<Node>)
    ensures |ns| == |xs| && forall i | 0 <= i < |xs| :: ns[i] == Walked(xs[i])
  {
    if xs == [] then [] else [Walked(xs[0])] + WalkedAll(xs[1..])
  }

  function ItemAt(x: Item, p: Path): Item
    requires IsNode(Walked(x), p)
    decreases p
  {
    if p == [] then x else ItemAt(x.items[p[0]], p[1..])
  }

  lemma {:induction false} ItemAtWalked(x: Item, p: Path)
    requires IsNode(Walked(x), p)
    ensures At(Walked(x), p) == Walked(ItemAt(x, p))
    decreases p
  {
    if p == [] {
    } else {
      ItemAtWalked(x.items[p[0]], p[1..]);
    }
  }

  lemma {:induction false} WellFormedAt(x: Item, p: Path)
    requires WellFormed(x) && IsNode(Walked(x), p)
    ensures WellFormed(ItemAt(x, p))
    decreases p
  {
    if p == [] {
    } else {
      WellFormedAt(x.items[p[0]], p[1..]);
    }
  }

  function Successor(x: Item, p: Path): Path
    requires IsNode(Walked(x), p)
  {
    match NextIn(Walked(x), p)
    case Some(q) => q
    case None => []
  }

  lemma ItemFacts(x: Item, p: Path)
    requires WellFormed(x) && IsNode(Walked(x), p)
    ensures |At(Walked(x), p).subnodes| == if ItemAt(x, p).walked then |ItemAt(x, p).items| else 0
    ensures ItemAt(x, p).walked ==> ItemAt(x, p).items != []
  {
    ItemAtWalked(x, p);
    WellFormedAt(x, p);
  }

  /** One turn of the climb: to the next sibling, or up to the parent. */
  lemma ClimbStep(x: Item, p: Path)
    requires WellFormed(x) && IsNode(Walked(x), p) && p != []
    ensures IsNode(Walked(x), Parent(p))
    ensures ItemAt(x, Parent(p)).walked && Last(p) < |ItemAt(x, Parent(p)).items|
    ensures Above(Walked(x), p) ==
            if Last(p) + 1 < |ItemAt(x, Parent(p)).items| then Some(Parent(p) + [Last(p) + 1])
            else Above(Walked(x), Parent(p))
  {
    hide IsNode, At, Walked, WellFormed, ItemAt;
    ParentIsNode(Walked(x), p);
    ItemFacts(x, Parent(p));
  }

  lemma NoneAbove(n: Node)
    ensures Above(n, []) == None
  {
  }

  /** `start` is the menu without a parent; from the last item the loop climbs back to it. */
  method NextNode(start: Item, here: Path) returns (q: Path)
    requires WellFormed(start) && IsNode(Walked(start), here)
    ensures q == Successor(start, here)
  {
    hide NextIn, At, Walked, IsNode, WellFormed, ItemAt, Above, Parent, Last;
    NextByClimbing(Walked(start), here);
    ItemFacts(start, here);
    if ItemAt(start, here).walked { return here + [0]; }
    q := here;
    while q != []
      invariant IsNode(Walked(start), q) && Above(Walked(start), q) == Above(Walked(start), here)
      decreases |q|
    {
      ClimbStep(start, q);
      ParentShorter(q);
      var where, up := Last(q), ItemAt(start, Parent(q));
      if where >= |up.items| - 1 {
        q := Parent(q);
      } else {
        return Parent(q) + [where + 1];
      }
    }
    NoneAbove(Walked(start));
  }

  lemma ParentShorter(p: Path)
    requires p != []
    ensures |Parent(p)| < |p|
  {
  }

  /** Where k steps lead from the start menu. */
  function Steps(x: Item, k: nat): (p: Path)
    ensures IsNode(Walked(x), p)
  {
    if k == 0 then [] else
    var p := Steps(x, k - 1);
    NextAndPrev(Walked(x), p);
    Successor(x, p)
  }

  /** Stepping on from the start goes through every item once, in preorder, and is then back at the start. */
  lemma {:induction false} StepsEnumerate(x: Item, k: nat)
    ensures k < |Preorder(Walked(x))| ==> Steps(x, k) == Preorder(Walked(x))[k]
    ensures k == |Preorder(Walked(x))| ==> Steps(x, k) == []
    decreases k
  {
    hide Preorder, Walked, NextIn, IsNode;
    PreorderEnds(Walked(x));
    if k == 0 {
    } else {
      StepsEnumerate(x, k - 1);
      if k - 1 < |Preorder(Walked(x))| { NextEnumerates(Walked(x), k - 1); }
    }
  }

  lemma EveryItemOnce(x: Item, p: Path) returns (k: nat)
    requires IsNode(Walked(x), p)
    ensures k < |Preorder(Walked(x))| && Steps(x, k) == p
    ensures forall j: nat | j < |Preorder(Walked(x))| && Steps(x, j) == p :: j == k
    ensures Steps(x, |Preorder(Walked(x))|) == []
  {
    k := InPreorder(Walked(x), p);
    StepsEnumerate(x, k);
    forall j: nat | j < |Preorder(Walked(x))| && Steps(x, j) == p ensures j == k {
      StepsEnumerate(x, j);
      if j < k { PreorderDistinct(Walked(x), j, k); }
      if k < j { PreorderDistinct(Walked(x), k, j); }
    }
    StepsEnumerate(x, |Preorder(Walked(x))|);
  }
}
