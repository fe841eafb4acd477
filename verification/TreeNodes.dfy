/**
 * The nodes of the tree control as the objects they are (contrib/cml2/tree.py: class Node): toggling a node replaces
 * its list of subnodes, and the expanded paths are collected with an explicit stack.
 */
module TreeNodes {
  import opened Options
  import opened TreeControl
  import opened TreeState

  class TreeNode {
    const content: Content
    var openFlag: bool
    var subnodes: seq<TreeNode>
    ghost var Repr: set<object>

    /** Nodes with disjoint subtrees, all within the footprint. */
    static ghost predicate Separate(nodes: seq<TreeNode>, fp: set<object>)
      reads nodes
    {
      && (forall i | 0 <= i < |nodes| :: nodes[i] in fp && nodes[i].Repr <= fp)
      && (forall i, j | 0 <= i < j < |nodes| :: nodes[i].Repr !! nodes[j].Repr)
    }

    ghost predicate Valid()
      reads this, Repr
      ensures Valid() ==> this in Repr && |subnodes| == if openFlag then |content.kids| else 0
      decreases content
    {
      && this in Repr
      && |subnodes| == (if openFlag then |content.kids| else 0)
      && (openFlag ==> content.expandable)
      && (forall i | 0 <= i < |subnodes| ::
            && subnodes[i] in Repr && subnodes[i].Repr <= Repr && this !in subnodes[i].Repr
            && subnodes[i].content == content.kids[i])
      && (forall i, j | 0 <= i < j < |subnodes| :: subnodes[i].Repr !! subnodes[j].Repr)
      && (forall i | 0 <= i < |subnodes| :: subnodes[i].content == content.kids[i] && subnodes[i].Valid())
    }

    /** The tree under this node as a value. */
    ghost function View(): (n: Node)
      requires Valid()
      reads this, Repr
      ensures n.id == content.id && n.open == openFlag && |n.subnodes| == |subnodes|
      decreases content, 1
    {
      Node(content.id, openFlag, Views(|subnodes|))
    }

    ghost function Views(k: nat): (ns: seq<Node>)
      requires Valid() && k <= |subnodes|
      reads this, Repr
      ensures |ns| == k && forall i | 0 <= i < k :: subnodes[i].Valid() && ns[i] == subnodes[i].View()
      decreases content, 0, k
    {
      if k == 0 then [] else Views(k - 1) + [subnodes[k - 1].View()]
    }

    lemma {:induction false} ViewShows()
      requires Valid()
      ensures Shows(View(), content)
      decreases content
    {
      forall i | 0 <= i < |subnodes| ensures Shows(View().subnodes[i], content.kids[i]) { subnodes[i].ViewShows(); }
    }

    constructor (content: Content)
      ensures Valid() && fresh(Repr) && this.content == content && View() == Closed(content)
    {
      this.content := content;
      openFlag := false;
      subnodes := [];
      Repr := {this};
    }

    /** One closed node for each entry of the contents. */
    static method CreateSubnodes(kids: seq<Content>) returns (nodes: seq<TreeNode>, ghost fp: set<object>)
      ensures |nodes| == |kids| && fresh(fp) && Separate(nodes, fp)
      ensures forall i | 0 <= i < |nodes| ::
          nodes[i].content == kids[i] && nodes[i].Valid() && nodes[i].View() == Closed(kids[i])
    {
      nodes, fp := [], {};
      while |nodes| < |kids|
        invariant |nodes| <= |kids| && fresh(fp) && Separate(nodes, fp)
        invariant forall i | 0 <= i < |nodes| ::
            nodes[i].content == kids[i] && nodes[i].Valid() && nodes[i].View() == Closed(kids[i])
      {
        var sub := new TreeNode(kids[|nodes|]);
        nodes := nodes + [sub];
        fp := fp + sub.Repr;
      }
    }

    lemma Assembled(ns: seq<Node>)
      requires openFlag && content.expandable && this in Repr && |subnodes| == |content.kids| == |ns|
      requires Separate(subnodes, Repr - {this})
      requires forall i | 0 <= i < |subnodes| ::
          subnodes[i].content == content.kids[i] && subnodes[i].Valid() && subnodes[i].View() == ns[i]
      ensures Valid() && View() == Node(content.id, true, ns)
    {
      assert Valid();
      assert Views(|subnodes|) == ns;
    }

    lemma Taken()
      requires Valid()
      ensures openFlag ==> content.expandable && Separate(subnodes, Repr - {this})
      ensures forall i | 0 <= i < |subnodes| ::
          && i < |content.kids| && subnodes[i].content == content.kids[i] && subnodes[i].Valid()
          && this !in subnodes[i].Repr && subnodes[i].View() == View().subnodes[i]
    {
    }

    method Open()
      requires Valid() && content.expandable && !openFlag
      modifies this
      ensures Valid() && fresh(Repr - old(Repr))
      ensures View() == Node(content.id, true, AllClosed(content.kids))
    {
      hide Shows, Valid, View;
      var nodes, fp := CreateSubnodes(content.kids);
      openFlag, subnodes := true, nodes;
      Repr := {this} + fp;
      Assembled(AllClosed(content.kids));
    }

    /** Goes to the wanted state, or to the other one if none is given. */
    method ToggleState(state: Option<bool>)
      requires Valid()
      modifies this
      ensures Valid() && fresh(Repr - old(Repr))
      ensures View() == SetOpen(old(View()), content, if state.Some? then state.value else !old(openFlag))
    {
      if !content.expandable { return; }
      if state.Some? && state.value == openFlag { return; }
      if !openFlag {
        Open();
      } else {
        openFlag, subnodes := false, [];
        Repr := {this};
      }
    }

    /** Opens this node and as much of the path below it as exists. */
    method Expand(dirs: seq<nat>)
      requires Valid()
      modifies Repr
      ensures Valid() && fresh(Repr - old(Repr))
      ensures Shows(old(View()), content) && View() == TreeState.Expand(old(View()), content, dirs)
      decreases content, 2
    {
      ViewShows();
      if dirs == [] {
        ToggleState(Some(true));
      } else {
        ExpandPath(dirs);
      }
    }

    method ExpandPath(dirs: seq<nat>)
      requires Valid() && dirs != []
      modifies Repr
      ensures Valid() && fresh(Repr - old(Repr))
      ensures Shows(old(View()), content) && View() == TreeState.Expand(old(View()), content, dirs)
      decreases content, 1
    {
      hide Shows, Find, SetOpen, TreeState.Expand, Valid, View;
      ViewShows();
      ExpandStep(View(), dirs);
      ToggleState(Some(true));
      Taken();
      var i := FindSubnode(dirs[0]);
      if i < |subnodes| { ExpandKid(i, dirs[1..]); }
    }

    lemma ExpandStep(n: Node, dirs: seq<nat>)
      requires Shows(n, content) && dirs != []
      ensures var now := SetOpen(n, content, true);
              var i := Find(now.subnodes, dirs[0]);
              && Shows(now, content)
              && (i < |now.subnodes| ==>
                  && i < |content.kids| && Shows(now.subnodes[i], content.kids[i])
                  && TreeState.Expand(n, content, dirs) ==
                     now.(subnodes := now.subnodes[i := TreeState.Expand(now.subnodes[i], content.kids[i], dirs[1..])]))
              && (i == |now.subnodes| ==> TreeState.Expand(n, content, dirs) == now)
    {
    }

    method FindSubnode(id: nat) returns (i: nat)
      requires Valid()
      ensures i == Find(View().subnodes, id)
    {
      i := 0;
      while i < |subnodes| && subnodes[i].content.id != id
        invariant i <= |subnodes|
        invariant forall j | 0 <= j < i :: View().subnodes[j].id != id
      {
        i := i + 1;
      }
    }

    method ExpandKid(i: nat, dirs: seq<nat>)
      requires Valid() && i < |subnodes|
      modifies Repr
      ensures Valid() && fresh(Repr - old(Repr)) && subnodes == old(subnodes)
      ensures Shows(old(subnodes[i].View()), content.kids[i])
      ensures var sub := TreeState.Expand(old(subnodes[i].View()), content.kids[i], dirs);
              View() == old(View()).(subnodes := old(View()).subnodes[i := sub])
      decreases content, 0
    {
      hide Shows, TreeState.Expand, Valid, View;
      Taken();
      ghost var before := View();
      var kid := subnodes[i];
      kid.Expand(dirs);
      Repr := Repr + kid.Repr;
      forall j | 0 <= j < |subnodes| && j != i ensures subnodes[j].Valid() && subnodes[j].View() == before.subnodes[j] {
        assert subnodes[j].Repr !! old(kid.Repr);
      }
      Assembled(before.subnodes[i := kid.View()]);
    }

    /** The paths of the innermost open nodes. */
    method Expanded() returns (list: seq<seq<nat>>)
      requires Valid()
      ensures list == TreeState.Expanded(View())
    {
      hide Valid, View, Ahead, Weight, Count, TreeState.Expanded, Behind;
      var stack: seq<(TreeNode, seq<nat>)> := [(this, [content.id])];
      ghost var views: seq<Visit> := [(View(), [content.id])];
      list := [];
      Started(View(), content.id);
      while stack != []
        invariant Stacked(stack, views)
        invariant list + Ahead(views) == TreeState.Expanded(View())
        decreases Weight(views)
      {
        var (p, i) := stack[|stack| - 1];
        stack := stack[..|stack| - 1];
        Popped(views);
        ghost var left := Ahead(views);
        ghost var base := views[..|views| - 1];
        var leaf;
        leaf, stack, views := PushOpen(p, i, stack, base);
        Turned(list, if leaf then [i[1..]] else [], Ahead(views), left);
        list := list + if leaf then [i[1..]] else [];
      }
      Finished();
    }

    static ghost predicate Stacked(stack: seq<(TreeNode, seq<nat>)>, views: seq<Visit>)
      reads set e | e in stack :: e.0, set e, o | e in stack && o in e.0.Repr :: o
    {
      && |stack| == |views|
      && (forall k | 0 <= k < |stack| :: stack[k].0.Valid())
      && (forall k | 0 <= k < |stack| :: stack[k].1 != [] && views[k] == (stack[k].0.View(), stack[k].1))
    }

    /** Pushes the open subnodes; says whether there was none. */
    static method PushOpen(p: TreeNode, i: seq<nat>, below: seq<(TreeNode, seq<nat>)>, ghost base: seq<Visit>)
      returns (leaf: bool, stack: seq<(TreeNode, seq<nat>)>, ghost views: seq<Visit>)
      requires p.Valid() && i != [] && Stacked(below, base)
      ensures Stacked(stack, views)
      ensures (if leaf then [i[1..]] else []) + Ahead(views) ==
              Behind(i[1..], TreeState.Expanded(p.View())) + Ahead(base)
      ensures Weight(views) < Count(p.View()) + Weight(base)
    {
      hide TreeNode.Valid, TreeNode.View, Ahead, Weight, Count, TreeState.Expanded, OpenUpTo, Behind;
      ghost var n := p.View();
      stack, views, leaf := below, base, true;
      Starting(n, i, base);
      p.Taken();
      var k := 0;
      while k < |p.subnodes|
        invariant k <= |p.subnodes| && Stacked(stack, views) && leaf == !OpenUpTo(n, k)
        invariant Ahead(views) == Behind(i[1..], ExpandedUpTo(n, k)) + Ahead(base)
        invariant Weight(views) <= CountUpTo(n, k) + Weight(base)
      {
        PushStep(n, i, k, base, views);
        var sub := p.subnodes[k];
        if sub.openFlag {
          leaf := false;
          stack := stack + [(sub, i + [sub.content.id])];
          views := views + [(n.subnodes[k], i + [sub.content.id])];
        }
        k := k + 1;
      }
      Pushed(n, i, if leaf then [i[1..]] else [], base, views);
    }
  }

  /** The control: its root node, whose contents do not change meanwhile, and the way of ids to the cursor. */
  class Tree {
    const root: TreeNode
    const pos: seq<nat>

    constructor (root: TreeNode, pos: seq<nat>)
      ensures this.root == root && this.pos == pos
    {
      this.root := root;
      this.pos := pos;
    }

    /** Collapses the tree and opens the expanded paths again. */
    method Redraw()
      requires root.Valid() && DistinctIds(root.content)
      modifies root.Repr
      ensures root.Valid() && fresh(root.Repr - old(root.Repr))
      ensures Shows(old(root.View()), root.content)
      ensures root.View() ==
              if old(root.openFlag) then old(root.View()) else SetOpen(old(root.View()), root.content, true)
    {
      hide TreeNode.Valid, TreeNode.View, Shows, DistinctIds, SetOpen, TreeState.Expand, ExpandAll, TreeState.Expanded;
      root.ViewShows();
      Restored(root.View(), root.content);
      if !root.openFlag { RestoredClosed(root.View(), root.content); }
      var list := root.Expanded();
      root.ToggleState(Some(false));
      ghost var closed := root.View();
      ExpandNothing(closed, root.content);
      for k := 0 to |list|
        invariant root.Valid() && fresh(root.Repr - old(root.Repr)) && Shows(closed, root.content)
        invariant root.View() == ExpandAll(closed, root.content, list[..k])
      {
        ExpandOneMore(closed, root.content, list[..k], list[k]);
        assert list[..k] + [list[k]] == list[..k + 1];
        root.Expand(list[k]);
      }
      assert list[..|list|] == list;
    }

    /** Redraws the tree and goes back to the cursor, which opens the node there. */
    method UpdateTree()
      requires root.Valid() && DistinctIds(root.content) && Present(root.View(), pos)
      modifies root.Repr
      ensures root.Valid() && fresh(root.Repr - old(root.Repr)) && Present(root.View(), pos)
      ensures Shows(old(root.View()), root.content)
      ensures root.View() == TreeState.Expand(old(root.View()), root.content, pos)
      ensures root.View() == old(root.View()) <==> !CanOpen(old(root.View()), root.content, pos)
    {
      hide TreeNode.Valid, TreeNode.View, Shows, DistinctIds, SetOpen, TreeState.Expand, CanOpen;
      root.ViewShows();
      ExpandVisible(root.View(), root.content, pos);
      ClosedCursor(root.View(), root.content, pos);
      Redraw();
      root.Expand(pos);
    }
  }
}
