// The outline walk: bookmarks form a graph of first-child and next-sibling links that a
// damaged file may close into cycles. The walk keeps its own stack and two limits.

module Outline {
  import opened Wrappers

  type Bookmark = nat

  /** What PDFium reports about each bookmark. */
  datatype Bookmarks = Bookmarks(
    firstChild: Bookmark -> Option<Bookmark>,
    nextSibling: Bookmark -> Option<Bookmark>,
    title: Bookmark -> string,
    pageIndex: Bookmark -> Option<nat>)

  datatype OutlineNode = OutlineNode(title: string, pageIndex: Option<nat>, children: seq<OutlineNode>)

  const MAX_OUTLINE_DEPTH := 128
  const MAX_OUTLINE_ITEMS := 4096

  // The outline without limits

  /** `forest` is the complete unfolding of the sibling chain that starts at `next`. */
  ghost predicate Unfolds(g: Bookmarks, next: Option<Bookmark>, forest: seq<OutlineNode>)
    decreases forest
  {
    match next
    case None => forest == []
    case Some(b) =>
      && forest != []
      && forest[0].title == g.title(b)
      && forest[0].pageIndex == g.pageIndex(b)
      && Unfolds(g, g.firstChild(b), forest[0].children)
      && Unfolds(g, g.nextSibling(b), forest[1..])
  }

  ghost function Count(forest: seq<OutlineNode>): nat
    decreases forest
  {
    if forest == [] then 0 else 1 + Count(forest[0].children) + Count(forest[1..])
  }

  /** The number of levels. */
  ghost function Height(forest: seq<OutlineNode>): nat
    decreases forest
  {
    if forest == [] then 0 else Max(1 + Height(forest[0].children), Height(forest[1..]))
  }

  function Max(a: nat, b: nat): nat {
    if a > b then a else b
  }

  /** A chain has at most one unfolding. */
  lemma {:induction false} UnfoldingIsUnique(g: Bookmarks, next: Option<Bookmark>, f: seq<OutlineNode>,
      h: seq<OutlineNode>)
    requires Unfolds(g, next, f) && Unfolds(g, next, h)
    ensures f == h
    decreases f
  {
    match next {
      case None =>
      case Some(b) =>
        UnfoldingIsUnique(g, g.firstChild(b), f[0].children, h[0].children);
        UnfoldingIsUnique(g, g.nextSibling(b), f[1..], h[1..]);
        assert f == [f[0]] + f[1..] && h == [h[0]] + h[1..];
    }
  }

  /** `to` follows `from` by a child or a sibling link. */
  predicate Linked(g: Bookmarks, from: Bookmark, to: Bookmark) {
    g.firstChild(from) == Some(to) || g.nextSibling(from) == Some(to)
  }

  predicate Path(g: Bookmarks, path: seq<Bookmark>) {
    forall i :: 0 <= i < |path| - 1 ==> Linked(g, path[i], path[i + 1])
  }

  /** Every bookmark after the first of a path has a strictly smaller unfolding. */
  lemma {:induction false} UnfoldingShrinks(g: Bookmarks, path: seq<Bookmark>, forest: seq<OutlineNode>)
    returns (rest: seq<OutlineNode>)
    requires |path| >= 2 && Path(g, path) && Unfolds(g, Some(path[0]), forest)
    ensures Unfolds(g, Some(path[|path| - 1]), rest) && Count(rest) < Count(forest)
  {
    rest := if g.firstChild(path[0]) == Some(path[1]) then forest[0].children else forest[1..];
    assert Linked(g, path[0], path[1]);
    if |path| > 2 {
      assert forall i :: 0 <= i < |path| - 2 ==> Linked(g, path[1..][i], path[1..][i + 1]);
      rest := UnfoldingShrinks(g, path[1..], rest);
    }
  }

  /** A cycle has no finite unfolding. */
  lemma CycleHasNoUnfolding(g: Bookmarks, path: seq<Bookmark>, forest: seq<OutlineNode>)
    requires |path| >= 2 && Path(g, path) && path[0] == path[|path| - 1]
    ensures !Unfolds(g, Some(path[0]), forest)
  {
    if Unfolds(g, Some(path[0]), forest) {
      var rest := UnfoldingShrinks(g, path, forest);
      UnfoldingIsUnique(g, Some(path[0]), forest, rest);
    }
  }

  // The recursive walk with limits

  /** One bookmark with its subtree, and the number of bookmarks visited so far. */
  function WalkNode(g: Bookmarks, b: Bookmark, depth: nat, visited: nat): (r: Option<(OutlineNode, nat)>)
    ensures r.Some? ==> visited < r.value.1 <= MAX_OUTLINE_ITEMS
    decreases MAX_OUTLINE_ITEMS - visited, 0
  {
    if depth > MAX_OUTLINE_DEPTH || visited >= MAX_OUTLINE_ITEMS then None else
      match WalkForest(g, g.firstChild(b), depth + 1, visited + 1)
      case None => None
      case Some((children, after)) => Some((OutlineNode(g.title(b), g.pageIndex(b), children), after))
  }

  function WalkForest(g: Bookmarks, next: Option<Bookmark>, depth: nat,
      visited: nat): (r: Option<(seq<OutlineNode>, nat)>)
    ensures r.Some? ==> visited <= r.value.1 && (visited <= MAX_OUTLINE_ITEMS ==> r.value.1 <= MAX_OUTLINE_ITEMS)
    decreases MAX_OUTLINE_ITEMS - visited, 1
  {
    match next
    case None => Some(([], visited))
    case Some(b) =>
      match WalkNode(g, b, depth, visited)
      case None => None
      case Some((node, after)) =>
        match WalkForest(g, g.nextSibling(b), depth, after)
        case None => None
        case Some((more, last)) => Some(([node] + more, last))
  }

  /** A walk that succeeds returns the unfolding, which obeys the limits. */
  lemma {:induction false} WalkIsSound(g: Bookmarks, next: Option<Bookmark>, depth: nat, visited: nat)
    requires depth <= MAX_OUTLINE_DEPTH + 1 && visited <= MAX_OUTLINE_ITEMS
    requires WalkForest(g, next, depth, visited).Some?
    ensures var (forest, after) := WalkForest(g, next, depth, visited).value;
            && Unfolds(g, next, forest)
            && after == visited + Count(forest)
            && depth + Height(forest) <= MAX_OUTLINE_DEPTH + 1
    decreases MAX_OUTLINE_ITEMS - visited
  {
    if next.Some? {
      var b := next.value;
      var (children, middle) := WalkForest(g, g.firstChild(b), depth + 1, visited + 1).value;
      WalkIsSound(g, g.firstChild(b), depth + 1, visited + 1);
      WalkIsSound(g, g.nextSibling(b), depth, middle);
      var (more, _) := WalkForest(g, g.nextSibling(b), depth, middle).value;
      var node := OutlineNode(g.title(b), g.pageIndex(b), children);
      assert ([node] + more)[1..] == more;
    }
  }

  /** A walk over a chain whose unfolding obeys the limits succeeds with it. */
  lemma {:induction false} WalkIsComplete(g: Bookmarks, next: Option<Bookmark>, depth: nat, visited: nat,
      forest: seq<OutlineNode>)
    requires Unfolds(g, next, forest)
    requires depth + Height(forest) <= MAX_OUTLINE_DEPTH + 1 && visited + Count(forest) <= MAX_OUTLINE_ITEMS
    ensures WalkForest(g, next, depth, visited) == Some((forest, visited + Count(forest)))
    decreases forest
  {
    if next.Some? {
      var b := next.value;
      var children, more := forest[0].children, forest[1..];
      assert forest == [forest[0]] + more;
      WalkIsComplete(g, g.firstChild(b), depth + 1, visited + 1, children);
      WalkIsComplete(g, g.nextSibling(b), depth, visited + 1 + Count(children), more);
    }
  }

  /** The outline of a document within the limits of the product. */
  ghost predicate Admissible(g: Bookmarks, root: Option<Bookmark>, forest: seq<OutlineNode>) {
    Unfolds(g, root, forest) && Height(forest) <= MAX_OUTLINE_DEPTH + 1 && Count(forest) <= MAX_OUTLINE_ITEMS
  }

  function Outline(g: Bookmarks, root: Option<Bookmark>): Option<seq<OutlineNode>> {
    match WalkForest(g, root, 0, 0)
    case None => None
    case Some((forest, _)) => Some(forest)
  }

  /**
   * The walk returns a forest exactly when it is the unfolding of the graph, no bookmark is
   * deeper than 128 and there are at most 4096 of them; in all other cases, a cyclic graph
   * included, it fails.
   */
  lemma OutlineIsTheUnfolding(g: Bookmarks, root: Option<Bookmark>, forest: seq<OutlineNode>)
    ensures Outline(g, root) == Some(forest) <==> Admissible(g, root, forest)
    ensures Outline(g, root).None? <==> !exists f :: Admissible(g, root, f)
  {
    if Outline(g, root).Some? {
      WalkIsSound(g, root, 0, 0);
      assert Admissible(g, root, Outline(g, root).value);
    }
    forall f | Admissible(g, root, f) ensures Outline(g, root) == Some(f) {
      WalkIsComplete(g, root, 0, 0, f);
    }
  }

  lemma CyclicOutlineFails(g: Bookmarks, path: seq<Bookmark>)
    requires |path| >= 2 && Path(g, path) && path[0] == path[|path| - 1]
    ensures Outline(g, Some(path[0])).None?
  {
    if Outline(g, Some(path[0])).Some? {
      WalkIsSound(g, Some(path[0]), 0, 0);
      CycleHasNoUnfolding(g, path, Outline(g, Some(path[0])).value);
    }
  }

  // The walk with an explicit stack

  datatype Frame = Frame(node: OutlineNode, nextChild: Option<Bookmark>, depth: nat)

  /** `OutlineFrame::new` together with `validate_outline_limits`. */
  method NewFrame(g: Bookmarks, b: Bookmark, depth: nat, visited: nat) returns (r: Option<Frame>, after: nat)
    ensures r.Some? <==> depth <= MAX_OUTLINE_DEPTH && visited < MAX_OUTLINE_ITEMS
    ensures r.Some? ==>
              && after == visited + 1
              && r.value == Frame(OutlineNode(g.title(b), g.pageIndex(b), []), g.firstChild(b), depth)
    ensures r.None? ==> after == visited
  {
    after := visited;
    if depth > MAX_OUTLINE_DEPTH || visited >= MAX_OUTLINE_ITEMS {
      return None, after;
    }
    after := visited + 1;
    var nextChild := g.firstChild(b);
    var node := OutlineNode(g.title(b), g.pageIndex(b), []);
    r := Some(Frame(node, nextChild, depth));
  }

  function AddChild(f: Frame, node: OutlineNode): Frame {
    f.(node := f.node.(children := f.node.children + [node]))
  }

  /** What remains to be done for a stack: each frame, from the top, completes and is handed down. */
  function Finish(g: Bookmarks, stack: seq<Frame>, visited: nat): Option<(OutlineNode, nat)>
    requires stack != []
    decreases |stack|
  {
    var n := |stack| - 1;
    var f := stack[n];
    match WalkForest(g, f.nextChild, f.depth + 1, visited)
    case None => None
    case Some((more, after)) =>
      var node := f.node.(children := f.node.children + more);
      if n == 0 then Some((node, after)) else Finish(g, stack[..n - 1] + [AddChild(stack[n - 1], node)], after)
  }

  /** The top frame completes and is handed to the frame below it. */
  lemma FinishTop(g: Bookmarks, lower: seq<Frame>, top: Frame, visited: nat)
    requires lower != []
    ensures Finish(g, lower + [top], visited)
         == match WalkForest(g, top.nextChild, top.depth + 1, visited)
            case None => None
            case Some((more, after)) =>
              var node := top.node.(children := top.node.children + more);
              Finish(g, lower[..|lower| - 1] + [AddChild(lower[|lower| - 1], node)], after)
  {
    hide WalkForest;
    var stack, n := lower + [top], |lower|;
    assert stack[n] == top && stack[n - 1] == lower[n - 1];
    assert stack[..n - 1] == lower[..n - 1];
  }

  /** Descending to the next child does not change the result. */
  lemma PushKeepsResult(g: Bookmarks, lower: seq<Frame>, f: Frame, visited: nat)
    requires f.nextChild.Some?
    ensures var b := f.nextChild.value;
            var child := Frame(OutlineNode(g.title(b), g.pageIndex(b), []), g.firstChild(b), f.depth + 1);
            Finish(g, lower + [f], visited)
            == if f.depth + 1 > MAX_OUTLINE_DEPTH || visited >= MAX_OUTLINE_ITEMS then None
               else Finish(g, lower + [f.(nextChild := g.nextSibling(b))] + [child], visited + 1)
  {
    var b := f.nextChild.value;
    var f' := f.(nextChild := g.nextSibling(b));
    var child := Frame(OutlineNode(g.title(b), g.pageIndex(b), []), g.firstChild(b), f.depth + 1);
    if WalkNode(g, b, f.depth + 1, visited).Some? {
      var (node, middle) := WalkNode(g, b, f.depth + 1, visited).value;
      FinishBelow(g, lower, f, node, middle, visited);
      FinishTop(g, lower + [f'], child, visited + 1);
      assert (lower + [f'])[..|lower|] == lower;
      assert [] + node.children == node.children;
    } else {
      ChildFails(g, lower, f, visited);
      if f.depth + 1 <= MAX_OUTLINE_DEPTH && visited < MAX_OUTLINE_ITEMS {
        FinishTop(g, lower + [f'], child, visited + 1);
      }
    }
  }

  lemma ChildFails(g: Bookmarks, lower: seq<Frame>, f: Frame, visited: nat)
    requires f.nextChild.Some? && WalkNode(g, f.nextChild.value, f.depth + 1, visited) == None
    ensures Finish(g, lower + [f], visited) == None
  {
    assert (lower + [f])[|lower|] == f;
  }

  lemma FinishBelow(g: Bookmarks, lower: seq<Frame>, f: Frame, node: OutlineNode, middle: nat, visited: nat)
    requires f.nextChild.Some? && WalkNode(g, f.nextChild.value, f.depth + 1, visited) == Some((node, middle))
    ensures Finish(g, lower + [f], visited)
         == Finish(g, lower + [AddChild(f.(nextChild := g.nextSibling(f.nextChild.value)), node)], middle)
  {
    var stack := lower + [f];
    var f' := AddChild(f.(nextChild := g.nextSibling(f.nextChild.value)), node);
    var stack' := lower + [f'];
    var n := |lower|;
    assert stack[n] == f && stack'[n] == f';
    match WalkForest(g, f'.nextChild, f.depth + 1, middle) {
      case None =>
      case Some((more, after)) =>
        assert f.node.children + ([node] + more) == f'.node.children + more;
        if n > 0 {
          assert stack[..n - 1] == stack'[..n - 1] && stack[n - 1] == stack'[n - 1];
        }
    }
  }

  /** `bounded_outline`: the subtree of one bookmark. */
  method BoundedOutline(g: Bookmarks, root: Bookmark, visited: nat) returns (r: Option<OutlineNode>, after: nat)
    requires visited <= MAX_OUTLINE_ITEMS
    ensures r.Some? ==> WalkNode(g, root, 0, visited) == Some((r.value, after))
    ensures r.None? ==> WalkNode(g, root, 0, visited) == None
    ensures after <= MAX_OUTLINE_ITEMS
  {
    var frame: Option<Frame>;
    frame, after := NewFrame(g, root, 0, visited);
    if frame.None? {
      return None, after;
    }
    var stack := [frame.value];
    assert forall more: seq<OutlineNode> :: [] + more == more;
    while true
      invariant stack != [] && after <= MAX_OUTLINE_ITEMS
      invariant Finish(g, stack, after) == WalkNode(g, root, 0, visited)
      decreases MAX_OUTLINE_ITEMS - after, |stack|
    {
      var top := stack[|stack| - 1];
      if top.nextChild.Some? {
        PushKeepsResult(g, stack[..|stack| - 1], top, after);
        assert stack == stack[..|stack| - 1] + [top];
        var b := top.nextChild.value;
        stack := stack[..|stack| - 1] + [top.(nextChild := g.nextSibling(b))];
        var child: Option<Frame>;
        child, after := NewFrame(g, b, top.depth + 1, after);
        if child.None? {
          return None, after;
        }
        stack := stack + [child.value];
      } else {
        var node := top.node;
        assert node.children + [] == node.children;
        assert stack == stack[..|stack| - 1] + [top];
        stack := stack[..|stack| - 1];
        if stack != [] {
          FinishTop(g, stack, top, after);
        }
        if stack == [] {
          return Some(node), after;
        }
        var parent := stack[|stack| - 1];
        stack := stack[..|stack| - 1] + [AddChild(parent, node)];
      }
    }
  }

  /** `get_outline`: all top-level bookmarks share one visit counter. */
  method GetOutline(g: Bookmarks, root: Option<Bookmark>) returns (r: Option<seq<OutlineNode>>)
    ensures r == Outline(g, root)
  {
    var nodes: seq<OutlineNode> := [];
    var current := root;
    var visited := 0;
    assert forall more: seq<OutlineNode> :: [] + more == more;
    while current.Some?
      invariant visited <= MAX_OUTLINE_ITEMS
      invariant WalkForest(g, root, 0, 0)
             == match WalkForest(g, current, 0, visited)
                case None => None
                case Some((more, last)) => Some((nodes + more, last))
      decreases MAX_OUTLINE_ITEMS - visited, current.Some?
    {
      var bookmark := current.value;
      var node: Option<OutlineNode>;
      ghost var before := visited;
      node, visited := BoundedOutline(g, bookmark, visited);
      if node.None? {
        return None;
      }
      current := g.nextSibling(bookmark);
      var added := nodes + [node.value];
      assert forall more: seq<OutlineNode> :: nodes + ([node.value] + more) == added + more;
      nodes := added;
    }
    assert nodes + [] == nodes;
    return Some(nodes);
  }
}
