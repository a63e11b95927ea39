/**
 * Click resolution over the accessibility tree of the active window
 * (`clickByText`, `clickById`).
 *
 * The window is a borrowed, read-only view: its nodes are listed in the
 * order in which the platform's searches report matches (depth-first
 * pre-order), so every parent comes before its children. `WellFormed` asks
 * only for that, which makes every ancestor chain finite.
 */
module UiTree {
  import opened Wrappers

  /** An `AccessibilityNodeInfo`: text, view id, clickability and parent link. */
  datatype UiNode = UiNode(text: Option<string>, viewId: Option<string>, clickable: bool, parent: Option<nat>)

  datatype Window = Window(nodes: seq<UiNode>)

  /** Each parent link points to an earlier node of the same window. */
  predicate WellFormed(w: Window)
  {
    forall i :: 0 <= i < |w.nodes| && w.nodes[i].parent.Some? ==> w.nodes[i].parent.value < i
  }

  /** What a click attempt did: the one node it activated, if any. */
  datatype ClickOutcome = Activated(node: nat) | NotClicked

  /** `sub` occurs in `s` starting at position k. */
  predicate OccursAt(s: string, sub: string, k: int)
  {
    0 <= k <= |s| - |sub| && s[k .. k + |sub|] == sub
  }

  /** `sub` occurs somewhere in `s`. */
  predicate HasSubstring(s: string, sub: string)
  {
    exists k :: 0 <= k <= |s| && OccursAt(s, sub, k)
  }

  /** The platform's text search: an empty query, or a node with empty text, never matches. */
  predicate TextMatches(n: UiNode, text: string)
  {
    |text| > 0 && n.text.Some? && |n.text.value| > 0 && HasSubstring(n.text.value, text)
  }

  predicate IdMatches(n: UiNode, viewId: string)
  {
    n.viewId == Some(viewId)
  }

  /** The indices from `from` on whose node satisfies `keep`, in increasing order. */
  function Select(nodes: seq<UiNode>, keep: UiNode -> bool, from: nat): (r: seq<nat>)
    ensures forall k :: 0 <= k < |r| ==> from <= r[k] < |nodes| && keep(nodes[r[k]])
    ensures forall j :: from <= j < |nodes| && keep(nodes[j]) ==> j in r
    ensures forall a, b :: 0 <= a < b < |r| ==> r[a] < r[b]
    decreases |nodes| - from
  {
    if from >= |nodes| then []
    else if keep(nodes[from]) then [from] + Select(nodes, keep, from + 1)
    else Select(nodes, keep, from + 1)
  }

  /** `findAccessibilityNodeInfosByText`: the nodes whose text contains `text`, in window order. */
  function FindByText(w: Window, text: string): (r: seq<nat>)
    ensures forall k :: 0 <= k < |r| ==> r[k] < |w.nodes| && TextMatches(w.nodes[r[k]], text)
    ensures forall j :: 0 <= j < |w.nodes| && TextMatches(w.nodes[j], text) ==> j in r
    ensures forall a, b :: 0 <= a < b < |r| ==> r[a] < r[b]
  {
    Select(w.nodes, n => TextMatches(n, text), 0)
  }

  /** `findAccessibilityNodeInfosByViewId`: the nodes with that view id, in window order. */
  function FindById(w: Window, viewId: string): (r: seq<nat>)
    ensures forall k :: 0 <= k < |r| ==> r[k] < |w.nodes| && IdMatches(w.nodes[r[k]], viewId)
    ensures forall j :: 0 <= j < |w.nodes| && IdMatches(w.nodes[j], viewId) ==> j in r
    ensures forall a, b :: 0 <= a < b < |r| ==> r[a] < r[b]
  {
    Select(w.nodes, n => IdMatches(n, viewId), 0)
  }

  /** A selection over nodes none of which matches is empty. */
  lemma {:induction false} NoMatchSelectsNothing(nodes: seq<UiNode>, keep: UiNode -> bool, from: nat)
    requires forall j :: from <= j < |nodes| ==> !keep(nodes[j])
    ensures Select(nodes, keep, from) == []
    decreases |nodes| - from
  {
    if from < |nodes| {
      NoMatchSelectsNothing(nodes, keep, from + 1);
    }
  }

  /** An empty query finds nothing, so `clickByText("")` never clicks. */
  lemma EmptyQueryFindsNothing(w: Window)
    ensures FindByText(w, "") == []
  {
    NoMatchSelectsNothing(w.nodes, n => TextMatches(n, ""), 0);
  }

  /** The first entry of a search result is the earliest matching node of the window. */
  lemma {:induction false} FirstMatchIsEarliest(nodes: seq<UiNode>, keep: UiNode -> bool)
    requires Select(nodes, keep, 0) != []
    ensures var first := Select(nodes, keep, 0)[0];
            first < |nodes| && keep(nodes[first]) &&
            forall j :: 0 <= j < first ==> !keep(nodes[j])
  {
  }

  /** The node itself, its parent, its grandparent, ... up to a node without a parent. */
  function Chain(w: Window, n: nat): (c: seq<nat>)
    requires WellFormed(w) && n < |w.nodes|
    ensures |c| >= 1 && c[0] == n
    ensures forall k :: 0 <= k < |c| ==> c[k] < |w.nodes|
    ensures forall i, j :: 0 <= i && j == i + 1 && j < |c| ==> w.nodes[c[i]].parent == Some(c[j])
    ensures w.nodes[c[|c| - 1]].parent.None?
    decreases n
  {
    match w.nodes[n].parent
    case None => [n]
    case Some(p) => [n] + Chain(w, p)
  }

  /** The walk of `clickByText`: the node if clickable, else the nearest clickable ancestor. */
  function NearestClickable(w: Window, n: nat): (r: Option<nat>)
    requires WellFormed(w) && n < |w.nodes|
    ensures w.nodes[n].clickable ==> r == Some(n)
    ensures r.Some? ==> r.value <= n && w.nodes[r.value].clickable
    decreases n
  {
    if w.nodes[n].clickable then Some(n)
    else match w.nodes[n].parent
      case None => None
      case Some(p) => NearestClickable(w, p)
  }

  /** When the walk finds a node, it is the first clickable node of the chain. */
  lemma {:induction false} FoundIsFirstOnChain(w: Window, n: nat)
    requires WellFormed(w) && n < |w.nodes| && NearestClickable(w, n).Some?
    ensures var c, m := Chain(w, n), NearestClickable(w, n).value;
            exists k :: 0 <= k < |c| && c[k] == m && w.nodes[m].clickable &&
              forall j :: 0 <= j < k ==> !w.nodes[c[j]].clickable
    decreases n
  {
    var c := Chain(w, n);
    if w.nodes[n].clickable {
      assert NearestClickable(w, n).value == n;
      assert Chain(w, n)[0] == n;
    } else {
      var p := w.nodes[n].parent.value;
      FoundIsFirstOnChain(w, p);
      var c' := Chain(w, p);
      assert c == [n] + c';
      var m := NearestClickable(w, p).value;
      assert NearestClickable(w, n) == Some(m);
      var k' :| 0 <= k' < |c'| && c'[k'] == m && w.nodes[m].clickable &&
        forall j :: 0 <= j < k' ==> !w.nodes[c'[j]].clickable;
      assert c[k' + 1] == m;
      assert forall j :: 0 <= j < k' + 1 ==> !w.nodes[c[j]].clickable by {
        forall j | 0 <= j < k' + 1
          ensures !w.nodes[c[j]].clickable
        {
          if j > 0 { assert c[j] == c'[j - 1]; }
        }
      }
      assert c == Chain(w, n) && m == NearestClickable(w, n).value;
    }
  }

  /** When the walk finds nothing, no node of the chain is clickable. */
  lemma {:induction false} NoneOnChain(w: Window, n: nat)
    requires WellFormed(w) && n < |w.nodes| && NearestClickable(w, n).None?
    ensures var c := Chain(w, n);
            forall k :: 0 <= k < |c| ==> !w.nodes[c[k]].clickable
    decreases n
  {
    var c := Chain(w, n);
    match w.nodes[n].parent
    case None =>
      assert c == [n];
    case Some(p) =>
      assert !w.nodes[n].clickable && NearestClickable(w, p).None?;
      NoneOnChain(w, p);
      assert forall i :: 0 <= i < |Chain(w, p)| ==> !w.nodes[Chain(w, p)[i]].clickable;
      var c' := Chain(w, p);
      assert c == [n] + c';
      forall k | 0 <= k < |c|
        ensures !w.nodes[c[k]].clickable
      {
        if k > 0 { assert c[k] == c'[k - 1]; }
      }
  }

  /**
   * `NearestClickable` finds the first clickable node of the chain from `n`
   * upward, and finds nothing exactly when no node of the chain is clickable.
   */
  lemma NearestClickableIsFirstOnChain(w: Window, n: nat)
    requires WellFormed(w) && n < |w.nodes|
    ensures NearestClickable(w, n).Some? ==>
              var c, m := Chain(w, n), NearestClickable(w, n).value;
              exists k :: 0 <= k < |c| && c[k] == m && w.nodes[m].clickable &&
                forall j :: 0 <= j < k ==> !w.nodes[c[j]].clickable
    ensures NearestClickable(w, n).None? <==>
              var c := Chain(w, n);
              forall k :: 0 <= k < |c| ==> !w.nodes[c[k]].clickable
  {
    if NearestClickable(w, n).Some? {
      FoundIsFirstOnChain(w, n);
    } else {
      NoneOnChain(w, n);
    }
  }

  /**
   * A match that is not clickable, whose parent is not clickable either but
   * whose grandparent is, resolves to the grandparent.
   */
  lemma GrandparentReceivesClick(w: Window, n: nat, p: nat, g: nat)
    requires WellFormed(w) && n < |w.nodes|
    requires w.nodes[n].parent == Some(p) && w.nodes[p].parent == Some(g)
    requires !w.nodes[n].clickable && !w.nodes[p].clickable && w.nodes[g].clickable
    ensures NearestClickable(w, n) == Some(g)
  {
    assert NearestClickable(w, n) == NearestClickable(w, p);
    assert NearestClickable(w, p) == NearestClickable(w, g);
  }

  /**
   * `clickByText`: no window or no match gives false; otherwise the first
   * match, or failing that its nearest clickable ancestor, is activated.
   * Only the first match is ever looked at and at most one node is activated.
   */
  method ClickByText(root: Option<Window>, text: string) returns (r: ClickOutcome)
    requires root.Some? ==> WellFormed(root.value)
    ensures root.None? ==> r == NotClicked
    ensures root.Some? && FindByText(root.value, text) == [] ==> r == NotClicked
    ensures root.Some? && FindByText(root.value, text) != [] ==>
              var first := FindByText(root.value, text)[0];
              first < |root.value.nodes| &&
              r == match NearestClickable(root.value, first)
                   case Some(m) => Activated(m)
                   case None => NotClicked
  {
    if root.None? {
      return NotClicked;
    }
    var w := root.value;
    var nodes := FindByText(w, text);
    if |nodes| > 0 {
      var node := nodes[0];
      if w.nodes[node].clickable {
        return Activated(node);
      }
      var parent: Option<nat> := w.nodes[node].parent;
      while parent.Some?
        invariant node < |w.nodes|
        invariant parent.Some? ==> parent.value < node
        invariant parent.Some? ==> NearestClickable(w, node) == NearestClickable(w, parent.value)
        invariant parent.None? ==> NearestClickable(w, node) == None
        decreases if parent.Some? then parent.value + 1 else 0
      {
        var p := parent.value;
        if w.nodes[p].clickable {
          return Activated(p);
        }
        parent := w.nodes[p].parent;
      }
    }
    return NotClicked;
  }

  /**
   * `clickById`: true, activating the first match, exactly when there is a
   * window, some node has the id, and the first such node is itself
   * clickable; clickable ancestors are not considered.
   */
  function ClickById(root: Option<Window>, viewId: string): (r: ClickOutcome)
    ensures r.Activated? <==>
              root.Some? && FindById(root.value, viewId) != [] &&
              FindById(root.value, viewId)[0] < |root.value.nodes| &&
              root.value.nodes[FindById(root.value, viewId)[0]].clickable
    ensures r.Activated? ==> r.node == FindById(root.value, viewId)[0]
  {
    match root
    case None => NotClicked
    case Some(w) =>
      var nodes := FindById(w, viewId);
      if |nodes| > 0 && w.nodes[nodes[0]].clickable then Activated(nodes[0]) else NotClicked
  }

  /** A non-clickable first match is not clicked by id, even when an ancestor is clickable. */
  lemma ClickByIdNoFallback(w: Window, viewId: string)
    requires WellFormed(w) && FindById(w, viewId) != []
    requires !w.nodes[FindById(w, viewId)[0]].clickable
    ensures ClickById(Some(w), viewId) == NotClicked
  {
  }
}
