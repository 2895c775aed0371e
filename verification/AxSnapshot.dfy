/** Collapsing an accessibility snapshot into numbered interactive targets and headings. */
module AxSnapshot {
  import opened Wrappers
  import opened Targets

  const MAX_INTERACTIVE_TARGETS: nat := 60

  const INTERACTIVE_ROLES: set<string> :=
    {"button", "link", "textbox", "checkbox", "radio", "combobox", "listbox", "option", "menuitem",
     "menuitemcheckbox", "menuitemradio", "switch", "slider", "spinbutton", "tab", "searchbox", "treeitem"}

  /** A node, or something else that a snapshot holds in a node's place. */
  datatype AxNode =
    | NotANode
    | AxNode(
        role: Option<string>,
        name: Option<string>,
        url: Option<string>,
        value: Option<string>,
        state: ControlState,
        children: seq<AxNode>)

  predicate IsInteractive(node: AxNode) {
    node.AxNode? && node.role.Some? && Lower(node.role.value) in INTERACTIVE_ROLES
  }

  predicate IsHeading(node: AxNode) {
    node.AxNode? && node.role.Some? && Lower(node.role.value) == "heading"
  }

  /** The nodes below and including `node`, parents first, children in order. */
  function Preorder(node: AxNode): seq<AxNode> {
    match node
    case NotANode => []
    case AxNode(_, _, _, _, _, children) => [node] + PreorderAll(children)
  }

  function PreorderAll(nodes: seq<AxNode>): seq<AxNode> {
    if nodes == [] then [] else PreorderAll(nodes[..|nodes| - 1]) + Preorder(nodes[|nodes| - 1])
  }

  function Interactive(nodes: seq<AxNode>): (found: seq<AxNode>)
    ensures forall node <- found :: IsInteractive(node)
  {
    if nodes == [] then []
    else Interactive(nodes[..|nodes| - 1]) + if IsInteractive(nodes[|nodes| - 1]) then [nodes[|nodes| - 1]] else []
  }

  predicate IsNamedHeading(node: AxNode) {
    IsHeading(node) && node.name.Some? && node.name.value != ""
  }

  function HeadingNames(nodes: seq<AxNode>): seq<string> {
    if nodes == [] then []
    else HeadingNames(nodes[..|nodes| - 1])
         + if IsNamedHeading(nodes[|nodes| - 1]) then [nodes[|nodes| - 1].name.value] else []
  }

  /** What a target tells of its node, field by field; only a link has an address, its URL or else its value. */
  predicate Describes(target: InteractiveTarget, node: AxNode)
    requires IsInteractive(node)
  {
    && target.role == Lower(node.role.value) && target.name == node.name && target.state == node.state
    && target.source == Ax && target.bbox == None
    && (target.role != "link" ==> target.href == None)
    && (target.role == "link" ==>
          (target.href == node.url && node.url.Some? && node.url.value != "")
          || (target.href == node.value && (node.url == None || node.url.value == "")))
  }

  /** What is found among `nodes`: the interactive ones, and the names of the named headings. */
  lemma {:induction false} FoundExactly(nodes: seq<AxNode>)
    ensures forall n :: n in Interactive(nodes) <==>
              n in nodes && n.AxNode? && n.role.Some? && Lower(n.role.value) in INTERACTIVE_ROLES
    ensures forall name :: name in HeadingNames(nodes) <==> exists n <- nodes :: IsHeadingNamed(n, name)
  {
    if nodes != [] {
      var less, last := nodes[..|nodes| - 1], nodes[|nodes| - 1];
      FoundExactly(less);
      assert forall n :: n in nodes <==> n in less || n == last;
      forall name ensures name in HeadingNames(nodes) <==> exists n <- nodes :: IsHeadingNamed(n, name) {
        if n :| n in less && IsHeadingNamed(n, name) { assert n in nodes; }
        assert IsHeadingNamed(last, name) <==> IsNamedHeading(last) && last.name.value == name;
      }
    }
  }

  predicate IsHeadingNamed(n: AxNode, name: string) {
    n.AxNode? && n.role.Some? && Lower(n.role.value) == "heading" && n.name == Some(name) && name != ""
  }

  function AxTarget(epoch: nat, frameId: string, node: AxNode, id: nat): (target: InteractiveTarget)
    requires IsInteractive(node)
    ensures target.ref == Ref(epoch, id) && target.role != "" && target.frameId == frameId
    ensures Describes(target, node)
  {
    var role := Lower(node.role.value);
    InteractiveTarget(Ref(epoch, id), role, node.name,
                      if role == "link" then OrElse(node.url, node.value) else None,
                      node.state, frameId, Ax, None)
  }

  /** The first nodes of `found`, up to the limit, as targets 1, 2, 3, and so on. */
  ghost predicate NumberedFrom1(epoch: nat, frameId: string, found: seq<AxNode>, targets: seq<InteractiveTarget>)
    requires forall node <- found :: IsInteractive(node)
  {
    && |targets| == (if |found| <= MAX_INTERACTIVE_TARGETS then |found| else MAX_INTERACTIVE_TARGETS)
    && forall i :: 0 <= i < |targets| ==> targets[i] == AxTarget(epoch, frameId, found[i], i + 1)
  }

  datatype AxNormalizeResult =
    AxNormalizeResult(targets: seq<InteractiveTarget>, headings: seq<string>, truncated: bool)

  /** The result of a walk that has seen `visited`. */
  ghost predicate Summarizes(epoch: nat, frameId: string, visited: seq<AxNode>, r: AxNormalizeResult) {
    && NumberedFrom1(epoch, frameId, Interactive(visited), r.targets)
    && r.headings == HeadingNames(visited)
    && (r.truncated <==> |Interactive(visited)| > MAX_INTERACTIVE_TARGETS)
  }

  lemma OneMore(visited: seq<AxNode>, node: AxNode)
    ensures Interactive(visited + [node]) == Interactive(visited) + if IsInteractive(node) then [node] else []
    ensures HeadingNames(visited + [node])
         == HeadingNames(visited) + if IsNamedHeading(node) then [node.name.value] else []
  {
    assert (visited + [node])[..|visited|] == visited;
  }

  lemma OneMoreChild(children: seq<AxNode>, i: nat)
    requires i < |children|
    ensures PreorderAll(children[..i + 1]) == PreorderAll(children[..i]) + Preorder(children[i])
  {
    assert children[..i + 1][..i] == children[..i];
  }

  /** One more interactive node: a target while there is room, and nothing after that. */
  lemma Numbered(epoch: nat, frameId: string, found: seq<AxNode>, node: AxNode, targets: seq<InteractiveTarget>)
    requires IsInteractive(node) && forall n <- found :: IsInteractive(n)
    requires NumberedFrom1(epoch, frameId, found, targets)
    ensures |found| < MAX_INTERACTIVE_TARGETS ==>
      NumberedFrom1(epoch, frameId, found + [node], targets + [AxTarget(epoch, frameId, node, |targets| + 1)])
    ensures |found| >= MAX_INTERACTIVE_TARGETS ==> NumberedFrom1(epoch, frameId, found + [node], targets)
  {
  }

  /** The variables that `normalize_ax_snapshot` shares with its nested `visit`. */
  class Walk {
    const epoch: nat
    const frameId: string
    var targets: seq<InteractiveTarget>
    var headings: seq<string>
    var nextLocalId: nat
    var truncated: bool
    ghost var visited: seq<AxNode>

    ghost predicate Valid()
      reads this
    {
      && Summarizes(epoch, frameId, visited, AxNormalizeResult(targets, headings, truncated))
      && nextLocalId == |targets| + 1
    }

    constructor (epoch: nat, frameId: string)
      ensures Valid() && visited == [] && this.epoch == epoch && this.frameId == frameId
    {
      this.epoch, this.frameId := epoch, frameId;
      targets, headings, nextLocalId, truncated, visited := [], [], 1, false, [];
    }

    method Visit(node: AxNode)
      requires Valid()
      modifies this
      ensures Valid() && visited == old(visited) + Preorder(node)
      decreases node
    {
      if node.NotANode? { return; }
      Take(node);
      VisitAll(node.children);
    }

    /** The loop of `visit` over the children. */
    method VisitAll(children: seq<AxNode>)
      requires Valid()
      modifies this
      ensures Valid() && visited == old(visited) + PreorderAll(children)
      decreases children
    {
      for i := 0 to |children|
        invariant Valid() && visited == old(visited) + PreorderAll(children[..i])
      {
        Visit(children[i]);
        OneMoreChild(children, i);
      }
      assert children[..|children|] == children;
    }

    /** The part of `visit` before it goes on to the children. */
    method Take(node: AxNode)
      requires Valid() && node.AxNode?
      modifies this
      ensures Valid() && visited == old(visited) + [node]
    {
      OneMore(visited, node);
      if IsHeading(node) && node.name.Some? && node.name.value != "" {
        headings := headings + [node.name.value];
      }
      if IsInteractive(node) {
        Number(node, Interactive(visited));
      }
      visited := visited + [node];
    }

    method Number(node: AxNode, ghost found: seq<AxNode>)
      requires IsInteractive(node) && (forall n <- found :: IsInteractive(n)) && nextLocalId == |targets| + 1
      requires NumberedFrom1(epoch, frameId, found, targets) && (truncated <==> |found| > MAX_INTERACTIVE_TARGETS)
      modifies `targets, `truncated, `nextLocalId
      ensures NumberedFrom1(epoch, frameId, found + [node], targets)
      ensures nextLocalId == |targets| + 1 && (truncated <==> |found + [node]| > MAX_INTERACTIVE_TARGETS)
    {
      Numbered(epoch, frameId, found, node, targets);
      if !truncated {
        if |targets| >= MAX_INTERACTIVE_TARGETS {
          truncated := true;
        } else {
          targets := targets + [AxTarget(epoch, frameId, node, nextLocalId)];
          nextLocalId := nextLocalId + 1;
        }
      }
    }
  }

  /** Target `i + 1` describes the node found as number `i`. */
  ghost predicate DescribesFirst(found: seq<AxNode>, frameId: string, targets: seq<InteractiveTarget>)
    requires forall node <- found :: IsInteractive(node)
  {
    && |targets| <= |found|
    && forall i :: 0 <= i < |targets| ==> Describes(targets[i], found[i]) && targets[i].frameId == frameId
  }

  /** The targets are the first 60 interactive nodes in preorder; the headings are all of them, however
      many targets were dropped. A missing root is `NotANode`. */
  method NormalizeAxSnapshot(root: AxNode, epoch: int, frameId: string)
    returns (r: Result<AxNormalizeResult, PerceiveError>)
    ensures r.Ok? <==> epoch >= 0 && frameId != ""
    ensures r.Err? ==> r.error == if epoch < 0 then NegativeEpoch else EmptyFrameId
    ensures r.Ok? ==> Summarizes(epoch, frameId, Preorder(root), r.value)
    ensures r.Ok? ==> DescribesFirst(Interactive(Preorder(root)), frameId, r.value.targets)
  {
    if epoch < 0 { return Err(NegativeEpoch); }
    if frameId == "" { return Err(EmptyFrameId); }
    var walk := new Walk(epoch, frameId);
    walk.Visit(root);
    assert walk.visited == Preorder(root);
    r := Ok(AxNormalizeResult(walk.targets, walk.headings, walk.truncated));
  }
}
