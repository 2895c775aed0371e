/** Controls found in the DOM, numbered on from the accessibility targets. */
module DomExtract {
  import opened Wrappers
  import opened Targets

  const FILTERED_TAGS: set<string> := {"script", "style", "noscript"}

  const INTERACTIVE_TAGS: set<string> := {"a", "button", "input", "select", "textarea", "option"}

  datatype DomNode =
    | NotANode
    | DomNode(
        tag: Option<string>,
        inputType: Option<string>,
        text: Option<string>,
        ariaLabel: Option<string>,
        href: Option<string>,
        frameId: Option<string>,
        selected: Option<bool>,
        checked: Option<bool>,
        disabled: Option<bool>,
        bbox: Option<seq<real>>)

  function TagOf(node: DomNode): string
    requires node.DomNode?
  {
    if node.tag.Some? then Lower(node.tag.value) else ""
  }

  /** The tags that are filtered out are none of the interactive ones anyway. */
  predicate IsControl(node: DomNode): (r: bool)
    ensures r <==> node.DomNode? && node.tag.Some? && Lower(node.tag.value) in INTERACTIVE_TAGS
  {
    && node.DomNode? && TagOf(node) != "" && TagOf(node) !in FILTERED_TAGS && TagOf(node) in INTERACTIVE_TAGS
  }

  /** The roles of all controls but inputs, and those of the inputs that are no text boxes. */
  const ROLES := map["a" := "link", "button" := "button", "textarea" := "textbox", "select" := "combobox",
                     "option" := "option"]
  const INPUT_ROLES := map["checkbox" := "checkbox", "radio" := "radio", "submit" := "button", "button" := "button",
                           "reset" := "button", "search" := "searchbox"]

  /** `_role_for_tag` */
  function RoleForTag(tag: string, inputType: Option<string>): (role: string)
    ensures tag in ROLES ==> role == ROLES[tag]
    ensures tag == "input" && inputType.Some? && Lower(inputType.value) in INPUT_ROLES ==>
              role == INPUT_ROLES[Lower(inputType.value)]
    ensures tag == "input" && (inputType == None || Lower(inputType.value) !in INPUT_ROLES) ==> role == "textbox"
  {
    if tag == "a" then "link"
    else if tag == "button" then "button"
    else if tag == "textarea" then "textbox"
    else if tag == "select" then "combobox"
    else if tag == "option" then "option"
    else if tag == "input" then
      var kind := if inputType.Some? && inputType.value != "" then Lower(inputType.value) else "text";
      if kind == "checkbox" then "checkbox"
      else if kind == "radio" then "radio"
      else if kind in {"submit", "button", "reset"} then "button"
      else if kind == "search" then "searchbox"
      else "textbox"
    else tag
  }

  /** What a target tells of its control, field by field; only an anchor has an address. */
  predicate Describes(target: InteractiveTarget, node: DomNode)
    requires IsControl(node)
  {
    && target.role == RoleForTag(TagOf(node), node.inputType)
    && (if node.text.Some? && node.text.value != "" then target.name == node.text else target.name == node.ariaLabel)
    && target.href == (if TagOf(node) == "a" then node.href else None)
    && target.state.selected == node.selected && target.state.checked == node.checked
    && target.state.expanded == None && target.state.disabled == node.disabled
    && (node.frameId.Some? && node.frameId.value != "" ==> target.frameId == node.frameId.value)
    && target.source == Dom && target.bbox == node.bbox
  }

  function DomTarget(epoch: nat, frameId: string, node: DomNode, id: nat): (target: InteractiveTarget)
    requires IsControl(node)
    ensures target.ref == Ref(epoch, id) && target.role != "" && (frameId != "" ==> target.frameId != "")
    ensures Describes(target, node) && (node.frameId in {None, Some("")} ==> target.frameId == frameId)
  {
    var role := RoleForTag(TagOf(node), node.inputType);
    InteractiveTarget(Ref(epoch, id), role, OrElse(node.text, node.ariaLabel),
                      if role == "link" then node.href else None,
                      ControlState(node.selected, node.checked, None, node.disabled),
                      if node.frameId.Some? && node.frameId.value != "" then node.frameId.value else frameId,
                      Dom, node.bbox)
  }

  function Controls(nodes: seq<DomNode>): (found: seq<DomNode>)
    ensures forall node <- found :: IsControl(node)
  {
    if nodes == [] then []
    else Controls(nodes[..|nodes| - 1]) + if IsControl(nodes[|nodes| - 1]) then [nodes[|nodes| - 1]] else []
  }

  lemma {:induction false} FoundExactly(nodes: seq<DomNode>)
    ensures forall n :: n in Controls(nodes) <==>
              n in nodes && n.DomNode? && n.tag.Some? && Lower(n.tag.value) in INTERACTIVE_TAGS
  {
    if nodes != [] {
      var less, last := nodes[..|nodes| - 1], nodes[|nodes| - 1];
      FoundExactly(less);
      assert forall n :: n in nodes <==> n in less || n == last;
    }
  }

  ghost predicate NumberedFrom(epoch: nat, frameId: string, start: nat, found: seq<DomNode>,
                               targets: seq<InteractiveTarget>)
    requires forall node <- found :: IsControl(node)
  {
    && |targets| == |found|
    && forall i :: 0 <= i < |targets| ==> targets[i] == DomTarget(epoch, frameId, found[i], start + i)
  }

  ghost predicate DescribesEach(found: seq<DomNode>, frameId: string, targets: seq<InteractiveTarget>)
    requires forall node <- found :: IsControl(node)
  {
    && |targets| == |found|
    && forall i :: 0 <= i < |targets| ==>
         Describes(targets[i], found[i]) && (found[i].frameId in {None, Some("")} ==> targets[i].frameId == frameId)
  }

  lemma OneMore(nodes: seq<DomNode>, i: nat)
    requires i < |nodes|
    ensures Controls(nodes[..i + 1]) == Controls(nodes[..i]) + if IsControl(nodes[i]) then [nodes[i]] else []
  {
    assert nodes[..i + 1][..i] == nodes[..i];
  }

  lemma Numbered(epoch: nat, frameId: string, start: nat, found: seq<DomNode>, node: DomNode,
                 targets: seq<InteractiveTarget>)
    requires IsControl(node) && forall n <- found :: IsControl(n)
    requires NumberedFrom(epoch, frameId, start, found, targets)
    ensures NumberedFrom(epoch, frameId, start, found + [node],
                         targets + [DomTarget(epoch, frameId, node, start + |targets|)])
  {
  }

  /** Missing nodes are an empty sequence. */
  method ExtractDomTargets(nodes: seq<DomNode>, epoch: int, frameId: string, startLocalId: int)
    returns (r: Result<seq<InteractiveTarget>, PerceiveError>)
    ensures r.Ok? <==> epoch >= 0 && frameId != "" && startLocalId >= 1
    ensures r.Err? ==>
              r.error == if epoch < 0 then NegativeEpoch else if frameId == "" then EmptyFrameId else StartBelowOne
    ensures r.Ok? ==> NumberedFrom(epoch, frameId, startLocalId, Controls(nodes), r.value)
    ensures r.Ok? ==> DescribesEach(Controls(nodes), frameId, r.value)
  {
    if epoch < 0 { return Err(NegativeEpoch); }
    if frameId == "" { return Err(EmptyFrameId); }
    if startLocalId < 1 { return Err(StartBelowOne); }
    var targets, localId := [], startLocalId;
    for i := 0 to |nodes|
      invariant NumberedFrom(epoch, frameId, startLocalId, Controls(nodes[..i]), targets)
      invariant localId == startLocalId + |targets|
    {
      OneMore(nodes, i);
      if IsControl(nodes[i]) {
        Numbered(epoch, frameId, startLocalId, Controls(nodes[..i]), nodes[i], targets);
        targets := targets + [DomTarget(epoch, frameId, nodes[i], localId)];
        localId := localId + 1;
      }
    }
    assert nodes[..|nodes|] == nodes;
    r := Ok(targets);
  }
}
