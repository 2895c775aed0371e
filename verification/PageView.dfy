/** Merging accessibility and DOM targets into the page view that a model sees. */
module PageView {
  import opened Wrappers
  import opened Targets
  import AxSnapshot
  import DomExtract

  datatype TargetKey = TargetKey(role: string, name: Option<string>, frameId: string)

  function KeyOf(target: InteractiveTarget): TargetKey {
    TargetKey(target.role, target.name, target.frameId)
  }

  predicate HasKey(targets: seq<InteractiveTarget>, key: TargetKey) {
    exists i :: 0 <= i < |targets| && KeyOf(targets[i]) == key
  }

  /** `dom[i]` is the first of its key, in the accessibility targets and then in the DOM's. */
  predicate FillsGap(ax: seq<InteractiveTarget>, dom: seq<InteractiveTarget>, i: nat)
    requires i < |dom|
  {
    !HasKey(ax, KeyOf(dom[i])) && !HasKey(dom[..i], KeyOf(dom[i]))
  }

  /** The indices below `n` at which `dom` fills a gap, in order. */
  function Gaps(ax: seq<InteractiveTarget>, dom: seq<InteractiveTarget>, n: nat): (r: seq<nat>)
    requires n <= |dom|
    ensures forall k :: 0 <= k < |r| ==> r[k] < n
  {
    if n == 0 then [] else Gaps(ax, dom, n - 1) + if FillsGap(ax, dom, n - 1) then [n - 1] else []
  }

  function Select(dom: seq<InteractiveTarget>, indices: seq<nat>): (r: seq<InteractiveTarget>)
    requires forall k :: 0 <= k < |indices| ==> indices[k] < |dom|
    ensures |r| == |indices|
  {
    seq(|indices|, k requires 0 <= k < |indices| => dom[indices[k]])
  }

  lemma SelectMore(dom: seq<InteractiveTarget>, indices: seq<nat>, n: nat)
    requires n < |dom| && forall k :: 0 <= k < |indices| ==> indices[k] < n
    ensures Select(dom, indices + [n]) == Select(dom, indices) + [dom[n]]
  {
  }

  function Merged(ax: seq<InteractiveTarget>, dom: seq<InteractiveTarget>): seq<InteractiveTarget> {
    ax + Select(dom, Gaps(ax, dom, |dom|))
  }

  method MergeTargets(ax: seq<InteractiveTarget>, dom: seq<InteractiveTarget>) returns (merged: seq<InteractiveTarget>)
    ensures merged == Merged(ax, dom)
  {
    merged := ax;
    var seen := set target <- ax :: KeyOf(target);
    for n := 0 to |dom|
      invariant merged == ax + Select(dom, Gaps(ax, dom, n))
      invariant forall key :: key in seen <==> HasKey(ax, key) || HasKey(dom[..n], key)
    {
      var key := KeyOf(dom[n]);
      OneMoreKey(dom, n);
      SelectMore(dom, Gaps(ax, dom, n), n);
      if key in seen { continue; }
      merged := merged + [dom[n]];
      seen := seen + {key};
    }
  }

  lemma OneMoreKey(dom: seq<InteractiveTarget>, n: nat)
    requires n < |dom|
    ensures forall key :: HasKey(dom[..n + 1], key) <==> HasKey(dom[..n], key) || key == KeyOf(dom[n])
  {
    forall key | HasKey(dom[..n], key) || key == KeyOf(dom[n])
      ensures HasKey(dom[..n + 1], key)
    {
      if HasKey(dom[..n], key) {
        var i :| 0 <= i < n && KeyOf(dom[..n][i]) == key;
        assert KeyOf(dom[..n + 1][i]) == key;
      } else {
        assert KeyOf(dom[..n + 1][n]) == key;
      }
    }
    forall key | HasKey(dom[..n + 1], key)
      ensures HasKey(dom[..n], key) || key == KeyOf(dom[n])
    {
      var i :| 0 <= i < n + 1 && KeyOf(dom[..n + 1][i]) == key;
      assert i < n ==> KeyOf(dom[..n][i]) == key;
    }
  }

  /** The appended indices are increasing, and they are exactly those that fill a gap. */
  lemma {:induction false} GapsAreExact(ax: seq<InteractiveTarget>, dom: seq<InteractiveTarget>, n: nat)
    requires n <= |dom|
    ensures forall j, k :: 0 <= j < k < |Gaps(ax, dom, n)| ==> Gaps(ax, dom, n)[j] < Gaps(ax, dom, n)[k]
    ensures forall i: nat :: i in Gaps(ax, dom, n) <==> i < n && FillsGap(ax, dom, i)
  {
    if n > 0 { GapsAreExact(ax, dom, n - 1); }
  }

  /** The first `dom` target with a key that `ax` does not have. */
  lemma {:induction false} FirstOfKey(ax: seq<InteractiveTarget>, dom: seq<InteractiveTarget>, n: nat) returns (i: nat)
    requires n < |dom| && !HasKey(ax, KeyOf(dom[n]))
    ensures i <= n && KeyOf(dom[i]) == KeyOf(dom[n]) && FillsGap(ax, dom, i)
  {
    if !HasKey(dom[..n], KeyOf(dom[n])) { return n; }
    var j :| 0 <= j < n && KeyOf(dom[..n][j]) == KeyOf(dom[n]);
    i := FirstOfKey(ax, dom, j);
  }

  /** Merging keeps the accessibility targets first, leaves no key of either side out, and adds no key. */
  lemma MergeCoversKeys(ax: seq<InteractiveTarget>, dom: seq<InteractiveTarget>, key: TargetKey)
    ensures ax <= Merged(ax, dom)
    ensures HasKey(Merged(ax, dom), key) <==> HasKey(ax, key) || HasKey(dom, key)
  {
    var merged, gaps := Merged(ax, dom), Gaps(ax, dom, |dom|);
    if HasKey(merged, key) {
      var i :| 0 <= i < |merged| && KeyOf(merged[i]) == key;
      if i < |ax| {
        assert KeyOf(ax[i]) == key;
      } else {
        assert KeyOf(dom[gaps[i - |ax|]]) == key;
      }
    }
    if HasKey(ax, key) {
      var i :| 0 <= i < |ax| && KeyOf(ax[i]) == key;
      assert KeyOf(merged[i]) == key;
    } else if HasKey(dom, key) {
      var n :| 0 <= n < |dom| && KeyOf(dom[n]) == key;
      var i := FirstOfKey(ax, dom, n);
      GapsAreExact(ax, dom, |dom|);
      var k :| 0 <= k < |gaps| && gaps[k] == i;
      assert KeyOf(merged[|ax| + k]) == key;
    }
  }

  /** The same role, name and frame. */
  predicate Alike(t: InteractiveTarget, u: InteractiveTarget) {
    t.role == u.role && t.name == u.name && t.frameId == u.frameId
  }

  /** Every target of either side has one like it in the view, and is the only reason for one. */
  lemma NoneIsMissing(ax: seq<InteractiveTarget>, dom: seq<InteractiveTarget>)
    ensures forall t <- ax + dom :: exists u <- Merged(ax, dom) :: Alike(t, u)
    ensures forall u <- Merged(ax, dom) :: u in ax || u in dom
  {
    forall t | t in ax + dom ensures exists u <- Merged(ax, dom) :: Alike(t, u) {
      MergeCoversKeys(ax, dom, KeyOf(t));
      if t in ax {
        var i :| 0 <= i < |ax| && ax[i] == t;
        assert HasKey(ax, KeyOf(t));
      } else {
        var i :| 0 <= i < |dom| && dom[i] == t;
        assert HasKey(dom, KeyOf(t));
      }
      var k :| 0 <= k < |Merged(ax, dom)| && KeyOf(Merged(ax, dom)[k]) == KeyOf(t);
      assert Alike(t, Merged(ax, dom)[k]);
    }
  }

  /** No appended target has the key of a target before it. */
  lemma MergeRepeatsNoKey(ax: seq<InteractiveTarget>, dom: seq<InteractiveTarget>, j: nat, k: nat)
    requires j < k < |Merged(ax, dom)| && |ax| <= k
    ensures KeyOf(Merged(ax, dom)[j]) != KeyOf(Merged(ax, dom)[k]) && !Alike(Merged(ax, dom)[j], Merged(ax, dom)[k])
  {
    var merged, gaps := Merged(ax, dom), Gaps(ax, dom, |dom|);
    GapsAreExact(ax, dom, |dom|);
    var later := gaps[k - |ax|];
    assert FillsGap(ax, dom, later) && merged[k] == dom[later];
    if j < |ax| {
      assert KeyOf(ax[j]) == KeyOf(merged[j]);
    } else {
      assert KeyOf(dom[..later][gaps[j - |ax|]]) == KeyOf(merged[j]);
    }
  }

  datatype Unknown = AxEmpty | AxTruncated

  datatype PageView = PageView(
    epoch: nat,
    targets: seq<InteractiveTarget>,
    headings: seq<string>,
    unknowns: seq<Unknown>)

  predicate Carries(target: InteractiveTarget, epoch: nat, id: nat) {
    target.ref == Ref(epoch, id) && target.role != "" && target.frameId != ""
  }

  /** Target `i` carries the reference for `ids[i]`, and no identifier occurs twice. */
  ghost predicate NumberedBy(view: PageView, ids: seq<nat>) {
    && |ids| == |view.targets|
    && (forall i, j :: 0 <= i < j < |ids| ==> ids[i] < ids[j])
    && forall i :: 0 <= i < |ids| ==> Carries(view.targets[i], view.epoch, ids[i])
  }

  ghost predicate AllCarry(targets: seq<InteractiveTarget>, epoch: nat, start: nat) {
    forall i :: 0 <= i < |targets| ==> Carries(targets[i], epoch, start + i)
  }

  lemma AxCarry(epoch: nat, frameId: string, found: seq<AxSnapshot.AxNode>, targets: seq<InteractiveTarget>)
    requires frameId != "" && (forall node <- found :: AxSnapshot.IsInteractive(node))
    requires AxSnapshot.NumberedFrom1(epoch, frameId, found, targets)
    ensures AllCarry(targets, epoch, 1)
  {
    forall i | 0 <= i < |targets|
      ensures Carries(targets[i], epoch, 1 + i)
    {
      assert targets[i] == AxSnapshot.AxTarget(epoch, frameId, found[i], i + 1);
    }
  }

  lemma DomCarry(epoch: nat, frameId: string, start: nat, found: seq<DomExtract.DomNode>,
                 targets: seq<InteractiveTarget>)
    requires frameId != "" && (forall node <- found :: DomExtract.IsControl(node))
    requires DomExtract.NumberedFrom(epoch, frameId, start, found, targets)
    ensures AllCarry(targets, epoch, start)
  {
    forall i | 0 <= i < |targets|
      ensures Carries(targets[i], epoch, start + i)
    {
      assert targets[i] == DomExtract.DomTarget(epoch, frameId, found[i], start + i);
    }
  }

  /** The accessibility targets take 1 to n and the DOM targets go on from n + 1, so whatever a merge leaves
      out, no two targets share an identifier. */
  lemma MergedIds(view: PageView, ax: seq<InteractiveTarget>, dom: seq<InteractiveTarget>) returns (ids: seq<nat>)
    requires view.targets == Merged(ax, dom)
    requires AllCarry(ax, view.epoch, 1) && AllCarry(dom, view.epoch, |ax| + 1)
    ensures NumberedBy(view, ids)
  {
    var gaps := Gaps(ax, dom, |dom|);
    GapsAreExact(ax, dom, |dom|);
    ids := seq(|view.targets|, i requires 0 <= i < |view.targets| =>
      if i < |ax| then 1 + i else |ax| + 1 + gaps[i - |ax|]);
    forall i | 0 <= i < |ids|
      ensures Carries(view.targets[i], view.epoch, ids[i])
    {
      if i < |ax| {
        assert view.targets[i] == ax[i];
      } else {
        assert view.targets[i] == dom[gaps[i - |ax|]];
      }
    }
  }

  /** The targets of both sources, before they are merged. */
  method Extract(axRoot: AxSnapshot.AxNode, domNodes: seq<DomExtract.DomNode>, epoch: int, frameId: string)
    returns (r: Result<(AxSnapshot.AxNormalizeResult, seq<InteractiveTarget>), PerceiveError>)
    ensures r.Ok? <==> epoch >= 0 && frameId != ""
    ensures r.Ok? ==>
      && AxSnapshot.Summarizes(epoch, frameId, AxSnapshot.Preorder(axRoot), r.value.0)
      && DomExtract.NumberedFrom(epoch, frameId, |r.value.0.targets| + 1, DomExtract.Controls(domNodes), r.value.1)
    ensures r.Ok? ==>
      && AxSnapshot.DescribesFirst(AxSnapshot.Interactive(AxSnapshot.Preorder(axRoot)), frameId, r.value.0.targets)
      && DomExtract.DescribesEach(DomExtract.Controls(domNodes), frameId, r.value.1)
    ensures r.Ok? ==> AllCarry(r.value.0.targets, epoch, 1) && AllCarry(r.value.1, epoch, |r.value.0.targets| + 1)
  {
    var axResult := AxSnapshot.NormalizeAxSnapshot(axRoot, epoch, frameId);
    if axResult.Err? { return Err(axResult.error); }
    var ax := axResult.value;
    var domResult := DomExtract.ExtractDomTargets(domNodes, epoch, frameId, |ax.targets| + 1);
    assert domResult.Ok?;
    var dom := domResult.value;
    AxCarry(epoch, frameId, AxSnapshot.Interactive(AxSnapshot.Preorder(axRoot)), ax.targets);
    DomCarry(epoch, frameId, |ax.targets| + 1, DomExtract.Controls(domNodes), dom);
    r := Ok((ax, dom));
  }

  /** The view shows what `ax` and `dom` hold. */
  ghost predicate Shows(view: PageView, epoch: int, ax: AxSnapshot.AxNormalizeResult, dom: seq<InteractiveTarget>) {
    && view.epoch == epoch && view.headings == ax.headings && view.targets == Merged(ax.targets, dom)
    && (AxEmpty in view.unknowns <==> ax.targets == [] && ax.headings == [])
    && (AxTruncated in view.unknowns <==> ax.truncated)
  }

  method UnknownsOf(ax: AxSnapshot.AxNormalizeResult) returns (unknowns: seq<Unknown>)
    ensures AxEmpty in unknowns <==> ax.targets == [] && ax.headings == []
    ensures AxTruncated in unknowns <==> ax.truncated
  {
    unknowns := [];
    if ax.targets == [] && ax.headings == [] {
      unknowns := unknowns + [AxEmpty];
    }
    if ax.truncated {
      unknowns := unknowns + [AxTruncated];
    }
  }

  method Assemble(epoch: nat, ax: AxSnapshot.AxNormalizeResult, dom: seq<InteractiveTarget>)
    returns (view: PageView, ghost ids: seq<nat>)
    requires AllCarry(ax.targets, epoch, 1) && AllCarry(dom, epoch, |ax.targets| + 1)
    ensures Shows(view, epoch, ax, dom) && NumberedBy(view, ids)
  {
    var targets := MergeTargets(ax.targets, dom);
    var unknowns := UnknownsOf(ax);
    view := PageView(epoch, targets, ax.headings, unknowns);
    ids := MergedIds(view, ax.targets, dom);
  }

  method BuildPageView(pageId: string, framePageId: string, frameId: string, epoch: int,
                       axRoot: AxSnapshot.AxNode, domNodes: seq<DomExtract.DomNode>)
    returns (r: Result<PageView, PerceiveError>, ghost ax: AxSnapshot.AxNormalizeResult,
             ghost dom: seq<InteractiveTarget>, ghost ids: seq<nat>)
    ensures r.Ok? <==> pageId == framePageId && epoch >= 0 && frameId != ""
    ensures r.Ok? ==>
      && AxSnapshot.Summarizes(epoch, frameId, AxSnapshot.Preorder(axRoot), ax)
      && DomExtract.NumberedFrom(epoch, frameId, |ax.targets| + 1, DomExtract.Controls(domNodes), dom)
      && AxSnapshot.DescribesFirst(AxSnapshot.Interactive(AxSnapshot.Preorder(axRoot)), frameId, ax.targets)
      && DomExtract.DescribesEach(DomExtract.Controls(domNodes), frameId, dom)
      && Shows(r.value, epoch, ax, dom)
      && NumberedBy(r.value, ids)
  {
    ax, dom, ids := AxSnapshot.AxNormalizeResult([], [], false), [], [];
    if pageId != framePageId { return Err(PageMismatch), ax, dom, ids; }
    var extracted := Extract(axRoot, domNodes, epoch, frameId);
    if extracted.Err? { return Err(extracted.error), ax, dom, ids; }
    ax, dom := extracted.value.0, extracted.value.1;
    var view;
    view, ids := Assemble(epoch, extracted.value.0, extracted.value.1);
    r := Ok(view);
  }
}
