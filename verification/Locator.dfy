/** Resolving an epoch-scoped reference back to a role, a name and a frame. */
module Locator {
  import opened Wrappers
  import opened Targets
  import opened Decimal
  import opened PageView

  /** What `str.strip` removes. */
  predicate IsSpace(c: char) {
    var u := c as int;
    9 <= u <= 13 || 28 <= u <= 32 || u == 0x85 || u == 0xA0 || u == 0x1680 || 0x2000 <= u <= 0x200A
    || u == 0x2028 || u == 0x2029 || u == 0x202F || u == 0x205F || u == 0x3000
  }

  predicate AllSpace(s: string) {
    forall i :: 0 <= i < |s| ==> IsSpace(s[i])
  }

  function Strip(s: string): (r: string)
    ensures r != "" ==> !IsSpace(r[0]) && !IsSpace(r[|r| - 1])
    ensures r == "" ==> AllSpace(s)
    decreases |s|
  {
    if s == "" then s
    else if IsSpace(s[0]) then Strip(s[1..])
    else if IsSpace(s[|s| - 1]) then Strip(s[..|s| - 1])
    else s
  }

  /** The position of the first colon, or the length when there is none. */
  function Colon(s: string): (n: nat)
    ensures n <= |s| && (forall i :: 0 <= i < n ==> s[i] != ':') && (n < |s| ==> s[n] == ':')
  {
    if s == "" || s[0] == ':' then 0 else 1 + Colon(s[1..])
  }

  /** `_epoch_prefix` */
  function EpochPrefix(ref: string): Option<nat> {
    var n := Colon(ref);
    if n == |ref| || n == 0 || !AllDigits(ref[..n]) then None else Some(Value(ref[..n]))
  }

  datatype RoleNameLocator = RoleNameLocator(role: string, name: Option<string>, frameId: string, ref: string)

  /** `InvalidLocator` is what validation raises for an empty role or frame. */
  datatype LocatorError = TargetNotFound | StaleRef | InvalidLocator

  function Find(targets: seq<InteractiveTarget>, ref: string): Result<RoleNameLocator, LocatorError> {
    if targets == [] then Err(TargetNotFound)
    else if targets[0].ref != ref then Find(targets[1..], ref)
    else if targets[0].role == "" || targets[0].frameId == "" then Err(InvalidLocator)
    else Ok(RoleNameLocator(targets[0].role, targets[0].name, targets[0].frameId, ref))
  }

  function ResolveRoleNameLocator(view: PageView, targetRef: string): Result<RoleNameLocator, LocatorError> {
    var ref := Strip(targetRef);
    if ref == "" then Err(TargetNotFound)
    else if EpochPrefix(ref) != Some(view.epoch) then Err(StaleRef)
    else Find(view.targets, ref)
  }

  lemma {:induction false} StripBefore(before: string, s: string)
    requires AllSpace(before)
    ensures Strip(before + s) == Strip(s)
  {
    if before == "" {
      assert before + s == s;
    } else {
      StripBefore(before[1..], s);
      assert (before + s)[1..] == before[1..] + s;
    }
  }

  lemma {:induction false} StripAfter(core: string, after: string)
    requires AllSpace(after) && core != "" && !IsSpace(core[0]) && !IsSpace(core[|core| - 1])
    ensures Strip(core + after) == core
  {
    if after == "" {
      assert core + after == core;
    } else {
      var rest := after[..|after| - 1];
      StripAfter(core, rest);
      assert (core + after)[..|core + after| - 1] == core + rest;
    }
  }

  /** Space around a text that has none at its ends comes off again, and nothing else does. */
  lemma StripPadding(before: string, core: string, after: string)
    requires AllSpace(before) && AllSpace(after)
    requires core != "" && !IsSpace(core[0]) && !IsSpace(core[|core| - 1])
    ensures Strip(before + core + after) == core
  {
    StripBefore(before, core + after);
    StripAfter(core, after);
    assert before + core + after == before + (core + after);
  }

  lemma {:induction false} FirstColon(head: string, tail: string)
    requires forall c <- head :: c != ':'
    ensures Colon(head + ":" + tail) == |head|
  {
    var s := head + ":" + tail;
    forall i | 0 <= i < |head|
      ensures s[i] != ':'
    {
      assert s[i] == head[i] && head[i] in head;
    }
    assert s[|head|] == ':';
  }

  /** The epoch can be read back from a reference. */
  lemma EpochOfRef(epoch: nat, id: nat)
    ensures EpochPrefix(Ref(epoch, id)) == Some(epoch)
  {
    PrintThenRead(epoch);
    forall c <- Print(epoch)
      ensures c != ':'
    {
      assert IsDigit(c);
    }
    FirstColon(Print(epoch), Print(id));
    assert Ref(epoch, id)[..|Print(epoch)|] == Print(epoch);
  }

  /** Different identifiers make different references. */
  lemma RefIsInjective(epoch: nat, id: nat, otherEpoch: nat, otherId: nat)
    requires Ref(epoch, id) == Ref(otherEpoch, otherId)
    ensures epoch == otherEpoch && id == otherId
  {
    EpochOfRef(epoch, id);
    EpochOfRef(otherEpoch, otherId);
    var n := |Print(epoch)| + 1;
    assert Ref(epoch, id)[n..] == Print(id) && Ref(otherEpoch, otherId)[n..] == Print(otherId);
    PrintThenRead(id);
    PrintThenRead(otherId);
  }

  lemma RefHasNoSpaceAtEnds(epoch: nat, id: nat)
    ensures Ref(epoch, id) != "" && !IsSpace(Ref(epoch, id)[0]) && !IsSpace(Ref(epoch, id)[|Ref(epoch, id)| - 1])
  {
    PrintThenRead(epoch);
    PrintThenRead(id);
    assert IsDigit(Print(epoch)[0]) && IsDigit(Print(id)[|Print(id)| - 1]);
  }

  /** No two targets of a view have the same reference. */
  lemma RefsAreUnique(view: PageView, ids: seq<nat>, i: nat, j: nat)
    requires NumberedBy(view, ids) && i < j < |view.targets|
    ensures view.targets[i].ref != view.targets[j].ref
  {
    assert Carries(view.targets[i], view.epoch, ids[i]) && Carries(view.targets[j], view.epoch, ids[j]);
    if view.targets[i].ref == view.targets[j].ref {
      RefIsInjective(view.epoch, ids[i], view.epoch, ids[j]);
    }
  }

  /** The first target with the reference is the one found, and only when there is none is none found. */
  lemma {:induction false} FindsFirst(targets: seq<InteractiveTarget>, ref: string, i: nat)
    requires i < |targets| && targets[i].ref == ref && forall j :: 0 <= j < i ==> targets[j].ref != ref
    requires targets[i].role != "" && targets[i].frameId != ""
    ensures Find(targets, ref) == Ok(RoleNameLocator(targets[i].role, targets[i].name, targets[i].frameId, ref))
  {
    if i > 0 {
      FindsFirst(targets[1..], ref, i - 1);
    }
  }

  lemma {:induction false} FindsOnlyTargets(targets: seq<InteractiveTarget>, ref: string)
    requires forall i :: 0 <= i < |targets| ==> targets[i].ref != ref
    ensures Find(targets, ref) == Err(TargetNotFound)
  {
    if targets != [] {
      FindsOnlyTargets(targets[1..], ref);
    }
  }

  lemma ResolvesToItsTarget(view: PageView, ids: seq<nat>, i: nat, text: string)
    requires NumberedBy(view, ids) && i < |view.targets| && Strip(text) == view.targets[i].ref
    ensures var target := view.targets[i];
      ResolveRoleNameLocator(view, text) == Ok(RoleNameLocator(target.role, target.name, target.frameId, target.ref))
  {
    assert Carries(view.targets[i], view.epoch, ids[i]);
    RefHasNoSpaceAtEnds(view.epoch, ids[i]);
    EpochOfRef(view.epoch, ids[i]);
    forall j | 0 <= j < i
      ensures view.targets[j].ref != view.targets[i].ref
    {
      RefsAreUnique(view, ids, j, i);
    }
    FindsFirst(view.targets, view.targets[i].ref, i);
  }

  /** A reference of the view, with any space around it, resolves to its own target. */
  lemma RefRoundTrip(view: PageView, ids: seq<nat>, i: nat, before: string, after: string)
    requires NumberedBy(view, ids) && i < |view.targets| && AllSpace(before) && AllSpace(after)
    ensures var target := view.targets[i];
      ResolveRoleNameLocator(view, before + target.ref + after)
      == Ok(RoleNameLocator(target.role, target.name, target.frameId, target.ref))
  {
    assert Carries(view.targets[i], view.epoch, ids[i]);
    RefHasNoSpaceAtEnds(view.epoch, ids[i]);
    StripPadding(before, view.targets[i].ref, after);
    ResolvesToItsTarget(view, ids, i, before + view.targets[i].ref + after);
  }

  /** A reference minted under any other epoch is stale, whatever identifier it carries. */
  lemma OtherEpochIsStale(view: PageView, epoch: nat, id: nat, before: string, after: string)
    requires epoch != view.epoch && AllSpace(before) && AllSpace(after)
    ensures ResolveRoleNameLocator(view, before + Ref(epoch, id) + after) == Err(StaleRef)
  {
    RefHasNoSpaceAtEnds(epoch, id);
    StripPadding(before, Ref(epoch, id), after);
    EpochOfRef(epoch, id);
  }

  /** A text resolves exactly when, stripped, it is the reference of a target. */
  lemma ResolvesExactly(view: PageView, ids: seq<nat>, text: string)
    requires NumberedBy(view, ids)
    ensures ResolveRoleNameLocator(view, text).Ok? <==>
      exists i :: 0 <= i < |view.targets| && view.targets[i].ref == Strip(text)
  {
    if exists i :: 0 <= i < |view.targets| && view.targets[i].ref == Strip(text) {
      var i :| 0 <= i < |view.targets| && view.targets[i].ref == Strip(text);
      ResolvesToItsTarget(view, ids, i, text);
    } else {
      FindsOnlyTargets(view.targets, Strip(text));
    }
  }
}
