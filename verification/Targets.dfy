/** Interactive targets of one page snapshot, and the epoch-scoped references that name them. */
module Targets {
  import opened Wrappers
  import Decimal

  datatype ControlState = ControlState(
    selected: Option<bool>,
    checked: Option<bool>,
    expanded: Option<bool>,
    disabled: Option<bool>)

  /** The `ValueError`s of the functions that build a page view. */
  datatype PerceiveError = NegativeEpoch | EmptyFrameId | StartBelowOne | PageMismatch

  datatype Source = Ax | Dom

  datatype InteractiveTarget = InteractiveTarget(
    ref: string,
    role: string,
    name: Option<string>,
    href: Option<string>,
    state: ControlState,
    frameId: string,
    source: Source,
    bbox: Option<seq<real>>)

  /** `f"{snapshot_epoch}:{local_id}"` */
  function Ref(epoch: nat, id: nat): string {
    Decimal.Print(epoch) + ":" + Decimal.Print(id)
  }

  function LowerChar(c: char): (r: char)
    ensures !('A' <= r <= 'Z') && ('A' <= c <= 'Z' || r == c)
    ensures 'A' <= c <= 'Z' ==> 'a' <= r <= 'z' && r as int - 'a' as int == c as int - 'A' as int
  {
    if 'A' <= c <= 'Z' then (c as int + 32) as char else c
  }

  /** `lower()` on ASCII. */
  function Lower(s: string): (r: string)
    ensures |r| == |s| && forall i :: 0 <= i < |s| ==> r[i] == LowerChar(s[i])
  {
    seq(|s|, i requires 0 <= i < |s| => LowerChar(s[i]))
  }

  /** Python's `a or b` on optional strings: an empty string gives way too. */
  function OrElse(a: Option<string>, b: Option<string>): Option<string> {
    if a.Some? && a.value != "" then a else b
  }
}
