/** Promoted memory as an append-only sequence of items, some deprecated, and what Cog counts in it. */
module Memory {
  import opened Schemas

  datatype Content =
    | Episode(run: string, signature: string, success: bool, confidence: real)
    | Failure(run: string, task: TaskId, capability: Option<string>, signature: string)
    | Skill(signature: string, chain: seq<string>, sources: seq<string>, confidence: real)

  datatype MemoryItem = MemoryItem(content: Content, deprecated: bool)

  datatype MemoryError = NotVerified | NoPolicyId | UnknownItem

  class MemorySystem {
    var items: seq<MemoryItem>  // an item's id is its position

    constructor ()
      ensures items == []
    {
      items := [];
    }

    /** The only way anything is added. */
    method Promote(verified: bool, policyId: string, content: Content) returns (err: Option<MemoryError>)
      modifies this
      ensures err == if !verified then Some(NotVerified) else if Blank(policyId) then Some(NoPolicyId) else None
      ensures items == if err.None? then old(items) + [MemoryItem(content, false)] else old(items)
    {
      if !verified { return Some(NotVerified); }
      if Blank(policyId) { return Some(NoPolicyId); }
      items := items + [MemoryItem(content, false)];
      err := None;
    }

    method Deprecate(id: nat) returns (err: Option<MemoryError>)
      modifies this
      ensures err == if id < |old(items)| then None else Some(UnknownItem)
      ensures items == if id < |old(items)| then old(items)[id := old(items)[id].(deprecated := true)] else old(items)
    {
      if id >= |items| { return Some(UnknownItem); }
      if !items[id].deprecated { items := items[id := items[id].(deprecated := true)]; }
      assert items == old(items)[id := old(items)[id].(deprecated := true)];
      err := None;
    }
  }

  // -- what is counted ----------------------------------------------------------------------

  predicate IsSuccess(item: MemoryItem, signature: string) {
    !item.deprecated && item.content.Episode? && item.content.signature == signature && item.content.success
  }

  predicate IsSkill(item: MemoryItem, signature: string) {
    !item.deprecated && item.content.Skill? && item.content.signature == signature
  }

  predicate IsFailureOf(item: MemoryItem, binding: string) {
    !item.deprecated && item.content.Failure? && item.content.capability == Some(binding)
  }

  /** The live successful episodes with this signature, oldest first. */
  function Successes(items: seq<MemoryItem>, signature: string): seq<MemoryItem> {
    if items == [] then []
    else
      var last := items[|items| - 1];
      Successes(items[..|items| - 1], signature) + (if IsSuccess(last, signature) then [last] else [])
  }

  /** Positions of the live skills with this signature, oldest first. */
  function LiveSkills(items: seq<MemoryItem>, signature: string): (ids: seq<nat>)
    ensures forall i :: 0 <= i < |ids| ==> ids[i] < |items| && IsSkill(items[ids[i]], signature)
  {
    if items == [] then []
    else
      LiveSkills(items[..|items| - 1], signature) +
      (if IsSkill(items[|items| - 1], signature) then [|items| - 1] else [])
  }

  function FailureCount(items: seq<MemoryItem>, binding: string): nat {
    if items == [] then 0
    else FailureCount(items[..|items| - 1], binding) + (if IsFailureOf(items[|items| - 1], binding) then 1 else 0)
  }

  lemma CountsAppend(items: seq<MemoryItem>, x: MemoryItem)
    ensures forall sig :: Successes(items + [x], sig) == Successes(items, sig) + if IsSuccess(x, sig) then [x] else []
    ensures forall sig :: LiveSkills(items + [x], sig)
                          == LiveSkills(items, sig) + if IsSkill(x, sig) then [|items|] else []
    ensures forall b :: FailureCount(items + [x], b) == FailureCount(items, b) + if IsFailureOf(x, b) then 1 else 0
  {
    assert (items + [x])[..|items|] == items;
  }

  /** Deprecating a skill removes exactly it from what is live. */
  lemma {:induction false} DeprecateSkill(items: seq<MemoryItem>, id: nat)
    requires id < |items| && items[id].content.Skill? && !items[id].deprecated
    ensures var items' := items[id := items[id].(deprecated := true)];
            && (forall sig :: Successes(items', sig) == Successes(items, sig))
            && (forall b :: FailureCount(items', b) == FailureCount(items, b))
            && (forall sig :: sig != items[id].content.signature ==> LiveSkills(items', sig) == LiveSkills(items, sig))
            && |LiveSkills(items', items[id].content.signature)| == |LiveSkills(items, items[id].content.signature)| - 1
    decreases |items|
  {
    var n := |items|;
    var items' := items[id := items[id].(deprecated := true)];
    if id < n - 1 {
      DeprecateSkill(items[..n - 1], id);
      assert items'[..n - 1] == items[..n - 1][id := items[id].(deprecated := true)];
    } else {
      assert items'[..n - 1] == items[..n - 1];
    }
  }
}
