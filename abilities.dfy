/**
 * The ability list of a character's ability system component, as values: granting the
 * startup abilities and taking them back again. The component itself (activation,
 * replication, deferred removal) is engine code; what is modelled is which specs the
 * character grants and which ones its removal pass selects.
 */
module Abilities {

  /**
   * One granted ability: the handle the component generated, the ability class and the
   * object that granted it.
   */
  datatype AbilitySpec = AbilitySpec(handle: nat, ability: nat, sourceObject: object?)

  /** Every spec carries its own handle. */
  predicate UniqueHandles(specs: seq<AbilitySpec>)
  {
    forall i, j :: 0 <= i < j < |specs| ==> specs[i].handle != specs[j].handle
  }

  /** Every handle is below the next one the component will generate. */
  predicate HandlesBelow(specs: seq<AbilitySpec>, next: nat)
  {
    forall i :: 0 <= i < |specs| ==> specs[i].handle < next
  }

  /** The selection test of the removal pass: granted by owner, of a class it lists. */
  predicate Removable(spec: AbilitySpec, owner: object, classes: seq<nat>)
  {
    spec.sourceObject == owner && spec.ability in classes
  }

  // ---------------------------------------------------------------------------
  // Granting
  // ---------------------------------------------------------------------------

  /**
   * The specs a grant of every class in classes appends, one per class in order, with
   * handles generated from first on.
   */
  function Grants(classes: seq<nat>, owner: object, first: nat): (r: seq<AbilitySpec>)
    ensures |r| == |classes|
    ensures forall i :: 0 <= i < |r| ==> r[i] == AbilitySpec(first + i, classes[i], owner)
    decreases |classes|
  {
    if |classes| == 0 then []
    else [AbilitySpec(first, classes[0], owner)] + Grants(classes[1..], owner, first + 1)
  }

  /** The handles a grant of n abilities generates from first on, in order. */
  function HandlesFrom(first: nat, n: nat): (r: seq<nat>)
    ensures |r| == n
    ensures forall i :: 0 <= i < n ==> r[i] == first + i
  {
    seq(n, i => first + i)
  }

  /** Granting one more class appends one spec carrying the next handle. */
  lemma GrantsSnoc(classes: seq<nat>, owner: object, first: nat, i: nat)
    requires i < |classes|
    ensures Grants(classes[..i + 1], owner, first) == Grants(classes[..i], owner, first) + [AbilitySpec(first + i, classes[i], owner)]
  {
    var a := Grants(classes[..i + 1], owner, first);
    var b := Grants(classes[..i], owner, first) + [AbilitySpec(first + i, classes[i], owner)];
    assert |a| == |b|;
    forall k | 0 <= k < |a| ensures a[k] == b[k] {
      assert classes[..i + 1][k] == classes[k];
    }
  }

  /** Granting keeps the handles unique and below the advanced counter. */
  lemma GrantsKeepHandlesUnique(specs: seq<AbilitySpec>, classes: seq<nat>, owner: object, next: nat)
    requires UniqueHandles(specs) && HandlesBelow(specs, next)
    ensures UniqueHandles(specs + Grants(classes, owner, next))
    ensures HandlesBelow(specs + Grants(classes, owner, next), next + |classes|)
  {
    var all := specs + Grants(classes, owner, next);
    forall i, j | 0 <= i < j < |all| ensures all[i].handle != all[j].handle {
      if j >= |specs| && i < |specs| {
        assert all[i].handle < next <= all[j].handle;
      }
    }
  }

  // ---------------------------------------------------------------------------
  // Taking abilities back
  // ---------------------------------------------------------------------------

  /** First pass: the handles of the removable specs, in list order. */
  function HandlesToRemove(specs: seq<AbilitySpec>, owner: object, classes: seq<nat>): (r: seq<nat>)
    ensures |r| <= |specs|
    ensures forall k :: 0 <= k < |specs| && Removable(specs[k], owner, classes) ==> specs[k].handle in r
    ensures forall h :: h in r ==> exists k :: 0 <= k < |specs| && Removable(specs[k], owner, classes) && specs[k].handle == h
  {
    if |specs| == 0 then []
    else
      var init := specs[..|specs| - 1];
      var last := specs[|specs| - 1];
      var rest := HandlesToRemove(init, owner, classes);
      assert forall k :: 0 <= k < |specs| - 1 ==> specs[k] == init[k];
      if Removable(last, owner, classes) then rest + [last.handle] else rest
  }

  /** The component's ClearAbility: the spec carrying handle h leaves the list. */
  function ClearAbility(specs: seq<AbilitySpec>, h: nat): (r: seq<AbilitySpec>)
    ensures forall k :: 0 <= k < |r| ==> r[k] in specs && r[k].handle != h
    ensures forall k :: 0 <= k < |specs| && specs[k].handle != h ==> specs[k] in r
  {
    if |specs| == 0 then []
    else
      var rest := ClearAbility(specs[1..], h);
      assert forall k :: 1 <= k < |specs| ==> specs[k] == specs[1..][k - 1];
      if specs[0].handle == h then rest else [specs[0]] + rest
  }

  /** Second pass: ClearAbility for each collected handle in turn. */
  function ClearAll(specs: seq<AbilitySpec>, handles: seq<nat>): seq<AbilitySpec>
    decreases |handles|
  {
    if |handles| == 0 then specs
    else ClearAll(ClearAbility(specs, handles[0]), handles[1..])
  }

  /** The specs whose handle is not among handles, in order. */
  function DropHandles(specs: seq<AbilitySpec>, handles: seq<nat>): seq<AbilitySpec>
  {
    if |specs| == 0 then []
    else if specs[0].handle in handles then DropHandles(specs[1..], handles)
    else [specs[0]] + DropHandles(specs[1..], handles)
  }

  /** What the removal is meant to leave: every spec that is not removable, in order. */
  function KeepUnowned(specs: seq<AbilitySpec>, owner: object, classes: seq<nat>): (r: seq<AbilitySpec>)
    ensures forall k :: 0 <= k < |r| ==> r[k] in specs && !Removable(r[k], owner, classes)
    ensures forall k :: 0 <= k < |specs| && !Removable(specs[k], owner, classes) ==> specs[k] in r
  {
    if |specs| == 0 then []
    else
      var rest := KeepUnowned(specs[1..], owner, classes);
      assert forall k :: 1 <= k < |specs| ==> specs[k] == specs[1..][k - 1];
      if Removable(specs[0], owner, classes) then rest else [specs[0]] + rest
  }

  lemma {:induction false} ClearThenDrop(specs: seq<AbilitySpec>, h: nat, handles: seq<nat>)
    ensures DropHandles(ClearAbility(specs, h), handles) == DropHandles(specs, [h] + handles)
  {
    if |specs| > 0 {
      ClearThenDrop(specs[1..], h, handles);
    }
  }

  /** Clearing the handles one at a time drops exactly the specs carrying one of them. */
  lemma {:induction false} ClearAllDrops(specs: seq<AbilitySpec>, handles: seq<nat>)
    ensures ClearAll(specs, handles) == DropHandles(specs, handles)
    decreases |handles|
  {
    if |handles| > 0 {
      var cleared := ClearAbility(specs, handles[0]);
      assert ClearAll(specs, handles) == ClearAll(cleared, handles[1..]);
      ClearAllDrops(cleared, handles[1..]);
      ClearThenDrop(specs, handles[0], handles[1..]);
      assert [handles[0]] + handles[1..] == handles;
    } else {
      DropNothing(specs, handles);
    }
  }

  lemma {:induction false} DropNothing(specs: seq<AbilitySpec>, handles: seq<nat>)
    requires |handles| == 0
    ensures DropHandles(specs, handles) == specs
  {
    if |specs| > 0 {
      DropNothing(specs[1..], handles);
    }
  }

  /** Dropping by a handle list that marks exactly the removable specs keeps the rest. */
  lemma {:induction false} DropMarked(specs: seq<AbilitySpec>, handles: seq<nat>, owner: object, classes: seq<nat>)
    requires forall k :: 0 <= k < |specs| ==> (specs[k].handle in handles <==> Removable(specs[k], owner, classes))
    ensures DropHandles(specs, handles) == KeepUnowned(specs, owner, classes)
  {
    if |specs| > 0 {
      assert forall k :: 1 <= k < |specs| ==> specs[1..][k - 1] == specs[k];
      DropMarked(specs[1..], handles, owner, classes);
    }
  }

  /**
   * With unique handles the two-pass removal takes away exactly the specs this owner
   * granted for one of its classes and leaves every other spec, in order.
   */
  lemma TwoPassRemovesOwned(specs: seq<AbilitySpec>, owner: object, classes: seq<nat>)
    requires UniqueHandles(specs)
    ensures ClearAll(specs, HandlesToRemove(specs, owner, classes)) == KeepUnowned(specs, owner, classes)
  {
    var hs := HandlesToRemove(specs, owner, classes);
    forall k | 0 <= k < |specs|
      ensures specs[k].handle in hs <==> Removable(specs[k], owner, classes)
    {
      if specs[k].handle in hs {
        var j :| 0 <= j < |specs| && Removable(specs[j], owner, classes) && specs[j].handle == specs[k].handle;
        assert j == k;
      }
    }
    DropMarked(specs, hs, owner, classes);
    ClearAllDrops(specs, hs);
  }

  /** What the removal keeps still has unique handles below the counter. */
  lemma {:induction false} KeepUnownedKeepsHandles(specs: seq<AbilitySpec>, owner: object, classes: seq<nat>, next: nat)
    requires UniqueHandles(specs) && HandlesBelow(specs, next)
    ensures UniqueHandles(KeepUnowned(specs, owner, classes)) && HandlesBelow(KeepUnowned(specs, owner, classes), next)
  {
    var r := KeepUnowned(specs, owner, classes);
    forall k | 0 <= k < |r| ensures r[k].handle < next {
      var j :| 0 <= j < |specs| && specs[j] == r[k];
    }
    if |specs| > 0 {
      var tail := specs[1..];
      assert forall k :: 0 <= k < |tail| ==> tail[k] == specs[k + 1];
      KeepUnownedKeepsHandles(tail, owner, classes, next);
      var rest := KeepUnowned(tail, owner, classes);
      if !Removable(specs[0], owner, classes) {
        forall k | 0 <= k < |rest| ensures rest[k].handle != specs[0].handle {
          var j :| 0 <= j < |tail| && tail[j] == rest[k];
          assert specs[j + 1] == rest[k];
        }
        ConsKeepsUnique(specs[0], rest);
        assert r == [specs[0]] + rest;
      }
    }
  }

  /** A spec whose handle no spec of rest carries keeps the handles unique in front of rest. */
  lemma ConsKeepsUnique(first: AbilitySpec, rest: seq<AbilitySpec>)
    requires UniqueHandles(rest)
    requires forall k :: 0 <= k < |rest| ==> rest[k].handle != first.handle
    ensures UniqueHandles([first] + rest)
  {
    var all := [first] + rest;
    forall a, b | 0 <= a < b < |all| ensures all[a].handle != all[b].handle {
      assert all[b] == rest[b - 1];
      if a > 0 {
        assert all[a] == rest[a - 1];
      }
    }
  }

  lemma {:induction false} KeepUnownedAppend(a: seq<AbilitySpec>, b: seq<AbilitySpec>, owner: object, classes: seq<nat>)
    ensures KeepUnowned(a + b, owner, classes) == KeepUnowned(a, owner, classes) + KeepUnowned(b, owner, classes)
  {
    if |a| > 0 {
      assert (a + b)[0] == a[0];
      assert (a + b)[1..] == a[1..] + b;
      KeepUnownedAppend(a[1..], b, owner, classes);
      if !Removable(a[0], owner, classes) {
        assert KeepUnowned(a, owner, classes) == [a[0]] + KeepUnowned(a[1..], owner, classes);
      }
    } else {
      assert a + b == b;
    }
  }

  lemma {:induction false} KeepUnownedOfGrants(classes: seq<nat>, owner: object, first: nat, all: seq<nat>)
    requires forall c :: c in classes ==> c in all
    ensures KeepUnowned(Grants(classes, owner, first), owner, all) == []
    decreases |classes|
  {
    if |classes| > 0 {
      KeepUnownedOfGrants(classes[1..], owner, first + 1, all);
    }
  }

  /** Taking the abilities back after granting them leaves exactly what was kept before. */
  lemma RemoveUndoesGrant(specs: seq<AbilitySpec>, classes: seq<nat>, owner: object, first: nat)
    ensures KeepUnowned(specs + Grants(classes, owner, first), owner, classes) == KeepUnowned(specs, owner, classes)
  {
    KeepUnownedAppend(specs, Grants(classes, owner, first), owner, classes);
    KeepUnownedOfGrants(classes, owner, first, classes);
  }
}
