/**
 * The object trace a routine attaches to a fault: the owner types of the
 * finished enumerators followed by the stack, owner-less entries skipped,
 * adjacent repeats collapsed, and the whole list reversed. The owner is read by
 * reflection in the library; here it is the `owner` of each producer.
 */
module ObjectTraces {
  import opened Wrappers
  import opened CoroutineExceptions
  import opened Producers

  predicate IdsIn(e: seq<Producer>, ids: seq<Id>) {
    forall i :: 0 <= i < |ids| ==> ids[i] < |e|
  }

  /** The owner of each enumerator, in enumeration order. */
  function Owners(e: seq<Producer>, ids: seq<Id>): (owners: seq<Option<ClrType>>)
    requires IdsIn(e, ids)
    ensures |owners| == |ids|
    ensures forall i :: 0 <= i < |ids| ==> owners[i] == e[ids[i]].owner
  {
    seq(|ids|, i requires 0 <= i < |ids| => e[ids[i]].owner)
  }

  /**
   * The list the `foreach` loop builds: skip a missing owner, add one that
   * differs from the last added. It is never longer than the input, and the
   * last enumerator's owner, when it has one, is its last entry.
   */
  function Collapse(owners: seq<Option<ClrType>>): (c: seq<ClrType>)
    ensures |c| <= |owners|
    ensures owners != [] && owners[|owners| - 1].Some? ==> c != [] && c[|c| - 1] == owners[|owners| - 1].value
    decreases |owners|
  {
    if owners == [] then []
    else
      var acc := Collapse(owners[..|owners| - 1]);
      match owners[|owners| - 1]
      case None => acc
      case Some(t) => if acc == [] || t != acc[|acc| - 1] then acc + [t] else acc
  }

  function Reverse<T>(s: seq<T>): (r: seq<T>)
    ensures |r| == |s|
    ensures forall i :: 0 <= i < |s| ==> r[i] == s[|s| - 1 - i]
    decreases |s|
  {
    if s == [] then [] else [s[|s| - 1]] + Reverse(s[..|s| - 1])
  }

  /** The trace `GenerateObjectTrace` returns: owners of the given enumerators, no more of them than enumerators. */
  function ObjectTraceOf(owners: seq<Option<ClrType>>): (t: seq<ClrType>)
    ensures |t| <= |owners|
    ensures forall j :: 0 <= j < |t| ==> Some(t[j]) in owners
  {
    CollapseShape(owners);
    var c := Collapse(owners);
    assert forall j :: 0 <= j < |c| ==> Some(c[j]) in owners;
    Reverse(c)
  }

  /** `GenerateObjectTrace`: the loop over the enumerators, then the in-place reversal. */
  method GenerateObjectTrace(arena: Arena, enumerators: seq<Id>) returns (objTrace: seq<ClrType>)
    requires IdsIn(arena.entries, enumerators)
    ensures objTrace == ObjectTraceOf(Owners(arena.entries, enumerators))
  {
    ghost var owners := Owners(arena.entries, enumerators);
    objTrace := [];
    for i := 0 to |enumerators|
      invariant objTrace == Collapse(owners[..i])
    {
      assert owners[..i + 1][..i] == owners[..i];
      var owner := arena.entries[enumerators[i]].owner;
      if owner.Some? {
        var objType := owner.value;
        if objTrace == [] || objType != objTrace[|objTrace| - 1] {
          objTrace := objTrace + [objType];
        }
      }
    }
    assert owners[..|enumerators|] == owners;
    objTrace := Reverse(objTrace);
  }

  ghost predicate NoAdjacentRepeats(s: seq<ClrType>) {
    forall i :: 0 < i < |s| ==> s[i - 1] != s[i]
  }

  /** The collapsed list is empty exactly when no enumerator has an owner. */
  lemma {:induction false} CollapseEmpty(owners: seq<Option<ClrType>>)
    ensures Collapse(owners) == [] <==> forall i :: 0 <= i < |owners| ==> owners[i] == None
    decreases |owners|
  {
    if owners != [] {
      var init := owners[..|owners| - 1];
      CollapseEmpty(init);
      assert forall i :: 0 <= i < |init| ==> init[i] == owners[i];
    }
  }

  lemma {:induction false} CollapseShape(owners: seq<Option<ClrType>>)
    ensures NoAdjacentRepeats(Collapse(owners))
    ensures forall j :: 0 <= j < |Collapse(owners)| ==>
              exists i :: 0 <= i < |owners| && owners[i] == Some(Collapse(owners)[j])
    decreases |owners|
  {
    if owners != [] {
      var init := owners[..|owners| - 1];
      CollapseShape(init);
      var acc := Collapse(init);
      forall j | 0 <= j < |Collapse(owners)|
        ensures exists i :: 0 <= i < |owners| && owners[i] == Some(Collapse(owners)[j])
      {
        if j < |acc| {
          var i :| 0 <= i < |init| && init[i] == Some(acc[j]);
          assert owners[i] == init[i];
        } else {
          assert owners[|owners| - 1] == Some(Collapse(owners)[j]);
        }
      }
    }
  }

  /**
   * The trace is empty exactly when no enumerator has an owner; it has no two
   * equal neighbours; every entry is the owner of one of the enumerators; and
   * the newest owner comes first.
   */
  lemma ObjectTraceShape(owners: seq<Option<ClrType>>)
    ensures ObjectTraceOf(owners) == [] <==> forall i :: 0 <= i < |owners| ==> owners[i] == None
    ensures |ObjectTraceOf(owners)| <= |owners|
    ensures NoAdjacentRepeats(ObjectTraceOf(owners))
    ensures forall j :: 0 <= j < |ObjectTraceOf(owners)| ==>
              exists i :: 0 <= i < |owners| && owners[i] == Some(ObjectTraceOf(owners)[j])
    ensures |owners| > 0 && owners[|owners| - 1].Some? ==> ObjectTraceOf(owners)[0] == owners[|owners| - 1].value
  {
    CollapseEmpty(owners);
    CollapseShape(owners);
    var c := Collapse(owners);
    var t := ObjectTraceOf(owners);
    forall j | 0 < j < |t|
      ensures t[j - 1] != t[j]
    {
      assert t[j - 1] == c[|c| - j] && t[j] == c[|c| - 1 - j];
    }
    forall j | 0 <= j < |t|
      ensures exists i :: 0 <= i < |owners| && owners[i] == Some(t[j])
    {
      assert t[j] == c[|c| - 1 - j];
    }
  }

  /** Enumerators without an owner add nothing to the collapsed list. */
  lemma {:induction false} CollapseSkipsOwnerless(owners: seq<Option<ClrType>>, gap: seq<Option<ClrType>>)
    requires forall i :: 0 <= i < |gap| ==> gap[i] == None
    ensures Collapse(owners + gap) == Collapse(owners)
    decreases |gap|
  {
    if gap != [] {
      var n := |gap| - 1;
      var all := owners + gap;
      assert all[..|all| - 1] == owners + gap[..n];
      assert all[|all| - 1] == None;
      CollapseSkipsOwnerless(owners, gap[..n]);
    } else {
      assert owners + gap == owners;
    }
  }

  /** An owner repeated with only owner-less enumerators between the two is listed once: the gap does not break the collapse. */
  lemma CollapseRepeatAcrossGap(owners: seq<Option<ClrType>>, t: ClrType, gap: seq<Option<ClrType>>)
    requires forall i :: 0 <= i < |gap| ==> gap[i] == None
    ensures Collapse(owners + [Some(t)] + gap + [Some(t)]) == Collapse(owners + [Some(t)])
  {
    var front := owners + [Some(t)];
    CollapseSkipsOwnerless(front, gap);
    var all := front + gap + [Some(t)];
    assert all[..|all| - 1] == front + gap;
  }
}
