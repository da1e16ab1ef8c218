/** What the session code reads of one transcript entry, and index
    selections over a transcript. */
module Transcript {
  import opened Wrappers
  import opened Json
  import opened ParentGraph

  type Entries = seq<Value>

  function Uuid(e: Value): Option<string> { GetStr(e, "uuid") }

  function Parent(e: Value): Option<string> { GetStr(e, "parentUuid") }

  function Kind(e: Value): Option<string> { GetStr(e, "type") }

  predicate IsMessage(e: Value) { Kind(e) == Some("user") || Kind(e) == Some("assistant") }

  predicate IsProgress(e: Value) { Kind(e) == Some("progress") }

  predicate IsSidechain(e: Value) { IsTrue(e, "isSidechain") }

  predicate IsMeta(e: Value) { IsTrue(e, "isMeta") }

  /** A `teamName` of JSON null still counts as present. */
  predicate InTeam(e: Value) { Get(e, "teamName").Some? }

  predicate IsMain(e: Value) { !IsSidechain(e) && !InTeam(e) && !IsMeta(e) }

  predicate IsVisible(e: Value) { IsMessage(e) && IsMain(e) }

  /** The last position holding `u`: what a map from uuid to position keeps
      when the positions are inserted in order. */
  function LastIndex(es: Entries, u: string): (r: Option<nat>)
    ensures r.Some? ==> r.value < |es| && Uuid(es[r.value]) == Some(u)
    ensures r.Some? ==> forall j :: r.value < j < |es| ==> Uuid(es[j]) != Some(u)
    ensures r.None? ==> forall j :: 0 <= j < |es| ==> Uuid(es[j]) != Some(u)
  {
    if es == [] then None
    else if Uuid(es[|es| - 1]) == Some(u) then Some(|es| - 1)
    else LastIndex(es[..|es| - 1], u)
  }

  /** The first position holding `u`: what a linear search finds. */
  function FirstIndex(es: Entries, u: string): (r: Option<nat>)
    ensures r.Some? ==> r.value < |es| && Uuid(es[r.value]) == Some(u)
    ensures r.Some? ==> forall j :: 0 <= j < r.value ==> Uuid(es[j]) != Some(u)
    ensures r.None? ==> forall j :: 0 <= j < |es| ==> Uuid(es[j]) != Some(u)
  {
    if es == [] then None
    else if FirstIndex(es[..|es| - 1], u).Some? then FirstIndex(es[..|es| - 1], u)
    else if Uuid(es[|es| - 1]) == Some(u) then Some(|es| - 1)
    else None
  }

  /** The position an entry names as its parent, when that uuid is known. */
  function ParentIndex(es: Entries, i: nat): (r: Option<nat>)
    requires i < |es|
    ensures r.Some? ==> r.value < |es|
  {
    match Parent(es[i])
    case None => None
    case Some(u) => LastIndex(es, u)
  }

  ghost function ParentsOf(es: Entries): (ps: Parents)
    ensures |ps| == |es| && Closed(ps)
    ensures forall i :: 0 <= i < |es| ==> ps[i] == ParentIndex(es, i)
  {
    seq(|es|, i requires 0 <= i < |es| => ParentIndex(es, i))
  }

  predicate HasUuid(e: Value) { Uuid(e).Some? }

  /** No two entries carry the same uuid; an entry may carry none. */
  ghost predicate DistinctUuids(es: Entries) {
    forall i, j :: 0 <= i < j < |es| && HasUuid(es[i]) ==> Uuid(es[i]) != Uuid(es[j])
  }

  /** A parent that is in the transcript stands before its child. */
  ghost predicate ParentsFirst(es: Entries) {
    forall i :: 0 <= i < |es| && ParentIndex(es, i).Some? ==> ParentIndex(es, i).value < i
  }

  ghost predicate Ordered(es: Entries) {
    DistinctUuids(es) && ParentsFirst(es)
  }

  /** Where an entry carries no uuid none is empty: the code takes a missing
      uuid for an empty one. */
  ghost predicate NoEmptyUuid(es: Entries) {
    forall i, j :: 0 <= i < |es| && 0 <= j < |es| && !HasUuid(es[i]) ==> Uuid(es[j]) != Some("")
  }

  ghost predicate WellNamed(es: Entries) {
    Ordered(es) && NoEmptyUuid(es)
  }

  /** An entry without a uuid has no parent in the transcript, so it does not
      keep that one from being the end of a branch. */
  ghost predicate Grounded(es: Entries) {
    forall i :: 0 <= i < |es| && !HasUuid(es[i]) ==> ParentIndex(es, i).None?
  }

  ghost predicate WellOrdered(es: Entries) {
    WellNamed(es) && Grounded(es)
  }

  /** Where every entry carries a uuid nothing else is asked. */
  lemma AllNamedIsWellOrdered(es: Entries)
    requires Ordered(es) && forall i :: 0 <= i < |es| ==> HasUuid(es[i])
    ensures WellOrdered(es)
  {
  }

  lemma DistinctIndex(es: Entries, i: nat)
    requires DistinctUuids(es) && i < |es| && HasUuid(es[i])
    ensures LastIndex(es, Uuid(es[i]).value) == Some(i)
    ensures FirstIndex(es, Uuid(es[i]).value) == Some(i)
  {
    var u := Uuid(es[i]).value;
    assert Uuid(es[i]) == Some(u);
    assert LastIndex(es, u).Some? && FirstIndex(es, u).Some?;
  }

  /** Positions, in ascending order, of the entries that satisfy `keep`. */
  function Select(es: Entries, keep: Value -> bool): (idx: seq<nat>)
    ensures Ascending(idx, |es|)
    ensures forall i :: 0 <= i < |es| ==> (i in idx <==> keep(es[i]))
  {
    if es == [] then []
    else
      var rest := Select(es[..|es| - 1], keep);
      if keep(es[|es| - 1]) then rest + [|es| - 1] else rest
  }

  ghost predicate Ascending(idx: seq<nat>, bound: nat) {
    && (forall k :: 0 <= k < |idx| ==> idx[k] < bound)
    && (forall j, k :: 0 <= j < k < |idx| ==> idx[j] < idx[k])
  }

  function Gather(es: Entries, idx: seq<nat>): (r: Entries)
    requires forall k :: 0 <= k < |idx| ==> idx[k] < |es|
    ensures |r| == |idx|
    ensures forall k :: 0 <= k < |idx| ==> r[k] == es[idx[k]]
  {
    seq(|idx|, k requires 0 <= k < |idx| => es[idx[k]])
  }
}
