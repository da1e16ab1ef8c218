/** When the climb past progress entries ends. It keeps no record of where it
    has been, so it ends exactly when it does not come back to a progress
    entry it has passed. */
module ForkClimb {
  import opened Wrappers
  import opened Json
  import opened ParentGraph
  import opened Transcript
  import opened Fork
  import opened ForkReadBack

  ghost predicate OnProgress(transcript: Entries, p: Option<string>, n: nat) {
    NthUp(transcript, p, n).Some? && NamesProgress(transcript, NthUp(transcript, p, n).value)
  }

  /** The climb passes a progress entry a second time. */
  ghost predicate Circles(transcript: Entries, p: Option<string>) {
    exists a: nat, b: nat ::
      && a < b && NthUp(transcript, p, a) == NthUp(transcript, p, b)
      && forall j: nat :: j < b ==> OnProgress(transcript, p, j)
  }

  lemma OneMoreUp(transcript: Entries, p: Option<string>, m: nat, n: nat)
    requires NthUp(transcript, p, m) == NthUp(transcript, p, n)
    ensures NthUp(transcript, p, m + 1) == NthUp(transcript, p, n + 1)
  {
  }

  /** Once it circles it stays on the circle. */
  lemma {:induction false} CircleGoesOn(transcript: Entries, p: Option<string>, a: nat, b: nat, m: nat) returns (j: nat)
    requires a < b && NthUp(transcript, p, a) == NthUp(transcript, p, b)
    ensures j < b && NthUp(transcript, p, m) == NthUp(transcript, p, j)
  {
    if m < b {
      j := m;
    } else if m == b {
      j := a;
    } else {
      j := CircleGoesOn(transcript, p, a, b, m - 1);
      OneMoreUp(transcript, p, m - 1, j);
      j := if j + 1 == b then a else j + 1;
    }
  }

  lemma CircleNeverEnds(transcript: Entries, p: Option<string>, n: nat)
    requires Circles(transcript, p)
    ensures OnProgress(transcript, p, n)
  {
    var a: nat, b: nat :| a < b && NthUp(transcript, p, a) == NthUp(transcript, p, b)
                          && forall j: nat :: j < b ==> OnProgress(transcript, p, j);
    var j := CircleGoesOn(transcript, p, a, b, n);
    assert OnProgress(transcript, p, j);
  }

  lemma {:induction false} Pigeonhole(s: seq<nat>, room: set<nat>)
    requires forall k :: 0 <= k < |s| ==> s[k] in room
    requires forall j, k :: 0 <= j < k < |s| ==> s[j] != s[k]
    ensures |s| <= |room|
  {
    if s != [] { Pigeonhole(s[1..], room - {s[0]}); }
  }

  lemma {:induction false} BelowSize(n: nat)
    ensures |Below(n)| == n
  {
    if n > 0 { BelowSize(n - 1); }
  }

  /** The entry a step of the climb stands on. */
  ghost function Stand(transcript: Entries, p: Option<string>, n: nat): (i: nat)
    requires OnProgress(transcript, p, n)
    ensures i < |transcript| && Uuid(transcript[i]) == NthUp(transcript, p, n)
  {
    FirstIndex(transcript, NthUp(transcript, p, n).value).value
  }

  /** A climb longer than the transcript circles. */
  lemma LongClimbCircles(transcript: Entries, p: Option<string>)
    requires forall j: nat :: j <= |transcript| ==> OnProgress(transcript, p, j)
    ensures Circles(transcript, p)
  {
    var n := |transcript| + 1;
    var stands := seq(n, j requires 0 <= j < n => Stand(transcript, p, j));
    if forall j, k :: 0 <= j < k < n ==> stands[j] != stands[k] {
      Pigeonhole(stands, Below(|transcript|));
      BelowSize(|transcript|);
      assert false;
    }
    var a, b :| 0 <= a < b < n && stands[a] == stands[b];
    assert NthUp(transcript, p, a) == NthUp(transcript, p, b);
  }

  lemma {:induction false} ClimbEndsBy(transcript: Entries, p: Option<string>, n: nat) returns (m: nat)
    requires !OnProgress(transcript, p, n)
    ensures m <= n && EndsAt(transcript, p, m)
  {
    if j: nat :| j < n && !OnProgress(transcript, p, j) {
      m := ClimbEndsBy(transcript, p, j);
    } else {
      m := n;
      forall j: nat | j < n
        ensures NthUp(transcript, p, j).Some? && NamesProgress(transcript, NthUp(transcript, p, j).value)
      {
        assert OnProgress(transcript, p, j);
      }
    }
  }

  /** The climb ends exactly when it does not circle, and then within as many
      steps as there are entries. */
  lemma ClimbEndsExactly(transcript: Entries, p: Option<string>)
    ensures ClimbEnds(transcript, p) <==> !Circles(transcript, p)
    ensures ClimbEnds(transcript, p) <==> exists n: nat :: n <= |transcript| && EndsAt(transcript, p, n)
  {
    if n: nat :| EndsAt(transcript, p, n) {
      assert !OnProgress(transcript, p, n);
      if Circles(transcript, p) { CircleNeverEnds(transcript, p, n); }
    }
    if !Circles(transcript, p) {
      if forall j: nat :: j <= |transcript| ==> OnProgress(transcript, p, j) { LongClimbCircles(transcript, p); }
      var j: nat :| j <= |transcript| && !OnProgress(transcript, p, j);
      var m := ClimbEndsBy(transcript, p, j);
    }
  }

  /** A transcript whose one progress entry is its own parent. */
  const SELF_PARENT: Entries := [
    Obj(map["uuid" := Str("p"), "type" := Str("progress"), "parentUuid" := Str("p")]),
    Obj(map["uuid" := Str("u"), "type" := Str("user"), "parentUuid" := Str("p")])
  ]

  lemma SelfParentFields()
    ensures Uuid(SELF_PARENT[0]) == Some("p") && Parent(SELF_PARENT[0]) == Some("p")
            && Parent(SELF_PARENT[1]) == Some("p")
    ensures IsProgress(SELF_PARENT[0]) && NotProgress(SELF_PARENT[1])
    ensures NotSidechain(SELF_PARENT[0]) && NotSidechain(SELF_PARENT[1])
  {
    assert Kind(SELF_PARENT[1]) == Some("user") && "user"[0] != "progress"[0];
  }

  lemma {:induction false} FirstEntryFound(es: Entries, u: string)
    requires es != [] && Uuid(es[0]) == Some(u)
    ensures FirstIndex(es, u) == Some(0)
  {
    if |es| > 1 { FirstEntryFound(es[..|es| - 1], u); } else { assert FirstIndex(es[..0], u).None?; }
  }

  lemma OwnParentCircles(es: Entries, u: string)
    requires es != [] && Uuid(es[0]) == Some(u) && Parent(es[0]) == Some(u) && IsProgress(es[0])
    ensures !ClimbEnds(es, Some(u))
  {
    FirstEntryFound(es, u);
    assert OnProgress(es, Some(u), 0);
    assert NthUp(es, Some(u), 1) == NthUp(es, Some(u), 0);
    ClimbEndsExactly(es, Some(u));
  }

  /** Forking it starts a climb that never ends. */
  lemma SelfParentNeverEnds()
    ensures ForkSource(SELF_PARENT, None) == Ok(SELF_PARENT) && NotProgress(SELF_PARENT[1])
    ensures !ClimbEnds(SELF_PARENT, Parent(SELF_PARENT[1])) && !ClimbsEnd(SELF_PARENT)
  {
    SelfParentFields();
    ForksWhole(SELF_PARENT, 1);
    OwnParentCircles(SELF_PARENT, "p");
  }
}
