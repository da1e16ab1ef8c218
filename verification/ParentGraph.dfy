/** Climbing a parent relation given as a sequence: `ps[i]` is the position
    entry `i` names as its parent, if it names a known one. The relation may
    branch and may have cycles. */
module ParentGraph {
  import opened Wrappers

  type Parents = seq<Option<nat>>

  ghost predicate Closed(ps: Parents) {
    forall i :: 0 <= i < |ps| && ps[i].Some? ==> ps[i].value < |ps|
  }

  /** The k-th ancestor of `i`, as long as parents keep resolving. */
  ghost function Ancestor(ps: Parents, i: nat, k: nat): (r: Option<nat>)
    requires Closed(ps) && i < |ps|
    ensures r.Some? ==> r.value < |ps|
  {
    if k == 0 then Some(i)
    else match Ancestor(ps, i, k - 1)
      case None => None
      case Some(j) => ps[j]
  }

  /** Once two ancestors coincide, no new position is ever reached. */
  lemma {:induction false} CycleRepeats(ps: Parents, i: nat, a: nat, b: nat, m: nat) returns (j: nat)
    requires Closed(ps) && i < |ps| && a < b
    requires Ancestor(ps, i, a) == Ancestor(ps, i, b)
    ensures j < b && Ancestor(ps, i, m) == Ancestor(ps, i, j)
  {
    if m < b {
      j := m;
    } else if m == b {
      j := a;
    } else {
      j := CycleRepeats(ps, i, a, b, m - 1);
      if j + 1 == b { j := a; } else { j := j + 1; }
    }
  }

  lemma {:induction false} NoneStaysNone(ps: Parents, i: nat, a: nat, m: nat)
    requires Closed(ps) && i < |ps| && a <= m && Ancestor(ps, i, a).None?
    ensures Ancestor(ps, i, m).None?
  {
    if a < m { NoneStaysNone(ps, i, a, m - 1); }
  }

  /** A climb, newest position first: no repetition, each followed by its
      parent, ending where there is no parent or the parent was visited. */
  ghost predicate IsClimb(ps: Parents, s: seq<nat>) {
    && s != []
    && (forall k :: 0 <= k < |s| ==> s[k] < |ps|)
    && (forall j, k :: 0 <= j < k < |s| ==> s[j] != s[k])
    && (forall k :: 0 <= k < |s| - 1 ==> ps[s[k]] == Some(s[k + 1]))
    && (ps[s[|s| - 1]].Some? ==> ps[s[|s| - 1]].value in s)
  }

  /** A climb from `start` under way, about to visit `next`. */
  ghost predicate Climbing(ps: Parents, start: nat, s: seq<nat>, next: nat) {
    && next < |ps|
    && (forall k :: 0 <= k < |s| ==> s[k] < |ps|)
    && (forall j, k :: 0 <= j < k < |s| ==> s[j] != s[k])
    && (forall k :: 0 <= k < |s| - 1 ==> ps[s[k]] == Some(s[k + 1]))
    && if s == [] then next == start else s[0] == start && ps[s[|s| - 1]] == Some(next)
  }

  lemma ClimbContinues(ps: Parents, start: nat, s: seq<nat>, next: nat)
    requires Closed(ps) && Climbing(ps, start, s, next)
    ensures next !in s && ps[next].Some? ==> Climbing(ps, start, s + [next], ps[next].value)
    ensures next !in s && ps[next].None? ==> IsClimb(ps, s + [next]) && (s + [next])[0] == start
    ensures next in s ==> IsClimb(ps, s) && s[0] == start
  {
  }

  lemma {:induction false} SameClimbAt(ps: Parents, s: seq<nat>, t: seq<nat>, d: nat)
    requires IsClimb(ps, s) && IsClimb(ps, t) && s[0] == t[0]
    requires d < |s| && d < |t|
    ensures s[d] == t[d]
  {
    if d > 0 { SameClimbAt(ps, s, t, d - 1); }
  }

  lemma NextInClimb(ps: Parents, s: seq<nat>, n: nat)
    requires IsClimb(ps, s) && n < |s|
    ensures if n + 1 < |s| then ps[s[n]] == Some(s[n + 1]) && s[n + 1] !in s[..n + 1]
            else ps[s[n]].Some? ==> ps[s[n]].value in s
  {
  }

  lemma NotLonger(ps: Parents, s: seq<nat>, t: seq<nat>)
    requires IsClimb(ps, s) && IsClimb(ps, t) && s[0] == t[0]
    ensures |s| <= |t|
  {
    if |t| <= |s| {
      forall d | 0 <= d < |t| ensures s[d] == t[d] { SameClimbAt(ps, s, t, d); }
      assert s[..|t|] == t;
      NextInClimb(ps, t, |t| - 1);
      NextInClimb(ps, s, |t| - 1);
    }
  }

  /** A climb is determined by where it starts. */
  lemma ClimbUnique(ps: Parents, s: seq<nat>, t: seq<nat>)
    requires IsClimb(ps, s) && IsClimb(ps, t) && s[0] == t[0]
    ensures s == t
  {
    NotLonger(ps, s, t);
    NotLonger(ps, t, s);
    forall d | 0 <= d < |s| ensures s[d] == t[d] { SameClimbAt(ps, s, t, d); }
  }

  function Reverse<T>(s: seq<T>): (r: seq<T>)
    ensures |r| == |s| && forall k :: 0 <= k < |s| ==> r[k] == s[|s| - 1 - k]
  {
    if s == [] then [] else Reverse(s[1..]) + [s[0]]
  }

  lemma ReverseTwice<T>(s: seq<T>)
    ensures Reverse(Reverse(s)) == s
  {
  }

  /** A climb read in chronological order. */
  ghost predicate IsAncestorPath(ps: Parents, path: seq<nat>) {
    IsClimb(ps, Reverse(path))
  }

  /** What a chronological path looks like: no repetition, each entry the
      parent of the next, and a head with no new parent to go to. */
  lemma AncestorPathShape(ps: Parents, path: seq<nat>)
    requires IsAncestorPath(ps, path)
    ensures path != [] && forall k :: 0 <= k < |path| ==> path[k] < |ps|
    ensures forall j, k :: 0 <= j < k < |path| ==> path[j] != path[k]
    ensures forall k :: 0 < k < |path| ==> ps[path[k]] == Some(path[k - 1])
    ensures ps[path[0]].Some? ==> ps[path[0]].value in path
  {
    var s, n := Reverse(path), |path|;
    forall k | 0 <= k < n ensures path[k] == s[n - 1 - k] && path[k] < |ps| { assert s[n - 1 - k] < |ps|; }
    forall j, k | 0 <= j < k < n ensures path[j] != path[k] { assert s[n - 1 - k] != s[n - 1 - j]; }
    forall k | 0 < k < n ensures ps[path[k]] == Some(path[k - 1]) {
      assert ps[s[n - 1 - k]] == Some(s[n - 1 - k + 1]);
    }
    assert path[0] == s[n - 1];
    forall j | j in s ensures j in path {
      var k :| 0 <= k < n && s[k] == j;
      assert path[n - 1 - k] == j;
    }
  }

  lemma AncestorPathUnique(ps: Parents, p: seq<nat>, q: seq<nat>)
    requires IsAncestorPath(ps, p) && IsAncestorPath(ps, q)
    requires p[|p| - 1] == q[|q| - 1]
    ensures p == q
  {
    ClimbUnique(ps, Reverse(p), Reverse(q));
    ReverseTwice(p);
    ReverseTwice(q);
  }

  ghost function Below(n: nat): (s: set<nat>)
    ensures forall i: nat :: i in s <==> i < n
  {
    if n == 0 then {} else Below(n - 1) + {n - 1}
  }
}
