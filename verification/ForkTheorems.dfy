/** What a fork shows its reader: the source conversation, with progress
    entries dropped and every uuid renamed. */
module ForkTheorems {
  import opened Wrappers
  import opened Json
  import opened ParentGraph
  import opened Transcript
  import opened Chain
  import opened Fork

  ghost predicate Injective(draw: nat -> string) {
    forall i: nat, j: nat :: i != j ==> draw(i) != draw(j)
  }

  // ---------------------------------------------------------------------
  // Well-ordered transcripts: climbs, and the last message as the leaf.
  // ---------------------------------------------------------------------

  /** All ancestors of `i`, newest first, `i` included. */
  ghost function AncestorsOf(es: Entries, i: nat): (s: seq<nat>)
    requires ParentsFirst(es) && i < |es|
    ensures s != [] && s[0] == i
    ensures forall k :: 0 <= k < |s| ==> s[k] <= i
    decreases i
  {
    match ParentIndex(es, i)
    case None => [i]
    case Some(j) => [i] + AncestorsOf(es, j)
  }

  lemma {:induction false} AncestorsAreClimb(es: Entries, i: nat)
    requires ParentsFirst(es) && i < |es|
    ensures IsClimb(ParentsOf(es), AncestorsOf(es, i))
    decreases i
  {
    if ParentIndex(es, i).Some? {
      var j := ParentIndex(es, i).value;
      AncestorsAreClimb(es, j);
      var s, t := AncestorsOf(es, i), AncestorsOf(es, j);
      forall a, b | 0 <= a < b < |s| ensures s[a] != s[b] {
        assert s[b] == t[b - 1];
        if a > 0 { assert s[a] == t[a - 1]; }
      }
      forall k | 0 <= k < |s| - 1 ensures ParentsOf(es)[s[k]] == Some(s[k + 1]) {
        assert s[k + 1] == t[k];
        if k > 0 { assert s[k] == t[k - 1]; }
      }
      assert s[|s| - 1] == t[|t| - 1];
    }
  }

  /** In a well-ordered transcript the path to `m` is its list of ancestors. */
  lemma PathIsAncestors(es: Entries, path: seq<nat>, m: nat)
    requires ParentsFirst(es) && m < |es|
    requires IsAncestorPath(ParentsOf(es), path) && path[|path| - 1] == m
    ensures path == Reverse(AncestorsOf(es, m))
  {
    AncestorsAreClimb(es, m);
    ClimbUnique(ParentsOf(es), Reverse(path), AncestorsOf(es, m));
    ReverseTwice(path);
  }

  /** A message with a uuid; no such message follows. */
  ghost predicate IsLastNamed(es: Entries, m: nat) {
    && m < |es| && IsMessage(es[m]) && HasUuid(es[m])
    && forall j :: m < j < |es| ==> !(IsMessage(es[j]) && HasUuid(es[j]))
  }

  /** Below a last message there is a terminal that climbs back to it. */
  lemma {:induction false} TerminalBelow(es: Entries, m: nat, x: nat, k: nat) returns (t: nat)
    requires Ordered(es) && Grounded(es) && IsLastNamed(es, m) && m <= x < |es| && HasUuid(es[x])
    requires ReachesMessageAt(es, x, m, k)
    ensures t < |es| && IsTerminal(es, t) && NearestMessage(es, t, m)
    decreases |es| - x
  {
    if IsTerminal(es, x) {
      return x;
    }
    var y :| 0 <= y < |es| && Parent(es[y]) == Uuid(es[x]);
    DistinctIndex(es, x);
    assert ParentIndex(es, y) == Some(x);
    AncestorFromChild(es, y, x, m, k);
    t := TerminalBelow(es, m, y, k + 1);
  }

  lemma AncestorFromChild(es: Entries, y: nat, x: nat, m: nat, k: nat)
    requires y < |es| && x < |es| && ParentIndex(es, y) == Some(x)
    requires !IsMessage(es[y]) && ReachesMessageAt(es, x, m, k)
    ensures ReachesMessageAt(es, y, m, k + 1)
  {
    var ps := ParentsOf(es);
    forall j: nat ensures Ancestor(ps, y, j + 1) == Ancestor(ps, x, j) { AncestorShift(ps, y, x, j); }
    forall j: nat | j < k + 1
      ensures Ancestor(ps, y, j).Some? && !IsMessage(es[Ancestor(ps, y, j).value])
    {
      if j > 0 { assert Ancestor(ps, y, j - 1 + 1) == Ancestor(ps, x, j - 1); }
    }
  }

  lemma {:induction false} AncestorShift(ps: Parents, y: nat, x: nat, j: nat)
    requires Closed(ps) && y < |ps| && ps[y] == Some(x)
    ensures Ancestor(ps, y, j + 1) == Ancestor(ps, x, j)
  {
    if j > 0 { AncestorShift(ps, y, x, j - 1); }
  }

  lemma CandidateIsMessage(es: Entries, c: nat)
    requires IsCandidate(es, c)
    ensures c < |es| && IsMessage(es[c]) && HasUuid(es[c])
  {
    var t: nat :| t < |es| && IsTerminal(es, t) && NearestMessage(es, t, c);
    var k: nat :| ReachesMessageAt(es, t, c, k);
    AncestorIsNamed(es, t, k);
  }

  lemma AncestorIsNamed(es: Entries, i: nat, k: nat)
    requires i < |es| && HasUuid(es[i])
    ensures var a := Ancestor(ParentsOf(es), i, k); a.Some? ==> HasUuid(es[a.value])
  {
  }

  /** Every candidate is a message; the last message is a candidate. */
  lemma LastMessageIsCandidate(es: Entries, m: nat)
    requires Ordered(es) && Grounded(es) && IsLastNamed(es, m)
    ensures IsCandidate(es, m)
    ensures forall c: nat :: IsCandidate(es, c) ==> c <= m
  {
    forall c: nat | IsCandidate(es, c) ensures c <= m { CandidateIsMessage(es, c); }
    assert ReachesMessageAt(es, m, m, 0);
    var t := TerminalBelow(es, m, m, 0);
  }

  ghost predicate HasMainCandidate(es: Entries) {
    exists d: nat :: IsMainCandidate(es, d)
  }

  /** The leaf is the last message exactly when that one is on the main chain
      or no candidate is. */
  lemma LeafIsLastMessage(es: Entries, m: nat, c: nat)
    requires Ordered(es) && Grounded(es) && IsLastNamed(es, m)
    ensures IsLeaf(es, m) <==> IsMain(es[m]) || !HasMainCandidate(es)
    ensures IsLeaf(es, m) && IsLeaf(es, c) ==> c == m
  {
    LastMessageIsCandidate(es, m);
    assert IsMainCandidate(es, m) <==> IsMain(es[m]);
  }

  lemma ConversationIsAncestors(es: Entries, path: seq<nat>, m: nat)
    requires Ordered(es) && Grounded(es) && IsLastNamed(es, m) && (IsMain(es[m]) || !HasMainCandidate(es))
    requires IsConversationPath(es, path)
    ensures path == Reverse(AncestorsOf(es, m))
  {
    LastMessageIsCandidate(es, m);
    LeafIsLastMessage(es, m, path[|path| - 1]);
    PathIsAncestors(es, path, m);
  }

  // ---------------------------------------------------------------------
  // The climb past progress entries, on positions.
  // ---------------------------------------------------------------------

  /** The nearest ancestor that is not a progress entry. */
  ghost function KeptParent(es: Entries, i: nat): (r: Option<nat>)
    requires ParentsFirst(es) && i < |es|
    ensures r.Some? ==> r.value < i && NotProgress(es[r.value]) && HasUuid(es[r.value])
    decreases i
  {
    match ParentIndex(es, i)
    case None => None
    case Some(j) => if IsProgress(es[j]) then KeptParent(es, j) else Some(j)
  }

  /** In a well-ordered transcript the climb ends, at the kept parent. */
  lemma {:induction false} ClimbReachesKeptParent(es: Entries, i: nat)
    requires Ordered(es) && i < |es|
    ensures ClimbEnds(es, Parent(es[i]))
    ensures match Contracted(es, Parent(es[i]))
            case None => KeptParent(es, i).None?
            case Some(u) => LastIndex(es, u) == KeptParent(es, i)
    decreases i
  {
    ContractedStep(es, Parent(es[i]));
    if Parent(es[i]).Some? {
      var u := Parent(es[i]).value;
      if LastIndex(es, u).Some? {
        var j := LastIndex(es, u).value;
        DistinctIndex(es, j);
        assert ParentIndex(es, i) == Some(j);
        if IsProgress(es[j]) { ClimbReachesKeptParent(es, j); }
      }
    }
  }

  lemma ClimbsEndWhenOrdered(es: Entries)
    requires Ordered(es)
    ensures ClimbsEnd(es)
  {
    forall i | 0 <= i < |es| && NotProgress(es[i]) ensures ClimbEnds(es, Parent(es[i])) {
      ClimbReachesKeptParent(es, i);
    }
  }

  function DropProgress(es: Entries, s: seq<nat>): (r: seq<nat>)
    requires forall k :: 0 <= k < |s| ==> s[k] < |es|
    ensures forall k :: 0 <= k < |r| ==> r[k] < |es| && NotProgress(es[r[k]])
  {
    if s == [] then []
    else if IsProgress(es[s[0]]) then DropProgress(es, s[1..])
    else [s[0]] + DropProgress(es, s[1..])
  }

  lemma {:induction false} DropProgressConcat(es: Entries, s: seq<nat>, t: seq<nat>)
    requires forall k :: 0 <= k < |s| ==> s[k] < |es|
    requires forall k :: 0 <= k < |t| ==> t[k] < |es|
    ensures DropProgress(es, s + t) == DropProgress(es, s) + DropProgress(es, t)
  {
    if s == [] {
      assert s + t == t;
    } else {
      assert (s + t)[1..] == s[1..] + t;
      DropProgressConcat(es, s[1..], t);
    }
  }

  lemma {:induction false} DropProgressReverse(es: Entries, s: seq<nat>)
    requires forall k :: 0 <= k < |s| ==> s[k] < |es|
    ensures DropProgress(es, Reverse(s)) == Reverse(DropProgress(es, s))
  {
    if s != [] {
      DropProgressReverse(es, s[1..]);
      DropProgressConcat(es, Reverse(s[1..]), [s[0]]);
      assert DropProgress(es, [s[0]]) == if IsProgress(es[s[0]]) then [] else [s[0]];
    }
  }

  function IfKept(es: Entries, i: nat): seq<nat>
    requires i < |es|
  {
    if IsProgress(es[i]) then [] else [i]
  }

  ghost function KeptAbove(es: Entries, i: nat): seq<nat>
    requires ParentsFirst(es) && i < |es|
  {
    match KeptParent(es, i)
    case None => []
    case Some(j) => DropProgress(es, AncestorsOf(es, j))
  }

  lemma DropProgressCons(es: Entries, i: nat, t: seq<nat>)
    requires i < |es| && forall k :: 0 <= k < |t| ==> t[k] < |es|
    ensures DropProgress(es, [i] + t) == IfKept(es, i) + DropProgress(es, t)
  {
    assert ([i] + t)[1..] == t;
  }

  /** Dropping progress entries from a list of ancestors is climbing by kept parents. */
  lemma {:induction false} KeptAncestors(es: Entries, i: nat)
    requires ParentsFirst(es) && i < |es|
    ensures DropProgress(es, AncestorsOf(es, i)) == IfKept(es, i) + KeptAbove(es, i)
    decreases i
  {
    match ParentIndex(es, i)
    case None =>
      DropProgressCons(es, i, []);
      assert [i] + [] == [i];
    case Some(j) =>
      DropProgressCons(es, i, AncestorsOf(es, j));
      if IsProgress(es[j]) {
        KeptAncestors(es, j);
        assert IfKept(es, j) + KeptAbove(es, j) == KeptAbove(es, j);
        assert KeptAbove(es, i) == KeptAbove(es, j);
      } else {
        assert KeptAbove(es, i) == DropProgress(es, AncestorsOf(es, j));
      }
  }

  // ---------------------------------------------------------------------
  // The forked lines as a transcript.
  // ---------------------------------------------------------------------

  /** What the reader can see of a forked entry and its original. */
  ghost predicate IsCopyOf(line: Value, e: Value) {
    && Kind(line) == Kind(e)
    && IsMeta(line) == IsMeta(e)
    && !IsSidechain(line) && !InTeam(line)
    && Get(line, "message") == Get(e, "message")
  }

  lemma RemapLooksLike(line: Value, e: Value, es: Entries, draw: nat -> string, names: ForkNames, isLast: bool)
    requires ClimbEnds(es, Parent(e)) && IsRemapOf(line, e, es, draw, names, isLast)
    ensures IsCopyOf(line, e)
    ensures HasUuid(e) && NewName(es, draw, Uuid(e).value).Some? ==> Uuid(line) == NewName(es, draw, Uuid(e).value)
    ensures !HasUuid(e) && NewName(es, draw, "").None? ==> !HasUuid(line)
    ensures Parent(line) == NewNameOf(es, draw, Contracted(es, Parent(e)))
  {
    ReaderKeysKept();
  }

  lemma ReaderKeysKept()
    ensures "type" !in REWRITTEN && "isMeta" !in REWRITTEN && "message" !in REWRITTEN
  {
    assert "type"[0] != "uuid"[0] && "type"[0] != "slug"[0];
  }

  lemma TitleIsInert(names: ForkNames, uuid: string, title: string)
    ensures var e := TitleEntry(names, uuid, title);
            Uuid(e) == Some(uuid) && Parent(e).None? && !IsMessage(e) && NotProgress(e)
  {
    var fields := TitleEntry(names, uuid, title).fields;
    assert "parentUuid" !in fields;
    assert fields["type"] == Str("custom-title") && fields["uuid"] == Str(uuid);
  }

  /** The forked line of entry `i`: a copy of it, under the name drawn for it
      if it had one, below the name drawn for its kept parent. */
  ghost predicate LineShape(es: Entries, draw: nat -> string, i: nat, line: Value)
    requires ParentsFirst(es) && i < |es|
  {
    && IsCopyOf(line, es[i])
    && Uuid(line) == (if HasUuid(es[i]) then Some(draw(i)) else None)
    && Parent(line) == match KeptParent(es, i) { case None => None case Some(j) => Some(draw(j)) }
  }

  ghost predicate TitleShape(es: Entries, draw: nat -> string, line: Value) {
    Uuid(line) == Some(draw(|es|)) && Parent(line).None? && !IsMessage(line)
  }

  /** A fork as its reader sees it: one line per kept entry, then an entry
      that is no message and has no parent. */
  ghost predicate ForkShape(es: Entries, draw: nat -> string, lines: Entries) {
    && WellNamed(es) && Injective(draw)
    && var ws := Select(es, NotProgress);
    && |lines| == |ws| + 1
    && (forall k :: 0 <= k < |ws| ==> LineShape(es, draw, ws[k], lines[k]))
    && TitleShape(es, draw, lines[|ws|])
  }

  lemma NewNameAt(es: Entries, draw: nat -> string, i: nat)
    requires WellNamed(es) && i < |es|
    ensures if HasUuid(es[i]) then NewName(es, draw, Uuid(es[i]).value) == Some(draw(i))
            else NewName(es, draw, "").None?
  {
    if HasUuid(es[i]) { DistinctIndex(es, i); }
  }

  lemma ForkHasShape(es: Entries, lines: Entries, draw: nat -> string, names: ForkNames, title: string)
    requires WellNamed(es) && ClimbsEnd(es) && IsForkOf(lines, es, draw, names, title) && Injective(draw)
    ensures ForkShape(es, draw, lines)
  {
    var ws := Select(es, NotProgress);
    forall k | 0 <= k < |ws| ensures LineShape(es, draw, ws[k], lines[k]) {
      var i := ws[k];
      assert i in ws;
      ClimbReachesKeptParent(es, i);
      NewNameAt(es, draw, i);
      RemapLooksLike(lines[k], es[i], es, draw, names, k == |ws| - 1);
    }
    TitleIsInert(names, draw(|es|), title);
  }

  /** Every line's uuid was drawn for a position, and positions ascend. */
  ghost function DrawnFor(es: Entries, k: nat): nat
    requires k <= |Select(es, NotProgress)|
  {
    var ws := Select(es, NotProgress);
    if k < |ws| then ws[k] else |es|
  }

  lemma ForkUuids(es: Entries, draw: nat -> string, lines: Entries)
    requires ForkShape(es, draw, lines)
    ensures forall k :: 0 <= k < |lines| && HasUuid(lines[k]) ==> Uuid(lines[k]) == Some(draw(DrawnFor(es, k)))
    ensures var ws := Select(es, NotProgress);
            forall k :: 0 <= k < |lines| ==> (HasUuid(lines[k]) <==> (k < |ws| ==> HasUuid(es[ws[k]])))
    ensures DistinctUuids(lines)
  {
    var ws := Select(es, NotProgress);
    forall k: nat | k < |lines|
      ensures HasUuid(lines[k]) ==> Uuid(lines[k]) == Some(draw(DrawnFor(es, k)))
      ensures HasUuid(lines[k]) <==> (k < |ws| ==> HasUuid(es[ws[k]]))
    {
      ForkUuid(es, draw, lines, k);
    }
    forall j, k | 0 <= j < k < |lines| && HasUuid(lines[j]) ensures Uuid(lines[j]) != Uuid(lines[k]) {
      assert DrawnFor(es, j) < DrawnFor(es, k);
    }
  }

  lemma ForkUuid(es: Entries, draw: nat -> string, lines: Entries, k: nat)
    requires ForkShape(es, draw, lines) && k < |lines|
    ensures HasUuid(lines[k]) ==> Uuid(lines[k]) == Some(draw(DrawnFor(es, k)))
    ensures var ws := Select(es, NotProgress); HasUuid(lines[k]) <==> (k < |ws| ==> HasUuid(es[ws[k]]))
  {
    var ws := Select(es, NotProgress);
    if k < |ws| { assert LineShape(es, draw, ws[k], lines[k]); }
  }

  /** The parent relation of the fork is the kept-parent relation of the source. */
  lemma ForkParent(es: Entries, draw: nat -> string, lines: Entries, k: nat)
    requires ForkShape(es, draw, lines)
    requires k < |lines|
    ensures var ws, p := Select(es, NotProgress), ParentIndex(lines, k);
            if k == |ws| then p.None?
            else match KeptParent(es, ws[k])
              case None => p.None?
              case Some(j) => p.Some? && p.value < k && ws[p.value] == j
  {
    var ws := Select(es, NotProgress);
    if k < |ws| {
      var up := KeptParent(es, ws[k]);
      if up.None? {
        assert LineShape(es, draw, ws[k], lines[k]);
      } else {
        ForkUuids(es, draw, lines);
        var l := KeptPlace(es, up.value);
        ForkParentAt(es, draw, lines, k, l);
        ParentBefore(es, k, l);
      }
    }
  }

  lemma KeptPlace(es: Entries, i: nat) returns (l: nat)
    requires i < |es| && NotProgress(es[i])
    ensures l < |Select(es, NotProgress)| && Select(es, NotProgress)[l] == i
  {
    assert i in Select(es, NotProgress);
    l :| 0 <= l < |Select(es, NotProgress)| && Select(es, NotProgress)[l] == i;
  }

  lemma ParentBefore(es: Entries, k: nat, l: nat)
    requires ParentsFirst(es) && k < |Select(es, NotProgress)| && l < |Select(es, NotProgress)|
    requires KeptParent(es, Select(es, NotProgress)[k]) == Some(Select(es, NotProgress)[l])
    ensures l < k
  {
  }

  lemma ForkParentAt(es: Entries, draw: nat -> string, lines: Entries, k: nat, l: nat)
    requires ForkShape(es, draw, lines) && DistinctUuids(lines)
    requires var ws := Select(es, NotProgress);
             k < |ws| && l < |ws| && KeptParent(es, ws[k]) == Some(ws[l])
    ensures ParentIndex(lines, k) == Some(l)
  {
    var ws := Select(es, NotProgress);
    assert LineShape(es, draw, ws[k], lines[k]);
    assert LineShape(es, draw, ws[l], lines[l]);
    DistinctIndex(lines, l);
  }

  lemma ForkIsOrdered(es: Entries, draw: nat -> string, lines: Entries)
    requires ForkShape(es, draw, lines)
    ensures Ordered(lines) && (Grounded(es) ==> Grounded(lines))
  {
    ForkUuids(es, draw, lines);
    forall k | 0 <= k < |lines| && ParentIndex(lines, k).Some? ensures ParentIndex(lines, k).value < k {
      ForkParent(es, draw, lines, k);
    }
    if Grounded(es) {
      forall k | 0 <= k < |lines| && !HasUuid(lines[k]) ensures ParentIndex(lines, k).None? {
        ForkParent(es, draw, lines, k);
      }
    }
  }

  /** Positions of the fork, read back as positions of the source. */
  function Through(ws: seq<nat>, s: seq<nat>): (r: seq<nat>)
    requires forall k :: 0 <= k < |s| ==> s[k] < |ws|
    ensures |r| == |s| && forall k :: 0 <= k < |s| ==> r[k] == ws[s[k]]
  {
    seq(|s|, k requires 0 <= k < |s| => ws[s[k]])
  }

  lemma {:induction false} ThroughReverse(ws: seq<nat>, s: seq<nat>)
    requires forall k :: 0 <= k < |s| ==> s[k] < |ws|
    ensures Through(ws, Reverse(s)) == Reverse(Through(ws, s))
  {
    if s != [] {
      ThroughReverse(ws, s[1..]);
      ThroughSnoc(ws, Reverse(s[1..]), s[0]);
      ThroughTail(ws, s);
    }
  }

  lemma ThroughSnoc(ws: seq<nat>, s: seq<nat>, k: nat)
    requires (forall j :: 0 <= j < |s| ==> s[j] < |ws|) && k < |ws|
    ensures Through(ws, s + [k]) == Through(ws, s) + [ws[k]]
  {
  }

  lemma ThroughTail(ws: seq<nat>, s: seq<nat>)
    requires s != [] && forall j :: 0 <= j < |s| ==> s[j] < |ws|
    ensures Through(ws, s)[1..] == Through(ws, s[1..])
  {
  }

  /** Climbing the fork visits exactly the kept ancestors of the source. */
  lemma {:induction false} ForkAncestors(es: Entries, draw: nat -> string, lines: Entries, k: nat)
    requires ForkShape(es, draw, lines)
    requires Ordered(lines) && k < |Select(es, NotProgress)|
    ensures var ws := Select(es, NotProgress);
            Through(ws, AncestorsOf(lines, k)) == DropProgress(es, AncestorsOf(es, ws[k]))
    decreases k
  {
    var ws := Select(es, NotProgress);
    assert ws[k] in ws;
    KeptAncestors(es, ws[k]);
    ForkParent(es, draw, lines, k);
    match ParentIndex(lines, k)
    case None =>
      assert AncestorsOf(lines, k) == [k];
      assert Through(ws, [k]) == [ws[k]];
    case Some(l) =>
      ForkAncestors(es, draw, lines, l);
      assert ws[l] in ws;
      KeptAncestors(es, ws[l]);
      ThroughCons(ws, k, AncestorsOf(lines, l));
  }

  lemma ThroughCons(ws: seq<nat>, k: nat, s: seq<nat>)
    requires k < |ws| && forall j :: 0 <= j < |s| ==> s[j] < |ws|
    ensures Through(ws, [k] + s) == [ws[k]] + Through(ws, s)
  {
  }

  /** The last message keeps its place: it is the fork's last message too. */
  lemma ForkLastMessage(es: Entries, draw: nat -> string, lines: Entries, m: nat) returns (k: nat)
    requires ForkShape(es, draw, lines)
    requires IsLastNamed(es, m)
    ensures k < |Select(es, NotProgress)| && Select(es, NotProgress)[k] == m
    ensures IsLastNamed(lines, k) && IsCopyOf(lines[k], es[m])
  {
    k := KeptPlace(es, m);
    assert LineShape(es, draw, m, lines[k]);
    forall j: nat | k < j < |lines| ensures !(IsMessage(lines[j]) && HasUuid(lines[j])) {
      LaterIsUnnamed(es, draw, lines, m, k, j);
    }
  }

  lemma LaterIsUnnamed(es: Entries, draw: nat -> string, lines: Entries, m: nat, k: nat, j: nat)
    requires ForkShape(es, draw, lines) && IsLastNamed(es, m) && k < j < |lines|
    requires k < |Select(es, NotProgress)| && Select(es, NotProgress)[k] == m
    ensures !(IsMessage(lines[j]) && HasUuid(lines[j]))
  {
    var ws := Select(es, NotProgress);
    if j < |ws| { assert LineShape(es, draw, ws[j], lines[j]); }
  }

  /** The heart of the matter: the path read from the fork is the ancestor
      path of the entry its leaf was made from, progress entries dropped. */
  lemma ForkPath(es: Entries, draw: nat -> string, lines: Entries, q: seq<nat>)
    requires ForkShape(es, draw, lines) && IsConversationPath(lines, q) && q != []
    ensures forall k :: 0 <= k < |q| ==> q[k] < |Select(es, NotProgress)|
    ensures var ws := Select(es, NotProgress);
            Through(ws, q) == DropProgress(es, Reverse(AncestorsOf(es, ws[q[|q| - 1]])))
  {
    var k := q[|q| - 1];
    ForkIsOrdered(es, draw, lines);
    CandidateIsCopied(es, draw, lines, k);
    PathIsAncestors(lines, q, k);
    ForkAncestorPath(es, draw, lines, k, q);
  }

  /** Every candidate of the fork was made from an entry. */
  lemma CandidateIsCopied(es: Entries, draw: nat -> string, lines: Entries, k: nat)
    requires ForkShape(es, draw, lines) && IsCandidate(lines, k)
    ensures k < |Select(es, NotProgress)|
  {
    CandidateIsMessage(lines, k);
    TitleIsNoMessage(es, draw, lines);
  }

  lemma TitleIsNoMessage(es: Entries, draw: nat -> string, lines: Entries)
    requires ForkShape(es, draw, lines)
    ensures |lines| == |Select(es, NotProgress)| + 1 && !IsMessage(lines[|lines| - 1])
  {
  }

  lemma ForkAncestorPath(es: Entries, draw: nat -> string, lines: Entries, k: nat, q: seq<nat>)
    requires ForkShape(es, draw, lines) && Ordered(lines) && k < |Select(es, NotProgress)|
    requires q == Reverse(AncestorsOf(lines, k))
    ensures forall j :: 0 <= j < |q| ==> q[j] < |Select(es, NotProgress)|
    ensures Through(Select(es, NotProgress), q)
            == DropProgress(es, Reverse(AncestorsOf(es, Select(es, NotProgress)[k])))
  {
    var ws, a := Select(es, NotProgress), AncestorsOf(lines, k);
    ReverseBelow(a, |ws|);
    ForkAncestors(es, draw, lines, k);
    DropProgressReverse(es, AncestorsOf(es, ws[k]));
    ThroughReverse(ws, a);
  }

  lemma ReverseBelow(s: seq<nat>, n: nat)
    requires forall k :: 0 <= k < |s| ==> s[k] < n
    ensures forall k :: 0 <= k < |s| ==> Reverse(s)[k] < n
  {
  }

  lemma NoMessageLine(es: Entries, draw: nat -> string, lines: Entries, c: nat)
    requires ForkShape(es, draw, lines) && c < |lines|
    requires forall i :: 0 <= i < |es| ==> !IsMessage(es[i])
    ensures !IsMessage(lines[c])
  {
    var ws := Select(es, NotProgress);
    if c < |ws| { assert LineShape(es, draw, ws[c], lines[c]); }
  }

  /** A transcript with no message forks to lines with no conversation. */
  lemma ForkWithoutMessages(es: Entries, draw: nat -> string, lines: Entries, q: seq<nat>)
    requires ForkShape(es, draw, lines)
    requires forall i :: 0 <= i < |es| ==> !IsMessage(es[i])
    requires IsConversationPath(lines, q)
    ensures q == []
  {
    forall c: nat | c < |lines| ensures !IsMessage(lines[c]) { NoMessageLine(es, draw, lines, c); }
    forall c: nat ensures !IsCandidate(lines, c) {
      if IsCandidate(lines, c) { CandidateIsMessage(lines, c); }
    }
  }
}
