/** Ordered JSON merge patches with exclusive ownership of the written paths
    (packages/model-option-map/src/merge-patch.ts; section 2 of RFC 7396). */
module MergePatches {
  import opened Options
  import opened Json

  datatype NamedPatch = NamedPatch(option: string, patch: Value)

  datatype Outcome =
    | Merged(value: Value)
    | Conflict(path: Path, owner: string, option: string)

  /** MergePatch(Target, Patch) of RFC 7396, section 2.  An absent target counts as a non-object. */
  function MergePatch(target: Value, patch: Value): Value
    decreases patch
  {
    if !patch.Obj? then patch
    else Obj(map key | key in Members(target).Keys + patch.members.Keys && !(key in patch.members && patch.members[key].Null?) ::
               if key in patch.members then MergePatch(Child(target, key), patch.members[key]) else Members(target)[key])
  }

  function MergeAll(body: Value, patches: seq<NamedPatch>): Value
    decreases |patches|
  {
    if patches == [] then body else MergeAll(MergePatch(body, patches[0].patch), patches[1..])
  }

  /** A path that the patch writes: down to a scalar, an array, a null or an empty object. */
  predicate IsLeaf(patch: Value, path: Path)
    decreases |path|
  {
    && path != []
    && path[0] in Members(patch)
    && if NonEmptyObject(Members(patch)[path[0]]) then IsLeaf(Members(patch)[path[0]], path[1..]) else |path| == 1
  }

  predicate Overlap(p: Path, q: Path) {
    p <= q || q <= p
  }

  ghost predicate Disjoint(p: Value, q: Value) {
    forall x, y :: IsLeaf(p, x) && IsLeaf(q, y) ==> !Overlap(x, y)
  }

  /** No two different patches of the list write overlapping paths. */
  ghost predicate ConflictFree(patches: seq<NamedPatch>) {
    forall i, j :: 0 <= i < j < |patches| ==> Disjoint(patches[i].patch, patches[j].patch)
  }

  ghost predicate AllObjects(patches: seq<NamedPatch>) {
    forall i :: 0 <= i < |patches| ==> patches[i].patch.Obj?
  }

  // ---------- leaves ----------

  lemma {:induction false} SomeLeaf(v: Value) returns (path: Path)
    requires NonEmptyObject(v)
    ensures IsLeaf(v, path)
    decreases v
  {
    var key :| key in v.members;
    if NonEmptyObject(v.members[key]) {
      var rest := SomeLeaf(v.members[key]);
      path := [key] + rest;
      assert path[1..] == rest;
    } else {
      path := [key];
    }
  }

  /** The written paths of one patch never overlap one another: a patch cannot conflict with itself. */
  lemma {:induction false} LeavesArePrefixFree(patch: Value, x: Path, y: Path)
    requires IsLeaf(patch, x) && IsLeaf(patch, y) && Overlap(x, y)
    ensures x == y
    decreases |x|
  {
    assert x[0] == y[0];
    if NonEmptyObject(Members(patch)[x[0]]) {
      LeavesArePrefixFree(Members(patch)[x[0]], x[1..], y[1..]);
      assert x == [x[0]] + x[1..] && y == [y[0]] + y[1..];
    } else {
      assert x == [x[0]] == y;
    }
  }

  /** Where two disjoint patches share a key, both go deeper, and stay disjoint there. */
  lemma SharedKey(p: Value, q: Value, key: string)
    requires Disjoint(p, q) && key in Members(p) && key in Members(q)
    ensures NonEmptyObject(Members(p)[key]) && NonEmptyObject(Members(q)[key])
    ensures Disjoint(Members(p)[key], Members(q)[key])
  {
    var vp, vq := Members(p)[key], Members(q)[key];
    var x: Path, y: Path := [key], [key];
    if NonEmptyObject(vp) {
      var rest := SomeLeaf(vp);
      x := [key] + rest;
    }
    if NonEmptyObject(vq) {
      var rest := SomeLeaf(vq);
      y := [key] + rest;
    }
    assert IsLeaf(p, x) && IsLeaf(q, y);
    forall u, v | IsLeaf(vp, u) && IsLeaf(vq, v) ensures !Overlap(u, v) {
      OverlapBelow(key, u, v);
    }
  }

  // ---------- order does not matter ----------

  lemma MergedMember(target: Value, patch: Value, key: string)
    requires patch.Obj?
    ensures var merged := Members(MergePatch(target, patch));
      if key in patch.members then
        && (key in merged <==> !patch.members[key].Null?)
        && (key in merged ==> merged[key] == MergePatch(Child(target, key), patch.members[key]))
      else
        && (key in merged <==> key in Members(target))
        && (key in merged ==> merged[key] == Members(target)[key])
  {
  }

  /** Disjoint patches commute on every target. */
  lemma {:induction false} DisjointPatchesCommute(t: Value, p: Value, q: Value)
    requires p.Obj? && q.Obj? && Disjoint(p, q)
    ensures MergePatch(MergePatch(t, p), q) == MergePatch(MergePatch(t, q), p)
    decreases p
  {
    var pq, qp := MergePatch(MergePatch(t, p), q), MergePatch(MergePatch(t, q), p);
    forall key
      ensures key in pq.members <==> key in qp.members
      ensures key in pq.members ==> pq.members[key] == qp.members[key]
    {
      MergedMember(t, p, key);
      MergedMember(t, q, key);
      MergedMember(MergePatch(t, p), q, key);
      MergedMember(MergePatch(t, q), p, key);
      if key in p.members && key in q.members {
        SharedKey(p, q, key);
        DisjointPatchesCommute(Child(t, key), p.members[key], q.members[key]);
      }
    }
    assert pq.members == qp.members;
  }

  lemma {:induction false} LastPatchMovesFirst(body: Value, patches: seq<NamedPatch>, last: NamedPatch)
    requires AllObjects(patches) && last.patch.Obj?
    requires forall i :: 0 <= i < |patches| ==> Disjoint(patches[i].patch, last.patch)
    ensures MergeAll(body, patches + [last]) == MergeAll(MergePatch(body, last.patch), patches)
    decreases |patches|
  {
    if patches == [] {
      assert patches + [last] == [last];
    } else {
      assert (patches + [last])[1..] == patches[1..] + [last];
      LastPatchMovesFirst(MergePatch(body, patches[0].patch), patches[1..], last);
      DisjointPatchesCommute(body, patches[0].patch, last.patch);
    }
  }

  lemma {:induction false} MergeAllAppend(body: Value, a: seq<NamedPatch>, b: seq<NamedPatch>)
    ensures MergeAll(body, a + b) == MergeAll(MergeAll(body, a), b)
    decreases |a|
  {
    if a == [] {
      assert a + b == b;
    } else {
      assert (a + b)[1..] == a[1..] + b;
      MergeAllAppend(MergePatch(body, a[0].patch), a[1..], b);
    }
  }

  lemma DisjointIsSymmetric(p: Value, q: Value)
    requires Disjoint(p, q)
    ensures Disjoint(q, p)
  {
  }

  lemma WithoutOne(before: seq<NamedPatch>, one: NamedPatch, after: seq<NamedPatch>, rest: seq<NamedPatch>)
    requires multiset(before + [one] + after) == multiset([one] + rest)
    ensures multiset(before + after) == multiset(rest)
  {
    assert multiset(before + [one] + after) == multiset(before + after) + multiset{one};
    assert multiset([one] + rest) == multiset(rest) + multiset{one};
    assert multiset(before + after) == multiset(before + [one] + after) - multiset{one};
    assert multiset(rest) == multiset([one] + rest) - multiset{one};
  }

  lemma OthersAreDisjoint(before: seq<NamedPatch>, one: NamedPatch, after: seq<NamedPatch>)
    requires ConflictFree(before + [one] + after)
    ensures ConflictFree(before + after)
    ensures forall p :: p in before + after ==> Disjoint(p.patch, one.patch) && Disjoint(one.patch, p.patch)
  {
    hide Disjoint;
    var all, others, at := before + [one] + after, before + after, |before|;
    assert all[at] == one;
    forall i | 0 <= i < |others|
      ensures others[i] == all[if i < at then i else i + 1]
      ensures Disjoint(others[i].patch, one.patch) && Disjoint(one.patch, others[i].patch)
    {
      if i < at {
        DisjointIsSymmetric(all[i].patch, all[at].patch);
      } else {
        DisjointIsSymmetric(all[at].patch, all[i + 1].patch);
      }
    }
  }

  lemma FirstMovesToFront(body: Value, before: seq<NamedPatch>, one: NamedPatch, after: seq<NamedPatch>)
    requires AllObjects(before) && one.patch.Obj?
    requires forall p :: p in before ==> Disjoint(p.patch, one.patch)
    ensures MergeAll(body, before + [one] + after) == MergeAll(MergePatch(body, one.patch), before + after)
  {
    hide Disjoint, MergePatch;
    LastPatchMovesFirst(body, before, one);
    MergeAllAppend(body, before + [one], after);
    MergeAllAppend(MergePatch(body, one.patch), before, after);
  }

  lemma SameElements(a: seq<NamedPatch>, b: seq<NamedPatch>)
    requires multiset(a) == multiset(b)
    ensures |a| == |b| && forall p :: p in a <==> p in b
  {
    assert |multiset(a)| == |a| && |multiset(b)| == |b|;
    assert forall p :: p in a <==> p in multiset(a);
    assert forall p :: p in b <==> p in multiset(b);
  }

  lemma BringForward(body: Value, patches: seq<NamedPatch>, first: NamedPatch, rest: seq<NamedPatch>)
      returns (others: seq<NamedPatch>)
    requires AllObjects(patches) && ConflictFree(patches)
    requires multiset(patches) == multiset([first] + rest)
    ensures AllObjects(others) && ConflictFree(others) && multiset(others) == multiset(rest)
    ensures first.patch.Obj? && forall p :: p in rest ==> Disjoint(first.patch, p.patch)
    ensures MergeAll(body, patches) == MergeAll(MergePatch(body, first.patch), others)
  {
    hide Disjoint, MergePatch, ConflictFree, MergeAll;
    SameElements(patches, [first] + rest);
    assert first in [first] + rest;
    var at :| 0 <= at < |patches| && patches[at] == first;
    var before, after := patches[..at], patches[at + 1..];
    assert patches == before + [first] + after;
    others := before + after;
    OthersAreDisjoint(before, first, after);
    WithoutOne(before, first, after, rest);
    SameElements(others, rest);
    FirstMovesToFront(body, before, first, after);
  }

  /** If the patches do not conflict, every order of applying them is conflict-free and gives the same value. */
  lemma {:induction false} PatchOrderDoesNotMatter(body: Value, patches: seq<NamedPatch>, reordered: seq<NamedPatch>)
    requires AllObjects(patches) && ConflictFree(patches)
    requires multiset(patches) == multiset(reordered)
    ensures AllObjects(reordered) && ConflictFree(reordered)
    ensures MergeAll(body, reordered) == MergeAll(body, patches)
    decreases |reordered|
  {
    if reordered == [] {
      SameElements(patches, reordered);
    } else {
      hide Disjoint, MergePatch, ConflictFree;
      var first, rest := reordered[0], reordered[1..];
      assert reordered == [first] + rest;
      var others := BringForward(body, patches, first, rest);
      PatchOrderDoesNotMatter(MergePatch(body, first.patch), others, rest);
    }
  }

  // ---------- what the result contains ----------

  /** What writing the leaf value `v` makes of what was there. */
  function Effect(v: Value, previous: Option<Value>): Option<Value> {
    if v.Null? then None
    else if v.Obj? then Some(if previous.Some? && previous.value.Obj? then previous.value else EMPTY)
    else Some(v)
  }

  lemma {:induction false} LeafIsWritten(t: Value, patch: Value, path: Path)
    requires patch.Obj? && IsLeaf(patch, path)
    ensures Lookup(patch, path).Some?
    ensures Lookup(MergePatch(t, patch), path) == Effect(Lookup(patch, path).value, Lookup(t, path))
    decreases |path|
  {
    var key := path[0];
    MergedMember(t, patch, key);
    if NonEmptyObject(patch.members[key]) {
      LeafIsWritten(Child(t, key), patch.members[key], path[1..]);
    } else {
      assert path[1..] == [];
      if patch.members[key] == EMPTY {
        assert Members(MergePatch(Child(t, key), EMPTY)) == Members(Child(t, key));
      }
    }
  }

  /** A path that overlaps no written path looks up as before. */
  lemma {:induction false} OtherPathsStay(t: Value, patch: Value, path: Path)
    requires patch.Obj? && (t.Obj? || path != [])
    requires forall x :: IsLeaf(patch, x) ==> !Overlap(x, path)
    ensures Lookup(MergePatch(t, patch), path) == Lookup(t, path)
    decreases |path|
  {
    if path == [] {
      if patch.members != map[] {
        var x := OverlappingLeaf(patch, path);
        assert false;
      }
      assert MergePatch(t, patch).members == t.members;
    } else {
      var key := path[0];
      MergedMember(t, patch, key);
      if key in patch.members {
        var v := patch.members[key];
        if !NonEmptyObject(v) || |path| == 1 {
          var x := OverlappingLeaf(patch, path);
          assert false;
        }
        forall x | IsLeaf(v, x) ensures !Overlap(x, path[1..]) {
          assert path == [key] + path[1..];
          OverlapBelow(key, x, path[1..]);
        }
        OtherPathsStay(Child(t, key), v, path[1..]);
      }
    }
  }

  lemma OverlapBelow(key: string, x: Path, y: Path)
    ensures Overlap([key] + x, [key] + y) <==> Overlap(x, y)
  {
    assert ([key] + x)[1..] == x && ([key] + y)[1..] == y;
  }

  /** A path of at most one key into the patch, or one that ends at or below a leaf, overlaps a written path. */
  lemma OverlappingLeaf(patch: Value, path: Path) returns (x: Path)
    requires if path == [] then NonEmptyObject(patch)
      else path[0] in Members(patch) && (!NonEmptyObject(Members(patch)[path[0]]) || |path| == 1)
    ensures IsLeaf(patch, x) && Overlap(x, path)
  {
    if path == [] {
      x := SomeLeaf(patch);
    } else if NonEmptyObject(Members(patch)[path[0]]) {
      var rest := SomeLeaf(Members(patch)[path[0]]);
      x := [path[0]] + rest;
    } else {
      x := [path[0]];
    }
  }

  lemma {:induction false} OtherPathsStayThroughout(body: Value, patches: seq<NamedPatch>, path: Path)
    requires AllObjects(patches) && body.Obj?
    requires forall i, x :: 0 <= i < |patches| && IsLeaf(patches[i].patch, x) ==> !Overlap(x, path)
    ensures Lookup(MergeAll(body, patches), path) == Lookup(body, path)
    decreases |patches|
  {
    hide IsLeaf, Overlap, Lookup;
    if patches != [] {
      var first, rest := patches[0], patches[1..];
      OtherPathsStay(body, first.patch, path);
      forall i, x | 0 <= i < |rest| && IsLeaf(rest[i].patch, x) ensures !Overlap(x, path) {
        assert rest[i] == patches[i + 1];
      }
      assert MergePatch(body, first.patch).Obj?;
      OtherPathsStayThroughout(MergePatch(body, first.patch), rest, path);
    }
  }

  lemma AtFront(body: Value, patches: seq<NamedPatch>, j: nat) returns (others: seq<NamedPatch>)
    requires AllObjects(patches) && ConflictFree(patches) && j < |patches|
    ensures AllObjects(others) && forall p :: p in others ==> Disjoint(p.patch, patches[j].patch)
    ensures MergeAll(body, patches) == MergeAll(MergePatch(body, patches[j].patch), others)
  {
    hide Disjoint, MergePatch;
    var before, after := patches[..j], patches[j + 1..];
    assert patches == before + [patches[j]] + after;
    OthersAreDisjoint(before, patches[j], after);
    FirstMovesToFront(body, before, patches[j], after);
    others := before + after;
  }

  /** After conflict-free patches every leaf of every patch has its effect on what the body held. */
  lemma {:induction false} EveryLeafIsWritten(body: Value, patches: seq<NamedPatch>, j: nat, path: Path)
    requires AllObjects(patches) && ConflictFree(patches) && body.Obj? && j < |patches|
    requires IsLeaf(patches[j].patch, path)
    ensures Lookup(patches[j].patch, path).Some?
    ensures Lookup(MergeAll(body, patches), path) == Effect(Lookup(patches[j].patch, path).value, Lookup(body, path))
  {
    hide IsLeaf, Overlap, Lookup, ConflictFree;
    var others := AtFront(body, patches, j);
    LeafIsWritten(body, patches[j].patch, path);
    forall i, x | 0 <= i < |others| && IsLeaf(others[i].patch, x) ensures !Overlap(x, path) {
      assert Disjoint(others[i].patch, patches[j].patch);
    }
    assert MergePatch(body, patches[j].patch).Obj?;
    OtherPathsStayThroughout(MergePatch(body, patches[j].patch), others, path);
  }

  /** Applying one patch twice is applying it once. */
  lemma {:induction false} MergingIsIdempotent(t: Value, p: Value)
    ensures MergePatch(MergePatch(t, p), p) == MergePatch(t, p)
    decreases p
  {
    if p.Obj? {
      var once := MergePatch(t, p);
      var twice := MergePatch(once, p);
      forall key
        ensures key in once.members <==> key in twice.members
        ensures key in once.members ==> once.members[key] == twice.members[key]
      {
        MergedMember(t, p, key);
        MergedMember(once, p, key);
        if key in p.members {
          MergingIsIdempotent(Child(t, key), p.members[key]);
        }
      }
      assert once.members == twice.members;
    }
  }

  /** Re-applying any of the patches to the final value changes nothing. */
  lemma {:induction false} ReapplyingChangesNothing(body: Value, patches: seq<NamedPatch>, j: nat)
    requires AllObjects(patches) && ConflictFree(patches) && j < |patches|
    ensures MergePatch(MergeAll(body, patches), patches[j].patch) == MergeAll(body, patches)
  {
    hide ConflictFree, Disjoint, MergePatch;
    var others := AtFront(body, patches, j);
    var p := patches[j];
    var once := MergePatch(body, p.patch);
    MergeAllAppend(once, others, [p]);
    assert MergeAll(MergeAll(once, others), [p]) == MergePatch(MergeAll(once, others), p.patch) by {
      ApplyOne(MergeAll(once, others), p);
    }
    LastPatchMovesFirst(once, others, p);
    MergingIsIdempotent(body, p.patch);
  }

  lemma ApplyOne(body: Value, p: NamedPatch)
    ensures MergeAll(body, [p]) == MergePatch(body, p.patch)
  {
    assert [p][1..] == [];
  }
}
