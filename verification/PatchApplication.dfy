/** The conflict check and the merge loops as written (packages/model-option-map/src/merge-patch.ts:13-78). */
module PatchApplication {
  import opened Options
  import opened Json
  import opened MergePatches

  /** The leaves that start with one of the given keys. */
  ghost predicate LeafAmong(patch: Value, keys: set<string>, path: Path) {
    IsLeaf(patch, path) && path[0] in keys
  }

  /** The keys are visited in an unspecified order, standing for the insertion order of the object. */
  method CollectWrittenPaths(patch: Value, prefix: Path) returns (paths: seq<Path>)
    requires patch.Obj?
    ensures forall p :: p in paths <==> prefix <= p && IsLeaf(patch, p[|prefix|..])
    ensures forall i, j :: 0 <= i < j < |paths| ==> paths[i] != paths[j]
    decreases patch
  {
    paths := [];
    var remaining := patch.members.Keys;
    while remaining != {}
      invariant remaining <= patch.members.Keys
      invariant forall p :: p in paths <==> prefix <= p && LeafAmong(patch, patch.members.Keys - remaining, p[|prefix|..])
      invariant forall i, j :: 0 <= i < j < |paths| ==> paths[i] != paths[j]
      decreases |remaining|
    {
      var key :| key in remaining;
      var value, path := patch.members[key], prefix + [key];
      var found: seq<Path>;
      if NonEmptyObject(value) {
        found := CollectWrittenPaths(value, path);
      } else {
        found := [path];
      }
      PathsThroughKey(patch, prefix, key, found);
      NoRepeats(paths, found, prefix, key);
      remaining := remaining - {key};
      paths := paths + found;
    }
  }

  /** What is collected for one key are the leaves starting with it. */
  lemma PathsThroughKey(patch: Value, prefix: Path, key: string, found: seq<Path>)
    requires patch.Obj? && key in patch.members
    requires var value := patch.members[key]; var path := prefix + [key];
      if NonEmptyObject(value) then forall p :: p in found <==> path <= p && IsLeaf(value, p[|path|..])
      else found == [path]
    ensures forall p :: p in found <==> prefix <= p && LeafAmong(patch, {key}, p[|prefix|..])
  {
    forall p
      ensures p in found <==> prefix <= p && LeafAmong(patch, {key}, p[|prefix|..])
    {
      StepDown(p, prefix, key);
    }
  }

  lemma StepDown(p: Path, prefix: Path, key: string)
    ensures prefix + [key] <= p <==> prefix <= p && |p| > |prefix| && p[|prefix|..][0] == key
    ensures prefix + [key] <= p ==> p[|prefix|..][1..] == p[|prefix| + 1..]
    ensures prefix + [key] <= p && |p| == |prefix| + 1 <==> p == prefix + [key]
  {
  }

  lemma NoRepeats(paths: seq<Path>, found: seq<Path>, prefix: Path, key: string)
    requires forall p :: p in paths ==> prefix <= p && p[|prefix|..] != [] && p[|prefix|..][0] != key
    requires forall p :: p in found ==> prefix <= p && p[|prefix|..] != [] && p[|prefix|..][0] == key
    requires forall i, j :: 0 <= i < j < |paths| ==> paths[i] != paths[j]
    requires forall i, j :: 0 <= i < j < |found| ==> found[i] != found[j]
    ensures forall i, j :: 0 <= i < j < |paths + found| ==> (paths + found)[i] != (paths + found)[j]
  {
    forall i, j | 0 <= i < j < |paths + found| ensures (paths + found)[i] != (paths + found)[j] {
      if i < |paths| <= j {
        assert paths[i] in paths && found[j - |paths|] in found;
      }
    }
  }

  method PathsOverlap(left: Path, right: Path) returns (r: bool)
    ensures r <==> Overlap(left, right)
  {
    var sharedLength := if |left| < |right| then |left| else |right|;
    var index := 0;
    while index < sharedLength
      invariant 0 <= index <= sharedLength
      invariant left[..index] == right[..index]
    {
      if left[index] != right[index] {
        assert !(left <= right) && !(right <= left);
        return false;
      }
      index := index + 1;
    }
    assert left[..sharedLength] == right[..sharedLength];
    return true;
  }

  /** What one step of the merge loop makes of a member. */
  ghost predicate MemberMerged(target: Value, patch: Value, result: map<string, Value>, key: string)
    requires patch.Obj? && key in patch.members
  {
    && (key in result <==> !patch.members[key].Null?)
    && (key in result ==> result[key] == MergePatch(Child(target, key), patch.members[key]))
  }

  method MergeObject(target: Value, patch: Value) returns (merged: Value)
    requires target.Obj? && patch.Obj?
    ensures merged.Obj? && merged == MergePatch(target, patch)
    decreases patch
  {
    hide MergePatch;
    var result := target.members;
    var remaining := patch.members.Keys;
    while remaining != {}
      invariant remaining <= patch.members.Keys
      invariant forall key :: key in patch.members && key !in remaining ==> MemberMerged(target, patch, result, key)
      invariant forall key :: key !in patch.members || key in remaining ==>
        (key in result <==> key in target.members) && (key in result ==> result[key] == target.members[key])
      decreases |remaining|
    {
      var key :| key in remaining;
      var patchValue := patch.members[key];
      remaining := remaining - {key};
      if patchValue.Null? {
        result := result - {key};
      } else if patchValue.Obj? {
        var targetValue := if key in result && result[key].Obj? then result[key] else EMPTY;
        var inner := MergeObject(targetValue, patchValue);
        OnlyMembersMatter(Child(target, key), targetValue, patchValue);
        result := result[key := inner];
      } else {
        NonObjectReplaces(Child(target, key), patchValue);
        result := result[key := patchValue];
      }
    }
    merged := Obj(result);
    SameMembers(target, patch, result);
  }

  lemma OnlyMembersMatter(t: Value, u: Value, patch: Value)
    requires patch.Obj? && Members(t) == Members(u)
    ensures MergePatch(t, patch) == MergePatch(u, patch)
  {
    var a, b := MergePatch(t, patch), MergePatch(u, patch);
    assert a.Obj? && b.Obj?;
    hide MergePatch;
    forall key ensures (key in a.members <==> key in b.members) && (key in a.members ==> a.members[key] == b.members[key]) {
      MergedMember(t, patch, key);
      MergedMember(u, patch, key);
    }
    assert a.members == b.members;
  }

  lemma NonObjectReplaces(t: Value, patch: Value)
    requires !patch.Obj?
    ensures MergePatch(t, patch) == patch
  {
  }

  lemma SameMembers(target: Value, patch: Value, result: map<string, Value>)
    requires target.Obj? && patch.Obj?
    requires forall key :: key in patch.members ==> MemberMerged(target, patch, result, key)
    requires forall key :: key !in patch.members ==>
      (key in result <==> key in target.members) && (key in result ==> result[key] == target.members[key])
    ensures Obj(result) == MergePatch(target, patch)
  {
    var merged := MergePatch(target, patch);
    forall key
      ensures key in result <==> key in merged.members
      ensures key in result ==> result[key] == merged.members[key]
    {
      MergedMember(target, patch, key);
      assert key in patch.members ==> MemberMerged(target, patch, result, key);
    }
    assert result == merged.members;
  }

  datatype OwnedPath = OwnedPath(option: string, path: Path)

  /** Some patch before number i owns the path. */
  ghost predicate OwnedBefore(patches: seq<NamedPatch>, i: nat, o: OwnedPath)
    requires i <= |patches|
  {
    exists k :: 0 <= k < i && IsLeaf(patches[k].patch, o.path) && patches[k].option == o.option
  }

  /** The error names a written path of one patch, overlapping a written path of an earlier one. */
  ghost predicate GenuineConflict(patches: seq<NamedPatch>, path: Path, owner: string, option: string) {
    exists i, j, x :: 0 <= i < j < |patches|
      && IsLeaf(patches[j].patch, path) && patches[j].option == option
      && IsLeaf(patches[i].patch, x) && patches[i].option == owner && Overlap(x, path)
  }

  method FindOverlap(owned: seq<OwnedPath>, path: Path) returns (r: Option<OwnedPath>)
    ensures r == None ==> forall o :: o in owned ==> !Overlap(o.path, path)
    ensures r.Some? ==> r.value in owned && Overlap(r.value.path, path)
  {
    for k := 0 to |owned|
      invariant forall i :: 0 <= i < k ==> !Overlap(owned[i].path, path)
    {
      var overlap := PathsOverlap(owned[k].path, path);
      if overlap {
        return Some(owned[k]);
      }
    }
    return None;
  }

  /** Takes ownership of the paths of patch number i one by one, or finds the first conflict. */
  method ClaimPaths(patches: seq<NamedPatch>, i: nat, owned: seq<OwnedPath>, paths: seq<Path>)
      returns (claimed: seq<OwnedPath>, conflict: Option<(Path, string)>)
    requires i < |patches| && patches[i].patch.Obj?
    requires forall o :: o in owned ==> OwnedBefore(patches, i, o)
    requires forall k, x :: 0 <= k < i && IsLeaf(patches[k].patch, x) ==> exists o :: o in owned && o.path == x
    requires forall p :: p in paths <==> IsLeaf(patches[i].patch, p)
    requires forall m, n :: 0 <= m < n < |paths| ==> paths[m] != paths[n]
    ensures conflict.Some? ==>
      GenuineConflict(patches, conflict.value.0, conflict.value.1, patches[i].option)
    ensures conflict == None ==>
      && (forall k :: 0 <= k < i ==> Disjoint(patches[k].patch, patches[i].patch))
      && (forall o :: o in claimed ==> OwnedBefore(patches, i + 1, o))
      && (forall k, x :: 0 <= k <= i && IsLeaf(patches[k].patch, x) ==> exists o :: o in claimed && o.path == x)
  {
    hide IsLeaf, Overlap;
    claimed := owned;
    for m := 0 to |paths|
      invariant forall o :: o in claimed ==>
        o in owned || (o.option == patches[i].option && exists n :: 0 <= n < m && paths[n] == o.path)
      invariant forall o :: o in owned ==> o in claimed
      invariant forall n :: 0 <= n < m ==> OwnedPath(patches[i].option, paths[n]) in claimed
      invariant forall o, n :: o in owned && 0 <= n < m ==> !Overlap(o.path, paths[n])
    {
      var path := paths[m];
      assert path in paths;
      var found := FindOverlap(claimed, path);
      if found.Some? {
        var o := found.value;
        if o !in owned {
          var n :| 0 <= n < m && paths[n] == o.path;
          assert paths[n] in paths;
          LeavesArePrefixFree(patches[i].patch, o.path, path);
          assert false;
        }
        assert OwnedBefore(patches, i, o);
        return claimed, Some((path, o.option));
      }
      claimed := claimed + [OwnedPath(patches[i].option, path)];
    }
    conflict := None;
    forall k, x, y | 0 <= k < i && IsLeaf(patches[k].patch, x) && IsLeaf(patches[i].patch, y)
      ensures !Overlap(x, y)
    {
      var o :| o in owned && o.path == x;
      assert y in paths;
    }
    forall o | o in claimed ensures OwnedBefore(patches, i + 1, o) {
      if o in owned {
        assert OwnedBefore(patches, i, o);
      } else {
        assert o.path in paths;
      }
    }
    forall x | IsLeaf(patches[i].patch, x) ensures exists o :: o in claimed && o.path == x {
      assert x in paths;
      var n :| 0 <= n < |paths| && paths[n] == x;
      assert OwnedPath(patches[i].option, paths[n]) in claimed;
    }
  }

  /** The whole operation: an error exactly when two different patches of the list write overlapping paths,
      and otherwise the patches folded in order. */
  method ApplyOrderedJsonMergePatches(body: Value, patches: seq<NamedPatch>) returns (r: Outcome)
    requires body.Obj? && AllObjects(patches)
    ensures r.Merged? <==> ConflictFree(patches)
    ensures r.Merged? ==> r.value == MergeAll(body, patches)
    ensures r.Conflict? ==> GenuineConflict(patches, r.path, r.owner, r.option)
  {
    hide IsLeaf, Overlap, MergePatch, Disjoint;
    var ownedPaths: seq<OwnedPath> := [];
    var result := body;
    for i := 0 to |patches|
      invariant result.Obj? && result == MergeAll(body, patches[..i])
      invariant ConflictFree(patches[..i])
      invariant forall o :: o in ownedPaths ==> OwnedBefore(patches, i, o)
      invariant forall k, x :: 0 <= k < i && IsLeaf(patches[k].patch, x) ==> exists o :: o in ownedPaths && o.path == x
    {
      var patch := patches[i].patch;
      var paths := CollectWrittenPaths(patch, []);
      assert forall p: Path :: p[0..] == p;
      var claimed, conflict := ClaimPaths(patches, i, ownedPaths, paths);
      if conflict.Some? {
        ConflictIsReal(patches, conflict.value.0, conflict.value.1, patches[i].option);
        return Conflict(conflict.value.0, conflict.value.1, patches[i].option);
      }
      ownedPaths := claimed;
      result := MergeObject(result, patch);
      assert patches[..i + 1] == patches[..i] + [patches[i]];
      OneMoreConflictFree(patches, i);
      MergeAllAppend(body, patches[..i], [patches[i]]);
      ApplyOne(MergeAll(body, patches[..i]), patches[i]);
    }
    assert patches[..|patches|] == patches;
    r := Merged(result);
  }

  lemma OneMoreConflictFree(patches: seq<NamedPatch>, i: nat)
    requires i < |patches| && ConflictFree(patches[..i])
    requires forall k :: 0 <= k < i ==> Disjoint(patches[k].patch, patches[i].patch)
    ensures ConflictFree(patches[..i + 1])
  {
    hide Disjoint;
    var longer, shorter := patches[..i + 1], patches[..i];
    forall a, b | 0 <= a < b < |longer| ensures Disjoint(longer[a].patch, longer[b].patch) {
      if b < i {
        assert Disjoint(shorter[a].patch, shorter[b].patch);
      }
    }
  }

  lemma ConflictIsReal(patches: seq<NamedPatch>, path: Path, owner: string, option: string)
    requires GenuineConflict(patches, path, owner, option)
    ensures !ConflictFree(patches)
  {
    var i, j, x :| 0 <= i < j < |patches|
      && IsLeaf(patches[j].patch, path) && patches[j].option == option
      && IsLeaf(patches[i].patch, x) && patches[i].option == owner && Overlap(x, path);
    assert !Disjoint(patches[i].patch, patches[j].patch);
  }
}
