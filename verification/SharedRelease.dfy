/** The release file that several processes share under a lock
    (packages/provider-node/src/dave-builtin-provider-config-source.ts:49-121, 180-206).

    A file is one register; a section under the file lock is one step.  The content stands for the serialized
    release, and the signature for the pair of revision and content. */
module SharedRelease {
  import opened Options

  datatype Release = Release(revision: int, content: string)

  /** What reading a file yields. */
  datatype File = Missing | Broken | Holds(release: Release)

  datatype Applied = Updated | Same | Stale | Refused

  function Newest(candidates: seq<Release>, best: Release): Release {
    if candidates == [] then best
    else Newest(candidates[1..], if candidates[0].revision > best.revision then candidates[0] else best)
  }

  function Valid(f: File): seq<Release> {
    if f.Holds? then [f.release] else []
  }

  /** selectReleaseCandidate. */
  function Select(bundled: File, active: File): Option<Release> {
    if bundled.Holds? && active.Holds? && bundled.release.revision == active.release.revision
       && bundled.release.content != active.release.content then Some(bundled.release)
    else
      var valid := Valid(bundled) + Valid(active);
      if valid == [] then None else Some(Newest(valid[1..], valid[0]))
  }

  /** A section under the lock: what it returns and the file it leaves behind. */
  datatype Section<R> = Section(result: R, active: File)

  /** readAndMaterializeLocked; `writes` is false when the write fails or the source is disposed. */
  function ReadLocked(bundled: File, active: File, writes: bool): Section<Option<Release>> {
    match Select(bundled, active)
    case None => Section(None, active)
    case Some(selected) =>
      if active == Holds(selected) then Section(Some(selected), active)
      else if writes then Section(Some(selected), Holds(selected))
      else Section(None, active)
  }

  /** The locked section of applyRemoteRelease.  A release that contradicts the current one is refused.  The section
      may write twice: `materializes` says whether the write of its first half succeeds, `writes` that of the second. */
  function ApplyLocked(bundled: File, active: File, release: Release, materializes: bool, writes: bool): Section<Applied> {
    var read := ReadLocked(bundled, active, materializes);
    if read.result == None then Section(Refused, read.active)
    else
      var current := read.result.value;
      if release.revision < current.revision then Section(Stale, read.active)
      else if release.revision == current.revision then
        Section(if release.content == current.content then Same else Refused, read.active)
      else if writes then Section(Updated, Holds(release))
      else Section(Refused, read.active)
  }

  /** One locked section of some process with its own bundled file. */
  datatype Act =
    | Reads(bundled: File, writes: bool)
    | Applies(bundled: File, release: Release, materializes: bool, writes: bool)

  function Step(active: File, act: Act): File {
    match act
    case Reads(bundled, writes) => ReadLocked(bundled, active, writes).active
    case Applies(bundled, release, materializes, writes) => ApplyLocked(bundled, active, release, materializes, writes).active
  }

  function Run(active: File, acts: seq<Act>): File
    decreases |acts|
  {
    if acts == [] then active else Step(Run(active, acts[..|acts| - 1]), acts[|acts| - 1])
  }

  /** The newest valid candidate is chosen, and the bundled one on equal revisions. */
  lemma SelectIsNewest(bundled: File, active: File)
    ensures Select(bundled, active) == None <==> !bundled.Holds? && !active.Holds?
    ensures Select(bundled, active).Some? ==>
      var r := Select(bundled, active).value;
      && (Holds(r) == bundled || Holds(r) == active)
      && (bundled.Holds? ==> bundled.release.revision <= r.revision)
      && (active.Holds? ==> active.release.revision <= r.revision)
      && (bundled.Holds? && bundled.release.revision == r.revision ==> r == bundled.release)
  {
    if bundled.Holds? && active.Holds? {
      assert (Valid(bundled) + Valid(active))[1..] == [active.release];
      assert Newest([active.release], bundled.release)
        == Newest([active.release][1..], if active.release.revision > bundled.release.revision then active.release else bundled.release);
    } else if bundled.Holds? {
      assert Valid(bundled) + Valid(active) == [bundled.release];
    } else if active.Holds? {
      assert Valid(bundled) + Valid(active) == [active.release];
    }
  }

  /** The active file holds something at least as new as `revision`. */
  ghost predicate AtLeast(active: File, revision: int) {
    active.Holds? && active.release.revision >= revision
  }

  /** A locked read returns the newest of the bundled and the active release and leaves exactly that behind; one
      that fails leaves the file alone. */
  lemma LockedReadReturnsNewest(bundled: File, active: File, writes: bool)
    ensures var section := ReadLocked(bundled, active, writes);
      && (section.result.Some? ==>
            && section.active == Holds(section.result.value)
            && (bundled.Holds? ==> bundled.release.revision <= section.result.value.revision)
            && (active.Holds? ==> active.release.revision <= section.result.value.revision)
            && (section.active == bundled || section.active == active))
      && (section.result == None ==> section.active == active)
  {
    SelectIsNewest(bundled, active);
  }

  /** The release is newer than what the file holds, if it holds any. */
  ghost predicate Newer(release: Release, file: File) {
    file.Holds? ==> file.release.revision < release.revision
  }

  /** The active file already holds what a locked read selects, so that nothing has to be materialized. */
  ghost predicate IsCurrent(bundled: File, active: File) {
    active.Holds? && (bundled.Holds? ==> bundled == active || bundled.release.revision < active.release.revision)
  }

  /** One of the two releases can be read, and the file can be brought up to date if it has to be. */
  ghost predicate Readable(bundled: File, active: File, materializes: bool) {
    (bundled.Holds? || active.Holds?) && (materializes || IsCurrent(bundled, active))
  }

  /** Neither of the two is newer than the release. */
  ghost predicate NotOlder(release: Release, bundled: File, active: File) {
    && (bundled.Holds? ==> bundled.release.revision <= release.revision)
    && (active.Holds? ==> active.release.revision <= release.revision)
  }

  /** A remote release replaces the file exactly when the writes it needs succeed, one of the two releases can be read
      and it is newer than both; only then it counts as an update.  It is refused when nothing can be read, when a
      write fails, or when it contradicts what is there.  A first write that succeeds before a second that fails
      leaves the bundled release behind. */
  lemma UpdatedIffNewer(bundled: File, active: File, release: Release, materializes: bool, writes: bool)
    ensures var section := ApplyLocked(bundled, active, release, materializes, writes);
      && (section.result == Updated <==>
            && writes && (materializes || IsCurrent(bundled, active)) && (bundled.Holds? || active.Holds?)
            && Newer(release, bundled) && Newer(release, active))
      && (section.result == Stale <==> Readable(bundled, active, materializes) && !NotOlder(release, bundled, active))
      && (section.result == Same <==>
            && Readable(bundled, active, materializes) && NotOlder(release, bundled, active)
            && Holds(release) == if bundled.Holds? && bundled.release.revision == release.revision then bundled else active)
      && (section.result == Updated ==> section.active == Holds(release))
      && (section.result == Same ==> section.active == Holds(release))
      && (section.result == Stale ==> AtLeast(section.active, release.revision + 1))
      && (section.result == Refused ==>
            if !bundled.Holds? && !active.Holds? then section.active == active
            else if !materializes && !IsCurrent(bundled, active) then section.active == active
            else if Newer(release, bundled) && Newer(release, active) then
              !writes && section.active == if IsCurrent(bundled, active) then active else bundled
            else section.active.Holds? && section.active.release.revision == release.revision && section.active != Holds(release))
  {
    SelectIsNewest(bundled, active);
  }

  lemma StepNeverGoesBack(active: File, act: Act, revision: int)
    requires AtLeast(active, revision)
    ensures AtLeast(Step(active, act), revision)
  {
    SelectIsNewest(act.bundled, active);
  }

  /** Under any interleaving of processes, whatever releases they bundle, the revision in the file never decreases. */
  lemma {:induction false} RevisionNeverDecreases(active: File, acts: seq<Act>, revision: int)
    requires AtLeast(active, revision)
    ensures AtLeast(Run(active, acts), revision)
    decreases |acts|
  {
    hide Step;
    if acts != [] {
      RevisionNeverDecreases(active, acts[..|acts| - 1], revision);
      StepNeverGoesBack(Run(active, acts[..|acts| - 1]), acts[|acts| - 1], revision);
    }
  }

  /** An update is never lost: every later locked read of every process returns a release at least that new. */
  lemma {:induction false} UpdateIsNeverLost(bundled: File, active: File, release: Release, materializes: bool, acts: seq<Act>,
                                             reader: File, writes: bool)
    requires ApplyLocked(bundled, active, release, materializes, true).result == Updated
    ensures var later := Run(ApplyLocked(bundled, active, release, materializes, true).active, acts);
      var read := ReadLocked(reader, later, writes);
      && AtLeast(later, release.revision)
      && (read.result.Some? ==> read.result.value.revision >= release.revision)
  {
    var after := ApplyLocked(bundled, active, release, materializes, true).active;
    assert after == Holds(release);
    RevisionNeverDecreases(after, acts, release.revision);
    LockedReadReturnsNewest(reader, Run(after, acts), writes);
  }

  // ---------- the code ----------

  /** The part of the source object that works under the lock.  `active` is the shared file. */
  class ReleaseSource {
    const bundled: File
    var active: File

    constructor (bundled: File, active: File)
      ensures this.bundled == bundled && this.active == active
    {
      this.bundled, this.active := bundled, active;
    }

    /** Returns the newest of the two releases, the bundled one on a tie, and leaves exactly it in the file; fails when
        neither can be read, or when the file would have to change and cannot be written. */
    method ReadAndMaterializeLocked(writes: bool) returns (r: Option<Release>)
      modifies this
      ensures Section(r, active) == ReadLocked(bundled, old(active), writes)
      ensures r.Some? ==> active == Holds(r.value) && (active == bundled || active == old(active))
      ensures r.Some? && bundled.Holds? ==> active == bundled || bundled.release.revision < r.value.revision
      ensures r.Some? && old(active).Holds? ==> old(active).release.revision <= r.value.revision
      ensures r == None ==> active == old(active)
      ensures r.Some? <==> Readable(bundled, old(active), writes)
      ensures forall revision :: AtLeast(old(active), revision) ==> AtLeast(active, revision)
    {
      SelectIsNewest(bundled, active);
      r := Select(bundled, active);
      if r.Some? && active != Holds(r.value) {
        if !writes {
          return None;
        }
        active := Holds(r.value);
      }
    }

    method ApplyRemoteRelease(release: Release, materializes: bool, writes: bool) returns (r: Applied)
      modifies this
      ensures Section(r, active) == ApplyLocked(bundled, old(active), release, materializes, writes)
      ensures r == Updated <==>
        && writes && (materializes || IsCurrent(bundled, old(active))) && (bundled.Holds? || old(active).Holds?)
        && Newer(release, bundled) && Newer(release, old(active))
      ensures r == Stale <==> Readable(bundled, old(active), materializes) && !NotOlder(release, bundled, old(active))
      ensures r == Same <==>
        && Readable(bundled, old(active), materializes) && NotOlder(release, bundled, old(active))
        && Holds(release) == if bundled.Holds? && bundled.release.revision == release.revision then bundled else old(active)
      ensures r == Refused && !writes && Newer(release, bundled) && Newer(release, old(active)) ==>
        active == old(active) || (materializes && active == bundled)
      ensures r == Updated || r == Same ==> active == Holds(release)
      ensures r == Stale ==> AtLeast(active, release.revision + 1)
      ensures forall revision :: AtLeast(old(active), revision) ==> AtLeast(active, revision)
    {
      UpdatedIffNewer(bundled, active, release, materializes, writes);
      var current := ReadAndMaterializeLocked(materializes);
      if current.None? {
        return Refused;
      }
      if release.revision < current.value.revision {
        return Stale;
      }
      if release.revision == current.value.revision {
        return if release.content == current.value.content then Same else Refused;
      }
      if !writes {
        return Refused;
      }
      active := Holds(release);
      return Updated;
    }
  }
}
