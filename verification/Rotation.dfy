/**
 Crash-recoverable rotation of an append-only log (engine/eventlog_rotation.py).

 The directory is a map from names to contents. Every rename, unlink, manifest write and manifest
 read is one atomic step whose outcome the environment decides through `script`: it may work, raise,
 raise after a manifest write took effect, or kill the process. A contract that holds for every
 script therefore holds for every crash point and every failing system call.
*/
module Rotation {
  import opened Common

  type Content = string

  /** `path` itself is Live(0), `path.i` is Live(i); Staging(t, i) is `.path.rotate.t.i`. */
  datatype Name = Live(index: nat) | Staging(transaction: nat, index: nat)

  datatype Phase = InStaging | InPublishing | InCommitting
  datatype Entry = Entry(original: Name, temporary: Name, destination: Option<Name>)
  datatype Manifest = Manifest(phase: Phase, entries: seq<Entry>)

  datatype Fate = Works | Raises | RaisesAfter | Dies
  datatype Signal = Done | Raised | Died

  type Files = map<Name, Content>

  /** The contents of `path`, `path.1`, `path.2`, ... by index. */
  type Chain = map<nat, Content>

  /**
   What a rotation of `chain` and its recoveries have done so far: files from index `restored` up are
   still (or again) under their original name, those below `published` are under their destination,
   the others are staged. `gone`: the oldest backup was discarded. `lost`: a rollback has taken a
   restored file for a published one.
  */
  datatype Story = Story(chain: Chain, backups: nat, tx: nat, restored: nat, published: nat, gone: bool, lost: bool)

  /** A script in which no system call fails; the process may still die anywhere. */
  predicate Calm(script: seq<Fate>) {
    forall fate | fate in script :: fate == Works || fate == Dies
  }

  ghost predicate NoStaging(files: Files) {
    forall name | name in files :: name.Live?
  }

  ghost predicate IsChain(files: Files, chain: Chain) {
    && NoStaging(files)
    && forall j: nat :: Lookup(files, Live(j)) == Lookup(chain, j)
  }

  /** The chain with every index up to `backups` moved up by one; what was at `backups` is dropped. */
  function Shifted(chain: Chain, backups: nat): Chain {
    map j: nat | j in ShiftedIndices(chain, backups) :: if j > backups then chain[j] else chain[j - 1]
  }

  function ShiftedIndices(chain: Chain, backups: nat): (indices: set<nat>)
    ensures forall j: nat :: j in indices <==> if j > backups then j in chain else j > 0 && j - 1 in chain
  {
    var up := set i: nat | i in chain && i < backups :: i + 1;
    up + set i: nat | i in chain && i > backups
  }

  /** The text of the files below `count`, the oldest first. */
  function LogText(chain: Chain, count: nat): Content {
    if count == 0 then ""
    else (if count - 1 in chain then chain[count - 1] else "") + LogText(chain, count - 1)
  }

  /**
   The rotated log reads on as before without its oldest backup: every file but that one keeps its content under
   the next index, files beyond the backups stay, and there is no live file.
  */
  lemma {:induction false} ShiftedReadsOn(chain: Chain, backups: nat, count: nat)
    requires count <= backups
    ensures LogText(Shifted(chain, backups), count + 1) == LogText(chain, count)
    ensures forall j: nat | j < backups :: Lookup(Shifted(chain, backups), j + 1) == Lookup(chain, j)
    ensures forall j: nat | j > backups :: Lookup(Shifted(chain, backups), j) == Lookup(chain, j)
    ensures 0 !in Shifted(chain, backups)
  {
    if count > 0 {
      ShiftedReadsOn(chain, backups, count - 1);
      assert Lookup(Shifted(chain, backups), count) == Lookup(chain, count - 1);
    } else {
      assert LogText(Shifted(chain, backups), 1) == "" + LogText(Shifted(chain, backups), 0);
    }
  }

  // ---- manifests ----

  /** The existing indices below `count`, ascending. */
  function Indices(chain: Chain, count: nat): seq<nat> {
    if count == 0 then []
    else Indices(chain, count - 1) + if count - 1 in chain then [count - 1] else []
  }

  function EntryFor(backups: nat, tx: nat, index: nat): Entry {
    Entry(Live(index), Staging(tx, index), if index < backups then Some(Live(index + 1)) else None)
  }

  function EntriesOf(chain: Chain, backups: nat, tx: nat): (entries: seq<Entry>)
    ensures |entries| == |Indices(chain, backups + 1)|
  {
    var indices := Indices(chain, backups + 1);
    seq(|indices|, k requires 0 <= k < |indices| => EntryFor(backups, tx, indices[k]))
  }

  ghost predicate Gap(chain: Chain, low: nat, high: nat) {
    forall i: nat | low <= i < high :: i !in chain
  }

  lemma {:induction false} LastIndex(chain: Chain, bound: nat)
    requires |Indices(chain, bound)| > 0
    ensures var ix := Indices(chain, bound);
            var j := ix[|ix| - 1];
            j < bound && j in chain && Gap(chain, j + 1, bound) && |Indices(chain, j)| == |ix| - 1
  {
    if bound - 1 !in chain {
      LastIndex(chain, bound - 1);
    }
  }

  lemma {:induction false} NoIndex(chain: Chain, bound: nat)
    requires |Indices(chain, bound)| == 0
    ensures Gap(chain, 0, bound)
  {
    if bound > 0 {
      NoIndex(chain, bound - 1);
    }
  }

  lemma {:induction false} IndicesPrefix(chain: Chain, low: nat, high: nat)
    requires low <= high
    ensures Indices(chain, low) <= Indices(chain, high)
  {
    if low < high {
      IndicesPrefix(chain, low, high - 1);
    }
  }

  lemma {:induction false} NextIndex(chain: Chain, bound: nat, top: nat)
    requires bound <= top
    ensures var k, ix := |Indices(chain, bound)|, Indices(chain, top);
            && k <= |ix| && (bound == 0 ==> k == 0)
            && (k == |ix| ==> Gap(chain, bound, top))
            && (k < |ix| ==> bound <= ix[k] < top && ix[k] in chain && Gap(chain, bound, ix[k]) && |Indices(chain, ix[k] + 1)| == k + 1)
    decreases top - bound
  {
    IndicesPrefix(chain, bound, top);
    if bound < top {
      IndicesPrefix(chain, bound + 1, top);
      NextIndex(chain, bound + 1, top);
    }
  }

  // ---- the picture of an open rotation ----

  function Expected(story: Story, name: Name): Option<Content> {
    match name
    case Live(j) =>
      if j > story.backups || j >= story.restored then Lookup(story.chain, j)
      else if 0 < j <= story.published then Lookup(story.chain, j - 1)
      else None
    case Staging(t, j) =>
      if t == story.tx && story.published <= j <= story.backups && j < story.restored && !(story.gone && j == story.backups)
      then Lookup(story.chain, j) else None
  }

  ghost predicate Looks(files: Files, story: Story) {
    forall name :: Lookup(files, name) == Expected(story, name)
  }

  /** Index `d` has neither its original nor its staging file, and nothing can bring them back. */
  ghost predicate Lost(files: Files, story: Story, d: nat) {
    && d <= story.backups && d in story.chain
    && Live(d) !in files && Staging(story.tx, d) !in files
    && (d < story.backups ==> Live(d + 1) !in files && d + 1 !in story.chain)
  }

  predicate Neighbours(chain: Chain, j: nat) {
    j in chain && j + 1 in chain
  }

  /** No two neighbouring files of the chain lie from index `restored` up. */
  ghost predicate NoNeighbours(chain: Chain, backups: nat, restored: nat) {
    forall j: nat | restored <= j < backups :: !Neighbours(chain, j)
  }

  /** The files are in a state that a rotation, its rollbacks and their crashes can leave under `phase`. */
  ghost predicate Pic(files: Files, phase: Phase, story: Story) {
    && 1 <= story.backups && 0 in story.chain
    && story.restored <= story.backups + 1 && story.published <= story.backups
    && (story.published > 0 ==> story.restored == story.backups + 1)
    && (story.gone ==> phase.InCommitting? && story.restored == story.backups + 1)
    && (phase.InStaging? ==> story.published == 0)
    && (if story.lost then phase.InPublishing? && story.published == 0 && exists d :: Lost(files, story, d) else Looks(files, story))
  }

  function Renamed(files: Files, source: Name, destination: Name): Files
    requires source in files
  {
    (files - {source})[destination := files[source]]
  }

  // ---- what one rename or unlink does to the picture ----

  lemma StageStep(files: Files, story: Story, j: nat)
    requires Pic(files, InStaging, story) && story.restored <= j <= story.backups
    requires j in story.chain && Gap(story.chain, story.restored, j)
    ensures Live(j) in files && Staging(story.tx, j) !in files
    ensures Pic(Renamed(files, Live(j), Staging(story.tx, j)), InStaging, story.(restored := j + 1))
  {
    assert Lookup(files, Live(j)) == Expected(story, Live(j));
    assert Lookup(files, Staging(story.tx, j)) == Expected(story, Staging(story.tx, j));
    var after, story' := Renamed(files, Live(j), Staging(story.tx, j)), story.(restored := j + 1);
    forall name ensures Lookup(after, name) == Expected(story', name) {
      assert Lookup(files, name) == Expected(story, name);
    }
  }

  lemma PublishStep(files: Files, story: Story, j: nat)
    requires Pic(files, InPublishing, story) && !story.lost && story.restored == story.backups + 1
    requires story.published <= j < story.backups && j in story.chain && Gap(story.chain, story.published, j)
    ensures Staging(story.tx, j) in files && Live(j + 1) !in files
    ensures Pic(Renamed(files, Staging(story.tx, j), Live(j + 1)), InPublishing, story.(published := j + 1))
  {
    assert Lookup(files, Staging(story.tx, j)) == Expected(story, Staging(story.tx, j));
    assert Lookup(files, Live(j + 1)) == Expected(story, Live(j + 1));
    var after, story' := Renamed(files, Staging(story.tx, j), Live(j + 1)), story.(published := j + 1);
    forall name ensures Lookup(after, name) == Expected(story', name) {
      assert Lookup(files, name) == Expected(story, name);
    }
  }

  /** `restored` may move over indices the chain does not use. */
  lemma MoveRestored(files: Files, phase: Phase, story: Story, restored': nat)
    requires Pic(files, phase, story) && !story.lost && story.published == 0 && !story.gone
    requires story.restored <= restored' <= story.backups + 1 && Gap(story.chain, story.restored, restored')
    ensures Pic(files, phase, story.(restored := restored'))
  {
    forall name ensures Lookup(files, name) == Expected(story.(restored := restored'), name) {
      assert Lookup(files, name) == Expected(story, name);
    }
  }

  /** So may `published`, in both directions. */
  lemma MovePublished(files: Files, phase: Phase, story: Story, published': nat)
    requires Pic(files, phase, story) && !story.lost && story.restored == story.backups + 1
    requires published' <= story.backups && (phase.InStaging? ==> published' == 0)
    requires Gap(story.chain, story.published, published') && Gap(story.chain, published', story.published)
    ensures Pic(files, phase, story.(published := published'))
  {
    forall name ensures Lookup(files, name) == Expected(story.(published := published'), name) {
      assert Lookup(files, name) == Expected(story, name);
    }
  }

  /** A second pass over two restored neighbours takes the upper one for the published copy of the lower one. */
  lemma SecondPassLoses(files: Files, story: Story, j: nat)
    requires Pic(files, InPublishing, story) && !story.lost && story.restored <= j < story.backups
    requires Neighbours(story.chain, j) && (j + 1 < story.backups ==> !Neighbours(story.chain, j + 1))
    ensures Live(j + 1) in files && Staging(story.tx, j) !in files
    ensures Pic(Renamed(files, Live(j + 1), Staging(story.tx, j)), InPublishing, story.(lost := true))
  {
    assert Lookup(files, Live(j + 1)) == Expected(story, Live(j + 1));
    assert Lookup(files, Live(j + 2)) == Expected(story, Live(j + 2));
    assert Lookup(files, Staging(story.tx, j)) == Expected(story, Staging(story.tx, j));
    assert Lookup(files, Staging(story.tx, j + 1)) == Expected(story, Staging(story.tx, j + 1));
    assert Lost(Renamed(files, Live(j + 1), Staging(story.tx, j)), story.(lost := true), j + 1);
  }

  predicate WantsUnpublish(files: Files, entry: Entry) {
    entry.destination.Some? && entry.temporary !in files && entry.destination.value in files
  }

  function Unpublished(story: Story, j: nat): Story {
    if story.lost then story
    else if j < story.published then story.(published := j)
    else story.(lost := true)
  }

  function Max(a: nat, b: nat): nat { if a < b then b else a }

  lemma UnpublishStep(files: Files, phase: Phase, story: Story, bound: nat, j: nat)
    requires Pic(files, phase, story) && !story.gone && story.published <= bound <= story.backups + 1
    requires !phase.InPublishing? ==> story.restored == story.backups + 1
    requires j < bound && j in story.chain && Gap(story.chain, j + 1, bound)
    requires !story.lost ==> NoNeighbours(story.chain, story.backups, Max(story.restored, bound))
    ensures var entry := EntryFor(story.backups, story.tx, j);
            if WantsUnpublish(files, entry)
            then && Pic(Renamed(files, entry.destination.value, entry.temporary), phase, Unpublished(story, j))
                 && Unpublished(story, j).published <= j
                 && (!story.lost ==> (Unpublished(story, j).lost <==> !NoNeighbours(story.chain, story.backups, Max(story.restored, j))))
            else && story.published <= j
                 && (!story.lost ==> NoNeighbours(story.chain, story.backups, Max(story.restored, j)))
    ensures NoNeighbours(story.chain, story.backups, Max(story.restored, j)) ==>
              NoNeighbours(story.chain, story.backups, Max(story.restored, bound))
  {
    if !story.lost {
      assert Lookup(files, Staging(story.tx, j)) == Expected(story, Staging(story.tx, j));
      assert Lookup(files, Live(j + 1)) == Expected(story, Live(j + 1));
      if j < story.published {
        UnpublishOne(files, phase, story, j);
      } else if j >= story.restored {
        assert j < story.backups && Neighbours(story.chain, j) ==> Live(j + 1) in files;
        if j < story.backups && Live(j + 1) in files {
          assert Neighbours(story.chain, j);
          SecondPassLoses(files, story, j);
        } else {
          forall i: nat | j <= i < story.backups ensures !Neighbours(story.chain, i) {
          }
        }
      }
    } else {
      var d :| Lost(files, story, d);
      var entry := EntryFor(story.backups, story.tx, j);
      assert WantsUnpublish(files, entry) ==> Lost(Renamed(files, entry.destination.value, entry.temporary), story, d);
    }
  }

  lemma UnpublishOne(files: Files, phase: Phase, story: Story, j: nat)
    requires Pic(files, phase, story) && !story.gone && !story.lost
    requires j < story.published && j in story.chain && Gap(story.chain, j + 1, story.published)
    ensures Staging(story.tx, j) !in files && Live(j + 1) in files
    ensures Pic(Renamed(files, Live(j + 1), Staging(story.tx, j)), phase, story.(published := j))
  {
    assert Lookup(files, Staging(story.tx, j)) == Expected(story, Staging(story.tx, j));
    assert Lookup(files, Live(j + 1)) == Expected(story, Live(j + 1));
    var after, story' := Renamed(files, Live(j + 1), Staging(story.tx, j)), story.(published := j);
    forall name ensures Lookup(after, name) == Expected(story', name) {
      assert Lookup(files, name) == Expected(story, name);
    }
  }

  /** One turn of the restoring loop; a lost file stops it. */
  lemma RestoreStep(files: Files, phase: Phase, story: Story, bound: nat, j: nat)
    requires Pic(files, phase, story) && !story.gone && story.published == 0
    requires j < bound && j in story.chain && Gap(story.chain, j + 1, bound)
    requires !story.lost ==> story.restored <= bound
    ensures !story.lost && Staging(story.tx, j) in files ==>
              && Live(j) !in files && j < story.restored
              && Pic(Renamed(files, Staging(story.tx, j), Live(j)), phase, story.(restored := j))
    ensures !story.lost && Staging(story.tx, j) !in files ==> Live(j) in files && story.restored <= j
  {
    if !story.lost {
      assert Lookup(files, Staging(story.tx, j)) == Expected(story, Staging(story.tx, j));
      assert Lookup(files, Live(j)) == Expected(story, Live(j));
      if Staging(story.tx, j) in files {
        var after, story' := Renamed(files, Staging(story.tx, j), Live(j)), story.(restored := j);
        forall name ensures Lookup(after, name) == Expected(story', name) {
          assert Lookup(files, name) == Expected(story, name);
        }
      }
    }
  }

  lemma LostStays(files: Files, phase: Phase, story: Story, d: nat, j: nat)
    requires Pic(files, phase, story) && Lost(files, story, d) && j in story.chain
    requires Staging(story.tx, j) in files
    ensures Lost(Renamed(files, Staging(story.tx, j), Live(j)), story, d)
    ensures story.lost ==> Pic(Renamed(files, Staging(story.tx, j), Live(j)), phase, story)
  {
    assert Lost(Renamed(files, Staging(story.tx, j), Live(j)), story, d);
  }

  lemma DiscardStep(files: Files, story: Story, oldest: Name)
    requires Pic(files, InCommitting, story) && oldest == Staging(story.tx, story.backups) && oldest in files
    ensures !story.gone && story.backups in story.chain && files[oldest] == story.chain[story.backups]
    ensures Pic(files - {oldest}, InCommitting, story.(gone := true))
  {
    assert Lookup(files, oldest) == Expected(story, oldest);
    var after, story' := files - {oldest}, story.(gone := true);
    forall name ensures Lookup(after, name) == Expected(story', name) {
      assert Lookup(files, name) == Expected(story, name);
    }
  }

  /** Restoring everything gives back the old chain. */
  lemma AllRestored(files: Files, phase: Phase, story: Story)
    requires Pic(files, phase, story) && !story.lost && story.published == 0 && !story.gone
    requires Gap(story.chain, 0, story.restored)
    ensures IsChain(files, story.chain)
  {
    forall name | name in files ensures name.Live? {
      assert Lookup(files, name) == Expected(story, name);
    }
    forall j: nat ensures Lookup(files, Live(j)) == Lookup(story.chain, j) {
      assert Lookup(files, Live(j)) == Expected(story, Live(j));
    }
  }

  /** Publishing everything and discarding the oldest backup gives the shifted chain. */
  lemma AllPublished(files: Files, story: Story)
    requires Pic(files, InCommitting, story) && story.restored == story.backups + 1 && story.published == story.backups
    requires Staging(story.tx, story.backups) !in files
    ensures IsChain(files, Shifted(story.chain, story.backups))
  {
    assert Lookup(files, Staging(story.tx, story.backups)) == Expected(story, Staging(story.tx, story.backups));
    forall name | name in files ensures name.Live? {
      assert Lookup(files, name) == Expected(story, name);
    }
    forall j: nat ensures Lookup(files, Live(j)) == Lookup(Shifted(story.chain, story.backups), j) {
      assert Lookup(files, Live(j)) == Expected(story, Live(j));
    }
  }

  /**
   A committing manifest that a rollback had begun to undo: unless staging files are left behind, the
   chain is the old or the shifted one.
  */
  lemma FinishedIsExact(files: Files, story: Story)
    requires Pic(files, InCommitting, story) && NoStaging(files)
    ensures IsChain(files, story.chain) || IsChain(files, Shifted(story.chain, story.backups))
  {
    if story.restored == story.backups + 1 && story.published > 0 {
      forall i: nat | story.published <= i < story.backups ensures i !in story.chain {
        assert Lookup(files, Staging(story.tx, i)) == Expected(story, Staging(story.tx, i));
      }
      MovePublished(files, InCommitting, story, story.backups);
      AllPublished(files, story.(published := story.backups));
    } else {
      assert Lookup(files, Staging(story.tx, 0)) == Expected(story, Staging(story.tx, 0));
      AllRestored(files, InCommitting, story);
    }
  }

  /** Nothing is staged but the backup that a committed rotation discards. */
  ghost predicate OnlyOldestStaged(files: Files, story: Story) {
    forall name | name in files && name.Staging? :: name == Staging(story.tx, story.backups)
  }

  lemma OnlyOldestGoes(before: Files, story: Story, files: Files, story': Story)
    requires Pic(before, InCommitting, story) && Pic(files, InCommitting, story') && story' == story.(gone := story'.gone)
    requires Staging(story.tx, story.backups) !in files
    ensures NoStaging(files) <==> OnlyOldestStaged(before, story')
  {
    forall name | name != Staging(story.tx, story.backups) ensures name in files <==> name in before {
      assert Lookup(before, name) == Expected(story, name) && Lookup(files, name) == Expected(story', name);
    }
  }

  /** All contents of the directory, with multiplicity. */
  ghost function Bag(files: Files): multiset<Content> {
    if files == map[] then multiset{}
    else multiset{files[AnyName(files)]} + Bag(files - {AnyName(files)})
  }

  ghost function AnyName(files: Files): Name
    requires files != map[]
    ensures AnyName(files) in files
  {
    assert files.Keys != {};
    var name :| name in files.Keys;
    name
  }

  lemma {:induction false} BagRemove(files: Files, name: Name)
    requires name in files
    ensures Bag(files) == multiset{files[name]} + Bag(files - {name})
    decreases |files|
  {
    var first := AnyName(files);
    if first != name {
      var both := files - {first} - {name};
      assert both == files - {name} - {first};
      BagRemove(files - {first}, name);
      BagRemove(files - {name}, first);
      assert Bag(files - {first}) == multiset{files[name]} + Bag(both);
      assert Bag(files - {name}) == multiset{files[first]} + Bag(both);
    }
  }

  /** A rename destroys no content and overwrites none. */
  lemma BagRename(files: Files, source: Name, destination: Name)
    requires source in files && destination !in files
    ensures Bag(Renamed(files, source, destination)) == Bag(files)
  {
    var rest, after := files - {source}, Renamed(files, source, destination);
    BagRemove(files, source);
    assert after - {destination} == rest;
    BagRemove(after, destination);
  }

  lemma NoneAbove(story: Story)
    ensures NoNeighbours(story.chain, story.backups, Max(story.restored, story.backups + 1))
  {
  }

  lemma PicBounds(files: Files, phase: Phase, story: Story)
    requires Pic(files, phase, story)
    ensures 1 <= story.backups && 0 in story.chain && story.restored <= story.backups + 1 && story.published <= story.backups
    ensures story.published > 0 ==> story.restored == story.backups + 1 && !story.lost
    ensures story.lost ==> phase.InPublishing?
    ensures story.gone ==> phase.InCommitting? && story.restored == story.backups + 1
    ensures phase.InStaging? ==> story.published == 0
  {
  }

  /** Position `k` of the manifest describes the index that `Indices` lists there. */
  lemma EntryAt(story: Story, k: nat, bound: nat)
    requires bound <= story.backups + 1 && k < |Indices(story.chain, bound)|
    ensures k < |EntriesOf(story.chain, story.backups, story.tx)| && EntriesOf(story.chain, story.backups, story.tx)[k] == EntryFor(story.backups, story.tx, Indices(story.chain, bound)[k])
  {
    IndicesPrefix(story.chain, bound, story.backups + 1);
  }

  /** The contents destroyed between two moments of the same rotation. */
  ghost function Discarded(before: Story, after: Story): multiset<Content> {
    if !before.gone && after.gone then OldestOf(after.chain, after.backups) else multiset{}
  }

  ghost function LostIndex(files: Files, phase: Phase, story: Story): (d: nat)
    requires Pic(files, phase, story)
    ensures story.lost ==> Lost(files, story, d) && d <= story.backups
  {
    if story.lost then var d: nat :| Lost(files, story, d); d else 0
  }

  lemma LostFacts(files: Files, story: Story, d: nat, bound: nat, j: nat)
    requires Lost(files, story, d) && d < bound
    requires Gap(story.chain, j + 1, bound) || Gap(story.chain, 0, bound)
    ensures Gap(story.chain, j + 1, bound) && d <= j
    ensures d == j ==> Live(j) !in files && Staging(story.tx, j) !in files
  {
  }

  lemma {:induction false} IndexBelow(chain: Chain, bound: nat, k: nat)
    requires k < |Indices(chain, bound)|
    ensures Indices(chain, bound)[k] < bound && Indices(chain, bound)[k] in chain
  {
    if k < |Indices(chain, bound - 1)| {
      IndexBelow(chain, bound - 1, k);
    }
  }

  /** If the oldest backup exists, the manifest lists it; if every listed one is gone, it is not staged. */
  lemma OldestListed(files: Files, story: Story)
    requires Pic(files, InCommitting, story)
    requires forall i | 0 <= i < |EntriesOf(story.chain, story.backups, story.tx)| ::
               EntriesOf(story.chain, story.backups, story.tx)[i].destination.None? ==> EntriesOf(story.chain, story.backups, story.tx)[i].temporary !in files
    ensures Staging(story.tx, story.backups) !in files
  {
    var oldest := Staging(story.tx, story.backups);
    assert Lookup(files, oldest) == Expected(story, oldest);
    if story.backups in story.chain {
      var k := |Indices(story.chain, story.backups)|;
      assert Indices(story.chain, story.backups + 1)[k] == story.backups;
      EntryAt(story, k, story.backups + 1);
    }
  }

  lemma ForwardNeighbours(story: Story)
    ensures story.restored == story.backups + 1 ==> NoNeighbours(story.chain, story.backups, story.restored)
  {
  }

  lemma ShiftedDiffers(files: Files, story: Story)
    requires 0 in story.chain && IsChain(files, Shifted(story.chain, story.backups))
    ensures !IsChain(files, story.chain)
  {
    assert Lookup(files, Live(0)) == Lookup(Shifted(story.chain, story.backups), 0);
  }

  lemma RecoveredIsExact(files: Files, phase: Phase, story: Story)
    requires if phase.InCommitting? then Pic(files, InCommitting, story) && Staging(story.tx, story.backups) !in files
             else IsChain(files, story.chain)
    ensures !phase.InCommitting? ==> NoStaging(files)
    ensures NoStaging(files) ==>
              IsChain(files, story.chain) || (phase.InCommitting? && IsChain(files, Shifted(story.chain, story.backups)))
    ensures phase.InCommitting? && story.restored == story.backups + 1 && story.published == story.backups ==>
              NoStaging(files) && IsChain(files, Shifted(story.chain, story.backups))
    ensures phase.InCommitting? && IsChain(files, story.chain) ==> !story.gone
    ensures phase.InCommitting? && NoStaging(files) && !IsChain(files, story.chain) && story.backups in story.chain ==> story.gone
  {
    if phase.InCommitting? {
      assert Lookup(files, Live(0)) == Expected(story, Live(0));
      assert Lookup(files, Staging(story.tx, story.backups)) == Expected(story, Staging(story.tx, story.backups));
    }
    if phase.InCommitting? {
      if story.restored == story.backups + 1 && story.published == story.backups {
        AllPublished(files, story);
      }
      if NoStaging(files) {
        FinishedIsExact(files, story);
        if story.restored <= story.backups {
          assert Lookup(files, Staging(story.tx, 0)) == Expected(story, Staging(story.tx, 0));
          AllRestored(files, InCommitting, story);
        }
      }
    }
  }

  function ChainOf(files: Files): Chain {
    map j: nat | j in (set name | name in files && name.Live? :: name.index) :: files[Live(j)]
  }

  lemma ChainOfIsChain(files: Files)
    requires NoStaging(files)
    ensures IsChain(files, ChainOf(files))
  {
    forall j: nat ensures Lookup(files, Live(j)) == Lookup(ChainOf(files), j) {
      assert Live(j) in files ==> Live(j).Live? && Live(j).index == j;
    }
  }

  lemma StartOfRotation(files: Files, backups: nat, tx: nat)
    requires NoStaging(files) && 0 < backups && Live(0) in files
    ensures IsChain(files, ChainOf(files))
    ensures Pic(files, InStaging, Story(ChainOf(files), backups, tx, 0, 0, false, false))
  {
    ChainOfIsChain(files);
    var story := Story(ChainOf(files), backups, tx, 0, 0, false, false);
    assert Lookup(files, Live(0)) == Lookup(ChainOf(files), 0);
    forall name ensures Lookup(files, name) == Expected(story, name) {
      assert name.Live? ==> Lookup(files, Live(name.index)) == Lookup(ChainOf(files), name.index);
    }
  }

  /** Writing the next phase into the manifest changes no file. */
  lemma PhaseUp(files: Files, story: Story)
    requires !story.lost && !story.gone && story.restored == story.backups + 1
    ensures Pic(files, InStaging, story) ==> Pic(files, InPublishing, story)
    ensures Pic(files, InPublishing, story) ==> Pic(files, InCommitting, story)
  {
  }

  // ---- runs over many lock acquisitions ----

  datatype Session = Session(script: seq<Fate>, maxBytes: int, backups: int, transaction: nat)
  datatype RotationRecord = RotationRecord(before: Chain, backups: nat)

  /** The live file has reached the threshold, and there is a backup to move it to. */
  predicate Due(chain: Chain, session: Session) {
    session.maxBytes > 0 && session.backups > 0 && 0 in chain && |chain[0]| >= session.maxBytes
  }

  /** Each of the finished rotations is that of a session of its own, in order, which found it due. */
  ghost predicate Attributed(sessions: seq<Session>, finished: seq<RotationRecord>, origin: seq<nat>, n: nat) {
    && |origin| == |finished| && n <= |sessions|
    && (forall k | 0 <= k < |origin| :: BelongsTo(sessions, finished[k].before, finished[k].backups, origin[k], n))
    && forall j, k | 0 <= j < k < |origin| :: origin[j] < origin[k]
  }

  predicate BelongsTo(sessions: seq<Session>, chain: Chain, backups: nat, s: nat, n: nat) {
    s < n <= |sessions| && backups == sessions[s].backups && Due(chain, sessions[s])
  }

  /** The same with a rotation that is still open: the session that opened it comes after those of the finished ones. */
  ghost predicate Ledger(sessions: seq<Session>, finished: seq<RotationRecord>, origin: seq<nat>, opener: nat, open: Option<RotationRecord>, n: nat) {
    && Attributed(sessions, finished, origin, n)
    && (open.Some? ==> BelongsTo(sessions, open.value.before, open.value.backups, opener, n) && forall k | 0 <= k < |origin| :: origin[k] < opener)
  }

  /** A longer row of sessions, or one record more of a later session. */
  lemma AttributedMore(sessions: seq<Session>, finished: seq<RotationRecord>, origin: seq<nat>, n: nat, r: RotationRecord, s: nat)
    requires Attributed(sessions, finished, origin, n)
    ensures n < |sessions| ==> Attributed(sessions, finished, origin, n + 1)
    ensures BelongsTo(sessions, r.before, r.backups, s, n) && (forall k | 0 <= k < |origin| :: origin[k] < s) ==>
              Attributed(sessions, finished + [r], origin + [s], n)
  {
    hide Due;
  }

  /** One more session: it may complete the rotation left open, and open or finish one of its own. */
  lemma LedgerStep(sessions: seq<Session>, n: nat, before: seq<RotationRecord>, origin: seq<nat>, opener: nat,
      open: Option<RotationRecord>, settled: seq<RotationRecord>, own: Option<RotationRecord>, next: Option<RotationRecord>)
    returns (origin': seq<nat>, opener': nat)
    requires n < |sessions| && Ledger(sessions, before, origin, opener, open, n)
    requires settled == before || (open.Some? && settled == before + [open.value])
    requires own.Some? ==> BelongsTo(sessions, own.value.before, own.value.backups, n, n + 1) && next.None?
    requires next.Some? ==> (settled == before && next == open) || BelongsTo(sessions, next.value.before, next.value.backups, n, n + 1)
    ensures Ledger(sessions, match own case Some(r) => settled + [r] case None => settled, origin', opener', next, n + 1)
  {
    hide Due;
    origin' := origin;
    if settled != before {
      AttributedMore(sessions, before, origin, n, open.value, opener);
      origin' := origin + [opener];
    }
    var last := if own.Some? then own.value else RotationRecord(map[], 0);
    AttributedMore(sessions, settled, origin', n, last, n);
    assert forall k | 0 <= k < |origin'| :: origin'[k] < n;
    AttributedMore(sessions, settled, origin', n + 1, last, n);
    hide Attributed;
    if own.Some? {
      origin' := origin' + [n];
    }
    opener' := if next.Some? && BelongsTo(sessions, next.value.before, next.value.backups, n, n + 1) then n else opener;
  }

  lemma LedgerAttributes(sessions: seq<Session>, finished: seq<RotationRecord>, origin: seq<nat>, opener: nat, open: Option<RotationRecord>, n: nat)
    ensures Ledger(sessions, finished, origin, opener, open, n) ==> Attributed(sessions, finished, origin, n)
  {
  }

  ghost function OldestOf(chain: Chain, backups: nat): multiset<Content> {
    if backups in chain then multiset{chain[backups]} else multiset{}
  }

  lemma NoOldest(chain: Chain, backups: nat)
    ensures backups !in chain ==> OldestOf(chain, backups) == multiset{}
  {
  }

  function ChainAfter(first: Chain, finished: seq<RotationRecord>): Chain {
    if finished == [] then first
    else Shifted(finished[|finished| - 1].before, finished[|finished| - 1].backups)
  }

  /** Every rotation started from the chain its predecessors left. */
  ghost predicate Linked(first: Chain, finished: seq<RotationRecord>) {
    forall i | 0 <= i < |finished| :: finished[i].before == ChainAfter(first, finished[..i])
  }

  /** What the finished rotations discarded. */
  ghost function Total(finished: seq<RotationRecord>): multiset<Content> {
    if finished == [] then multiset{}
    else
      var last := finished[|finished| - 1];
      Total(finished[..|finished| - 1]) + OldestOf(last.before, last.backups)
  }

  lemma LinkOne(first: Chain, finished: seq<RotationRecord>, before: Chain, backups: nat)
    requires Linked(first, finished) && before == ChainAfter(first, finished)
    ensures var finished' := finished + [RotationRecord(before, backups)];
            && Linked(first, finished') && finished <= finished'
            && ChainAfter(first, finished') == Shifted(before, backups)
            && Total(finished') == Total(finished) + OldestOf(before, backups)
  {
    var finished' := finished + [RotationRecord(before, backups)];
    assert finished'[..|finished|] == finished;
    forall i | 0 <= i < |finished'| ensures finished'[i].before == ChainAfter(first, finished'[..i]) {
      assert i < |finished| ==> finished'[..i] == finished[..i];
    }
  }

  lemma NothingFinished(first: Chain)
    ensures Linked(first, []) && ChainAfter(first, []) == first && Total([]) == multiset{}
  {
  }

  lemma LiveFile(files: Files, chain: Chain)
    requires IsChain(files, chain)
    ensures Live(0) in files <==> 0 in chain
    ensures 0 in chain ==> files[Live(0)] == chain[0]
  {
    assert Lookup(files, Live(0)) == Lookup(chain, 0);
  }

  lemma SameChain(files: Files, chain: Chain)
    requires IsChain(files, chain)
    ensures ChainOf(files) == chain && NoStaging(files)
  {
    ChainOfIsChain(files);
    forall j: nat ensures Lookup(ChainOf(files), j) == Lookup(chain, j) {
      assert Lookup(files, Live(j)) == Lookup(chain, j);
    }
    forall j: nat ensures j in ChainOf(files) <==> j in chain {
      assert Lookup(ChainOf(files), j) == Lookup(chain, j);
    }
    forall j: nat | j in chain ensures ChainOf(files)[j] == chain[j] {
      assert Lookup(ChainOf(files), j) == Lookup(chain, j);
    }
  }

  class Directory {
    var files: Files
    var manifests: map<nat, Manifest>
    /** What the environment does to the coming system calls; calls beyond its end work. */
    var script: seq<Fate>
    /** The open rotation, if there is one. */
    ghost var story: Story

    constructor (files: Files, manifests: map<nat, Manifest>, ghost story: Story)
      ensures this.files == files && this.manifests == manifests && this.story == story && script == []
    {
      this.files, this.manifests, this.story, script := files, manifests, story, [];
    }

    /** Exactly one manifest is on disk and the files are in a state its rotation can have left. */
    ghost predicate Open()
      reads this
    {
      && manifests.Keys == {story.tx}
      && manifests[story.tx].entries == EntriesOf(story.chain, story.backups, story.tx)
      && Pic(files, manifests[story.tx].phase, story)
    }

    /** The states a forward rotation passes through, before any rollback touched them. */
    ghost predicate Forward()
      reads this
    {
      && Open() && !story.lost
      && (manifests[story.tx].phase.InPublishing? ==> story.restored == story.backups + 1)
      && (manifests[story.tx].phase.InCommitting? ==> story.restored == story.backups + 1 && story.published == story.backups)
    }

    // ---- atomic steps ----

    method NextFate() returns (fate: Fate)
      modifies this`script
      ensures old(script) == [] ==> fate == Works && script == []
      ensures old(script) != [] ==> fate == old(script)[0] && script == old(script)[1..]
      ensures Calm(old(script)) ==> Calm(script) && (fate == Works || fate == Dies)
    {
      if script == [] {
        fate := Works;
      } else {
        assert script[0] in script && forall later | later in script[1..] :: later in script;
        fate, script := script[0], script[1..];
      }
    }

    /** `_rename_no_replace` */
    method RenameNoReplace(source: Name, destination: Name) returns (signal: Signal)
      modifies this`files, this`script
      ensures signal == Done ==> source in old(files) && destination !in old(files) && files == Renamed(old(files), source, destination)
      ensures signal != Done ==> files == old(files)
      ensures Bag(files) == Bag(old(files))
      ensures old(script) == [] ==>
                script == [] && signal != Died && (signal == Done <==> source in old(files) && destination !in old(files))
      ensures Calm(old(script)) ==>
                Calm(script) && (signal == Raised <==> signal != Died && !(source in old(files) && destination !in old(files)))
    {
      var fate := NextFate();
      if fate == Dies {
        return Died;
      }
      if destination in files || source !in files || fate != Works {
        return Raised;
      }
      BagRename(files, source, destination);
      files := Renamed(files, source, destination);
      return Done;
    }

    method Unlink(name: Name) returns (signal: Signal)
      modifies this`files, this`script
      ensures signal == Done ==>
                && name in old(files) && files == old(files) - {name}
                && Bag(old(files)) == multiset{old(files)[name]} + Bag(files)
      ensures signal != Done ==> files == old(files)
      ensures old(script) == [] ==> script == [] && signal != Died && (signal == Done <==> name in old(files))
      ensures Calm(old(script)) ==> Calm(script) && (name in old(files) ==> signal != Raised)
    {
      var fate := NextFate();
      if fate == Dies {
        return Died;
      }
      if name !in files || fate != Works {
        return Raised;
      }
      BagRemove(files, name);
      files := files - {name};
      return Done;
    }

    /** `_write_manifest`: atomic, but the call may also raise after the replacement took effect. */
    method WriteManifest(transaction: nat, manifest: Manifest) returns (signal: Signal)
      modifies this`manifests, this`script
      ensures signal == Done ==> manifests == old(manifests)[transaction := manifest]
      ensures signal == Died ==> manifests == old(manifests)
      ensures manifests == old(manifests) || manifests == old(manifests)[transaction := manifest]
      ensures old(script) == [] ==> script == [] && signal == Done
      ensures Calm(old(script)) ==> Calm(script) && signal != Raised
    {
      var fate := NextFate();
      match fate {
        case Dies => signal := Died;
        case Raises => signal := Raised;
        case RaisesAfter =>
          manifests := manifests[transaction := manifest];
          signal := Raised;
        case Works =>
          manifests := manifests[transaction := manifest];
          signal := Done;
      }
    }

    method UnlinkManifest(transaction: nat) returns (signal: Signal)
      requires transaction in manifests
      modifies this`manifests, this`script
      ensures signal == Done ==> manifests == old(manifests) - {transaction}
      ensures signal != Done ==> manifests == old(manifests)
      ensures old(script) == [] ==> script == [] && signal == Done
      ensures Calm(old(script)) ==> Calm(script) && signal != Raised
    {
      var fate := NextFate();
      if fate == Dies {
        return Died;
      }
      if fate != Works {
        return Raised;
      }
      manifests := manifests - {transaction};
      return Done;
    }

    method ReadManifest(transaction: nat) returns (signal: Signal, manifest: Option<Manifest>)
      modifies this`script
      ensures manifest == if signal == Done then Lookup(manifests, transaction) else None
      ensures old(script) == [] ==> script == [] && signal == Done
      ensures Calm(old(script)) ==> Calm(script) && signal != Raised
    {
      var fate := NextFate();
      manifest := None;
      if fate == Dies {
        signal := Died;
      } else if fate != Works {
        signal := Raised;
      } else {
        signal, manifest := Done, Lookup(manifests, transaction);
      }
    }

    // ---- recovery ----

    /** First half of `_rollback_manifest`: take published files back, last entry first. */
    method Unpublish(entries: seq<Entry>) returns (signal: Signal)
      requires Open() && entries == EntriesOf(story.chain, story.backups, story.tx) && !story.gone
      requires !manifests[story.tx].phase.InPublishing? ==> story.restored == story.backups + 1
      modifies this`files, this`script, this`story
      ensures Open() && Bag(files) == Bag(old(files))
      ensures story == old(story).(published := story.published, lost := story.lost)
      ensures signal == Done ==> story.published == 0
      ensures signal == Done ==> (story.lost <==> old(story.lost) || !NoNeighbours(story.chain, story.backups, story.restored))
      ensures old(script) == [] ==> signal == Done && script == []
    {
      hide Pic, Bag, NoNeighbours, Calm, Indices, EntriesOf, EntryFor, Gap;
      var k := |entries|;
      ghost var bound: nat := story.backups + 1;
      assert NoNeighbours(story.chain, story.backups, Max(story.restored, bound)) by { NoneAbove(story); }
      PicBounds(files, manifests[story.tx].phase, story);
      while k > 0
        invariant 0 <= k <= |entries| && bound <= story.backups + 1 && k == |Indices(story.chain, bound)|
        invariant Open() && Bag(files) == Bag(old(files))
        invariant story == old(story).(published := story.published, lost := story.lost)
        invariant story.published <= bound
        invariant story.lost <==> old(story.lost) || !NoNeighbours(story.chain, story.backups, Max(story.restored, bound))
        invariant old(script) == [] ==> script == []
      {
        ghost var j := Indices(story.chain, bound)[k - 1];
        LastIndex(story.chain, bound);
        EntryAt(story, k - 1, bound);
        UnpublishStep(files, manifests[story.tx].phase, story, bound, j);
        k := k - 1;
        var entry := entries[k];
        if WantsUnpublish(files, entry) {
          signal := RenameNoReplace(entry.destination.value, entry.temporary);
          if signal != Done {
            return;
          }
          story := Unpublished(story, j);
        }
        bound := j;
      }
      NoIndex(story.chain, bound);
      PicBounds(files, manifests[story.tx].phase, story);
      return Done;
    }

    /** Second half of `_rollback_manifest`: every staged file goes back to its original name. */
    method Restore(entries: seq<Entry>) returns (signal: Signal)
      requires Open() && entries == EntriesOf(story.chain, story.backups, story.tx) && !story.gone && story.published == 0
      modifies this`files, this`script, this`story
      ensures Open() && Bag(files) == Bag(old(files))
      ensures story == old(story).(restored := story.restored)
      ensures signal == Done ==> !story.lost && IsChain(files, story.chain)
      ensures old(script) == [] ==> script == [] && signal != Died && (signal == Done <==> !story.lost)
    {
      hide Pic, Bag, IsChain, Calm, Lost, Indices, EntriesOf;
      var k := |entries|;
      ghost var bound: nat := story.backups + 1;
      PicBounds(files, manifests[story.tx].phase, story);
      ghost var d := LostIndex(files, manifests[story.tx].phase, story);
      while k > 0
        invariant 0 <= k <= |entries| && bound <= story.backups + 1 && k == |Indices(story.chain, bound)|
        invariant Open() && Bag(files) == Bag(old(files))
        invariant story == old(story).(restored := story.restored)
        invariant story.lost ==> Lost(files, story, d) && d < bound
        invariant !story.lost ==> story.restored <= bound
        invariant old(script) == [] ==> script == []
      {
        ghost var j := Indices(story.chain, bound)[k - 1];
        LastIndex(story.chain, bound);
        EntryAt(story, k - 1, bound);
        RestoreStep(files, manifests[story.tx].phase, story, bound, j);
        if story.lost {
          LostFacts(files, story, d, bound, j);
        }
        k := k - 1;
        var entry := entries[k];
        if entry.temporary in files {
          if story.lost {
            LostStays(files, manifests[story.tx].phase, story, d, j);
          }
          signal := RenameNoReplace(entry.temporary, entry.original);
          if signal != Done {
            return;
          }
          if !story.lost {
            story := story.(restored := j);
          }
        } else if entry.original !in files {
          return Raised;
        }
        bound := j;
      }
      NoIndex(story.chain, bound);
      AllRestored(files, manifests[story.tx].phase, story);
      return Done;
    }

    /**
     `_rollback_manifest`. Without a failing system call it succeeds exactly when no file was lost and,
     outside the staging phase, no two neighbouring files had already been restored by an earlier pass.
    */
    method RollbackManifest(transaction: nat, manifest: Manifest) returns (signal: Signal)
      requires Open() && transaction == story.tx && manifest.entries == EntriesOf(story.chain, story.backups, story.tx) && !story.gone
      requires manifest.phase.InStaging? ==> manifests[transaction].phase.InStaging?
      requires !manifest.phase.InStaging? && !manifests[transaction].phase.InPublishing? ==> story.restored == story.backups + 1
      modifies this`files, this`script, this`manifests, this`story
      ensures Bag(files) == Bag(old(files))
      ensures story.chain == old(story.chain) && story.backups == old(story.backups) && story.tx == old(story.tx) && !story.gone
      ensures signal == Done ==> manifests == map[] && IsChain(files, story.chain)
      ensures signal != Done ==> Open() && manifests == old(manifests)
      ensures old(script) == [] ==>
                && script == [] && signal != Died
                && (signal == Done <==>
                    !old(story.lost) && (manifest.phase.InStaging? || NoNeighbours(story.chain, story.backups, old(story.restored))))
    {
      hide Pic, Bag, IsChain, Calm, NoNeighbours;
      PicBounds(files, manifests[transaction].phase, story);
      if !manifest.phase.InStaging? {
        signal := Unpublish(manifest.entries);
        if signal != Done {
          return;
        }
      }
      signal := Restore(manifest.entries);
      if signal != Done {
        return;
      }
      signal := UnlinkManifest(transaction);
    }

    /** `_finish_committed_manifest` */
    method FinishCommittedManifest(transaction: nat, manifest: Manifest) returns (signal: Signal)
      requires Open() && transaction == story.tx && manifest == manifests[transaction] && manifest.phase.InCommitting?
      modifies this`files, this`script, this`manifests, this`story
      ensures story == old(story) || (!old(story.gone) && story == old(story).(gone := true))
      ensures Bag(old(files)) == Bag(files) + Discarded(old(story), story)
      ensures Pic(files, InCommitting, story)
      ensures signal == Done ==> manifests == map[] && Staging(transaction, story.backups) !in files
      ensures signal != Done ==> Open() && manifests == old(manifests)
      ensures Calm(old(script)) ==> signal != Raised
      ensures old(script) == [] ==> script == [] && signal == Done
    {
      hide Pic, Bag, Calm;
      var k := 0;
      var entries := manifest.entries;
      while k < |entries|
        invariant 0 <= k <= |entries|
        invariant Open() && manifests == old(manifests)
        invariant story == old(story) || (!old(story.gone) && story == old(story).(gone := true))
        invariant Bag(old(files)) == Bag(files) + Discarded(old(story), story)
        invariant forall i | 0 <= i < k :: entries[i].destination.None? ==> entries[i].temporary !in files
        invariant Calm(old(script)) ==> Calm(script)
        invariant old(script) == [] ==> script == []
      {
        var entry := entries[k];
        if entry.destination.None? && entry.temporary in files {
          EntryAt(story, k, story.backups + 1);
          IndexBelow(story.chain, story.backups + 1, k);
          DiscardStep(files, story, entry.temporary);
          signal := Unlink(entry.temporary);
          if signal != Done {
            return;
          }
          story := story.(gone := true);
        }
        k := k + 1;
      }
      OldestListed(files, story);
      signal := UnlinkManifest(transaction);
    }

    /** One turn of the loop in `_recover_incomplete_rotations`. */
    method RecoverManifest(transaction: nat) returns (signal: Signal)
      requires Open() && transaction == story.tx
      modifies this`files, this`script, this`manifests, this`story
      ensures story.chain == old(story.chain) && story.backups == old(story.backups) && story.tx == old(story.tx)
      ensures Bag(old(files)) == Bag(files) + Discarded(old(story), story) && (old(story.gone) ==> story.gone)
      ensures signal != Done ==> Open() && manifests == old(manifests)
      ensures signal == Done ==> manifests == map[] && (story.gone ==> old(manifests)[transaction].phase.InCommitting?)
      ensures signal == Done && !old(manifests)[transaction].phase.InCommitting? ==> IsChain(files, story.chain)
      ensures signal == Done && old(manifests)[transaction].phase.InCommitting? ==>
                && Pic(files, InCommitting, story) && Staging(transaction, story.backups) !in files
                && story == old(story).(gone := story.gone)
      ensures old(script) == [] ==>
                && script == [] && signal != Died
                && (signal == Done <==>
                    match old(manifests)[transaction].phase
                    case InStaging => true
                    case InPublishing => !old(story.lost) && NoNeighbours(story.chain, story.backups, old(story.restored))
                    case InCommitting => true)
    {
      hide Pic, Bag, IsChain, Calm, NoNeighbours, EntriesOf;
      PicBounds(files, manifests[transaction].phase, story);
      var manifest: Option<Manifest>;
      signal, manifest := ReadManifest(transaction);
      if signal != Done {
        return;
      }
      if manifest.value.phase.InCommitting? {
        signal := FinishCommittedManifest(transaction, manifest.value);
      } else {
        signal := RollbackManifest(transaction, manifest.value);
      }
    }

    /**
     `_recover_incomplete_rotations`. Whenever it returns normally, the open rotation has been undone
     or completed exactly. Otherwise the manifest is kept; only a committing manifest that a rollback
     had begun to undo can be spent, and then staging files are left that bar every later access.
    */
    method Recover() returns (signal: Signal)
      requires manifests == map[] || Open()
      modifies this`files, this`script, this`manifests, this`story
      ensures signal == Done ==> manifests == map[] && NoStaging(files)
      ensures old(manifests) == map[] ==>
                files == old(files) && manifests == map[] && story == old(story) && signal != Died && (signal == Done <==> NoStaging(files))
      ensures old(manifests) != map[] ==>
                && story.chain == old(story.chain) && story.backups == old(story.backups) && story.tx == old(story.tx)
                && Bag(old(files)) == Bag(files) + Discarded(old(story), story) && (old(story.gone) ==> story.gone)
      ensures signal == Done && old(manifests) != map[] ==>
                || IsChain(files, story.chain)
                || (old(manifests)[story.tx].phase.InCommitting? && IsChain(files, Shifted(story.chain, story.backups)))
      ensures signal == Done && old(Forward()) && old(manifests)[story.tx].phase.InCommitting? ==>
                IsChain(files, Shifted(story.chain, story.backups))
      ensures signal == Done && old(manifests) != map[] ==>
                if IsChain(files, story.chain) then !story.gone
                else story.backups in story.chain ==> story.gone
      ensures signal != Done && old(manifests) != map[] ==>
                || (Open() && manifests == old(manifests))
                || (manifests == map[] && !NoStaging(files) && old(manifests)[story.tx].phase.InCommitting? && !old(Forward()))
      ensures old(script) == [] ==> script == [] && signal != Died && (old(Forward()) ==> signal == Done)
      ensures old(script) == [] && old(manifests) != map[] && old(manifests)[story.tx].phase.InPublishing? ==>
                (signal == Done <==> !old(story.lost) && NoNeighbours(story.chain, story.backups, old(story.restored)))
      ensures old(script) == [] && old(manifests) != map[] && old(manifests)[story.tx].phase.InCommitting? ==>
                manifests == map[] && (signal == Done <==> OnlyOldestStaged(old(files), story))
    {
      hide Pic, Bag, IsChain, Calm, EntriesOf, NoNeighbours, Shifted, OnlyOldestStaged;
      var todo := manifests.Keys;
      if todo != {} {
        ForwardNeighbours(story);
      }
      while todo != {}
        invariant todo == {} || (todo == old(manifests).Keys && todo == {story.tx})
        invariant todo == old(manifests.Keys) ==>
                    files == old(files) && manifests == old(manifests) && script == old(script) && story == old(story)
        invariant todo != old(manifests.Keys) ==>
                    && manifests == map[] && old(manifests).Keys == {story.tx}
                    && story.chain == old(story.chain) && story.backups == old(story.backups) && story.tx == old(story.tx)
                    && Bag(old(files)) == Bag(files) + Discarded(old(story), story) && (old(story.gone) ==> story.gone)
                    && (if old(manifests)[story.tx].phase.InCommitting?
                        then && Pic(files, InCommitting, story) && Staging(story.tx, story.backups) !in files
                             && story == old(story).(gone := story.gone)
                        else IsChain(files, story.chain) && !story.gone)
        invariant todo != old(manifests.Keys) && old(script) == [] ==>
                    && script == []
                    && (old(manifests)[story.tx].phase.InPublishing? ==>
                          !old(story.lost) && NoNeighbours(story.chain, story.backups, old(story.restored)))
        decreases todo
      {
        var transaction :| transaction in todo;
        signal := RecoverManifest(transaction);
        if signal != Done {
          return;
        }
        todo := todo - {transaction};
      }
      if old(manifests) != map[] {
        RecoveredIsExact(files, old(manifests)[story.tx].phase, story);
        if old(manifests)[story.tx].phase.InCommitting? {
          OnlyOldestGoes(old(files), old(story), files, story);
        }
      }
      // Staging data without its manifest cannot be assigned safely to an original.
      var orphans := set name | name in files && name.Staging?;
      assert forall name | name in files :: name.Staging? ==> name in orphans;
      if orphans != {} {
        assert exists orphan :: orphan in orphans;
        return Raised;
      }
      return Done;
    }

    // ---- rotation ----

    /** The entries of a new manifest: every existing file of the chain, in order. */
    method CollectEntries(backups: nat, transaction: nat, ghost chain: Chain) returns (entries: seq<Entry>)
      requires IsChain(files, chain)
      ensures entries == EntriesOf(chain, backups, transaction)
    {
      entries := [];
      for index := 0 to backups + 1
        invariant |entries| == |Indices(chain, index)|
        invariant forall k | 0 <= k < |entries| :: entries[k] == EntryFor(backups, transaction, Indices(chain, index)[k])
      {
        assert Lookup(files, Live(index)) == Lookup(chain, index);
        if Live(index) in files {
          entries := entries + [EntryFor(backups, transaction, index)];
        }
      }
    }

    method StageAll(entries: seq<Entry>) returns (signal: Signal)
      requires Open() && manifests[story.tx].phase.InStaging? && story.restored == 0 && !story.lost
      requires entries == EntriesOf(story.chain, story.backups, story.tx)
      modifies this`files, this`script, this`story
      ensures Open() && Bag(files) == Bag(old(files)) && story == old(story).(restored := story.restored)
      ensures signal == Done ==> story.restored == story.backups + 1
      ensures Calm(old(script)) ==> Calm(script) && signal != Raised
      ensures old(script) == [] ==> script == [] && signal == Done
    {
      hide Pic, Bag, Calm, Indices, EntriesOf;
      var k := 0;
      PicBounds(files, InStaging, story);
      NextIndex(story.chain, 0, story.backups + 1);
      while k < |entries|
        invariant 0 <= k <= |entries|
        invariant story == old(story).(restored := story.restored) && story.restored <= story.backups + 1
        invariant k == |Indices(story.chain, story.restored)|
        invariant Open() && Bag(files) == Bag(old(files))
        invariant Calm(old(script)) ==> Calm(script)
        invariant old(script) == [] ==> script == []
      {
        var entry := entries[k];
        NextIndex(story.chain, story.restored, story.backups + 1);
        EntryAt(story, k, story.backups + 1);
        StageStep(files, story, entry.original.index);
        signal := RenameNoReplace(entry.original, entry.temporary);
        if signal != Done {
          return;
        }
        story := story.(restored := entry.original.index + 1);
        k := k + 1;
      }
      NextIndex(story.chain, story.restored, story.backups + 1);
      MoveRestored(files, InStaging, story, story.backups + 1);
      story := story.(restored := story.backups + 1);
      return Done;
    }

    method PublishAll(entries: seq<Entry>) returns (signal: Signal)
      requires Open() && manifests[story.tx].phase.InPublishing?
      requires story.restored == story.backups + 1 && story.published == 0 && !story.lost
      requires entries == EntriesOf(story.chain, story.backups, story.tx)
      modifies this`files, this`script, this`story
      ensures Open() && Bag(files) == Bag(old(files)) && story == old(story).(published := story.published)
      ensures signal == Done ==> story.published == story.backups
      ensures Calm(old(script)) ==> Calm(script) && signal != Raised
      ensures old(script) == [] ==> script == [] && signal == Done
    {
      hide Pic, Bag, Calm, Indices, EntriesOf;
      var k := 0;
      ghost var bound: nat := 0;
      PicBounds(files, InPublishing, story);
      NextIndex(story.chain, 0, story.backups + 1);
      while k < |entries|
        invariant 0 <= k <= |entries| && bound <= story.backups + 1 && k == |Indices(story.chain, bound)|
        invariant story == old(story).(published := story.published)
        invariant story.published == if bound <= story.backups then bound else story.backups
        invariant Open() && Bag(files) == Bag(old(files))
        invariant Calm(old(script)) ==> Calm(script)
        invariant old(script) == [] ==> script == []
      {
        var entry := entries[k];
        NextIndex(story.chain, bound, story.backups + 1);
        EntryAt(story, k, story.backups + 1);
        ghost var j := entry.original.index;
        if entry.destination.Some? {
          PublishStep(files, story, j);
          signal := RenameNoReplace(entry.temporary, entry.destination.value);
          if signal != Done {
            return;
          }
          story := story.(published := j + 1);
        } else {
          MovePublished(files, InPublishing, story, story.backups);
          story := story.(published := story.backups);
        }
        bound := j + 1;
        k := k + 1;
      }
      NextIndex(story.chain, bound, story.backups + 1);
      MovePublished(files, InPublishing, story, story.backups);
      story := story.(published := story.backups);
      return Done;
    }

    /** The `try` block of `rotate_event_log_locked`; `phase` is what the manifest in memory says. */
    method TryRotate(transaction: nat, entries: seq<Entry>) returns (signal: Signal, phase: Phase, persisted: bool)
      requires Open() && transaction == story.tx && manifests[transaction].phase.InStaging? && story.restored == 0 && !story.lost
      requires entries == EntriesOf(story.chain, story.backups, transaction)
      modifies this`files, this`script, this`manifests, this`story
      ensures story.chain == old(story.chain) && story.backups == old(story.backups) && story.tx == old(story.tx)
      ensures Bag(old(files)) == Bag(files) + Discarded(old(story), story)
      ensures signal == Done ==>
                && manifests == map[] && IsChain(files, Shifted(story.chain, story.backups))
                && Bag(old(files)) == Bag(files) + OldestOf(story.chain, story.backups)
      ensures signal != Done ==> Forward()
      ensures persisted || story.gone ==> signal == Done || manifests[transaction].phase.InCommitting?
      ensures signal != Done && !persisted ==> !story.gone
      ensures signal != Done && phase.InStaging? ==> manifests[transaction].phase.InStaging?
      ensures signal != Done && !phase.InStaging? ==> story.restored == story.backups + 1
      ensures Calm(old(script)) ==> signal != Raised
      ensures old(script) == [] ==> script == [] && signal == Done
    {
      hide Pic, Bag, Calm, EntriesOf, IsChain, Shifted;
      phase, persisted := InStaging, false;
      PicBounds(files, InStaging, story);
      signal := StageAll(entries);
      if signal != Done {
        return;
      }
      phase := InPublishing;
      PhaseUp(files, story);
      signal := WriteManifest(transaction, Manifest(phase, entries));
      if signal != Done {
        return;
      }
      signal := PublishAll(entries);
      if signal != Done {
        return;
      }
      phase := InCommitting;
      PhaseUp(files, story);
      signal := WriteManifest(transaction, Manifest(phase, entries));
      if signal != Done {
        return;
      }
      persisted := true;
      signal := FinishCommittedManifest(transaction, Manifest(phase, entries));
      if signal == Done {
        RecoveredIsExact(files, InCommitting, story);
        ShiftedDiffers(files, story);
      }
    }

    /**
     `rotate_event_log_locked`. A normal return with `true` leaves the shifted chain. Any other ending
     leaves the old chain and no manifest, or an open rotation of the old chain for the next `Recover`.
    */
    method RotateLocked(maxBytes: int, backups: int, transaction: nat) returns (signal: Signal, rotated: bool)
      requires manifests == map[] && NoStaging(files)
      modifies this
      ensures maxBytes <= 0 || backups <= 0 || Live(0) !in old(files) || |old(files)[Live(0)]| < maxBytes ==>
                signal == Done && !rotated && files == old(files) && manifests == map[] && script == old(script)
      ensures 0 < maxBytes && 0 < backups && Live(0) in old(files) && |old(files)[Live(0)]| >= maxBytes ==>
                && (rotated <==> signal == Done)
                && (signal == Done ==> manifests == map[] && IsChain(files, Shifted(ChainOf(old(files)), backups)))
                && (signal != Done ==>
                      || (manifests == map[] && IsChain(files, ChainOf(old(files))))
                      || (Open() && story.chain == ChainOf(old(files)) && story.backups == backups))
                && (Calm(old(script)) && signal != Done ==> signal == Died && (manifests == map[] || Forward()))
                && Bag(old(files)) == Bag(files) +
                     if signal == Done || (manifests != map[] && story.gone) then OldestOf(ChainOf(old(files)), backups) else multiset{}
      ensures old(script) == [] ==> script == [] && signal == Done
    {
      hide Pic, Bag, Calm, IsChain, Shifted, EntriesOf;
      if maxBytes <= 0 || backups <= 0 || Live(0) !in files || |files[Live(0)]| < maxBytes {
        return Done, false;
      }
      ghost var chain := ChainOf(files);
      StartOfRotation(files, backups, transaction);
      var entries := CollectEntries(backups, transaction, chain);
      story := Story(chain, backups, transaction, 0, 0, false, false);
      signal := WriteManifest(transaction, Manifest(InStaging, entries));
      rotated := false;
      if signal != Done {
        return;
      }
      var phase, persisted;
      signal, phase, persisted := TryRotate(transaction, entries);
      if signal == Done {
        rotated := true;
        return;
      }
      if signal == Died {
        return;
      }
      var durable: Option<Manifest>;
      signal, durable := ReadManifest(transaction);
      if signal == Died {
        return;
      }
      if persisted || (durable.Some? && durable.value.phase.InCommitting?) {
        return Raised, false;
      }
      signal := RollbackManifest(transaction, Manifest(phase, entries));
      if signal == Done {
        signal := Raised;
      }
    }

    /**
     One crash, at any step of a rotation without failing system calls, and one undisturbed recovery: the
     chain is exactly the shifted one if the committing manifest was durable, and exactly the old one if not.
    */
    method CrashThenRecover(maxBytes: int, backups: int, transaction: nat)
      returns (signal: Signal, rotated: bool, committed: bool, ghost atCrash: map<nat, Manifest>)
      requires manifests == map[] && NoStaging(files) && Calm(script)
      modifies this
      ensures signal == Done && manifests == map[] && NoStaging(files)
      ensures committed <==> rotated || exists t :: t in atCrash && atCrash[t].phase.InCommitting?
      ensures rotated ==> maxBytes > 0 && backups > 0 && Live(0) in old(files) && |old(files)[Live(0)]| >= maxBytes
      ensures old(script) == [] ==> atCrash == map[]
      ensures old(script) == [] && maxBytes > 0 && backups > 0 && Live(0) in old(files) && |old(files)[Live(0)]| >= maxBytes ==> rotated
      ensures committed ==> backups > 0 && IsChain(files, Shifted(ChainOf(old(files)), backups))
      ensures !committed ==> IsChain(files, ChainOf(old(files)))
    {
      hide Pic, Bag, Calm, Shifted, EntriesOf, Lost, NoNeighbours;
      ghost var chain := ChainOf(files);
      ChainOfIsChain(files);
      var crash;
      crash, rotated := RotateLocked(maxBytes, backups, transaction);
      atCrash := manifests;
      committed := rotated || exists t :: t in manifests && manifests[t].phase.InCommitting?;
      assert manifests != map[] ==> Forward() && story.chain == chain;
      script := [];
      signal := Recover();
    }

    // ---- any number of lock acquisitions ----

    /** What is destroyed for good but not yet accounted to a finished rotation. */
    ghost function Pending(): multiset<Content>
      reads this
    {
      if (manifests != map[] || !NoStaging(files)) && story.gone then OldestOf(story.chain, story.backups) else multiset{}
    }

    /**
     The directory after rotations `finished` of a chain that was `first`: settled on exactly the
     resulting chain, in the middle of the next rotation of it, or barred by orphaned staging files.
    */
    ghost predicate Consistent(first: Chain, finished: seq<RotationRecord>)
      reads this
    {
      && Linked(first, finished)
      && (manifests == map[] && NoStaging(files) ==> IsChain(files, ChainAfter(first, finished)))
      && (manifests != map[] ==> Open() && story.chain == ChainAfter(first, finished))
    }

    ghost function OpenRotation(): Option<RotationRecord>
      reads this
    {
      if manifests == map[] then None else Some(RotationRecord(story.chain, story.backups))
    }

    method RecoverAndCount(ghost first: Chain, ghost finished: seq<RotationRecord>)
      returns (signal: Signal, ghost finished': seq<RotationRecord>)
      requires Consistent(first, finished)
      modifies this`files, this`script, this`manifests, this`story
      ensures Consistent(first, finished') && finished <= finished'
      ensures Bag(old(files)) + Total(finished) + old(Pending()) == Bag(files) + Total(finished') + Pending()
      ensures signal == Done ==> manifests == map[] && NoStaging(files)
      ensures old(manifests) == map[] && !NoStaging(old(files)) ==> signal == Raised && files == old(files)
      ensures finished' == finished
              || (old(OpenRotation()).Some? && signal == Done && finished' == finished + [old(OpenRotation()).value])
      ensures OpenRotation().Some? ==> finished' == finished && OpenRotation() == old(OpenRotation())
      ensures old(script) == [] && old(manifests) == map[] && NoStaging(old(files)) ==> signal == Done && script == []
    {
      hide Pic, Bag, Calm, IsChain, Shifted, EntriesOf, NoStaging, NoNeighbours, Linked, ChainAfter, Total, Lost, Neighbours, OldestOf;
      finished' := finished;
      signal := Recover();
      if old(manifests) != map[] && signal == Done && !IsChain(files, story.chain) {
        finished' := finished + [RotationRecord(story.chain, story.backups)];
        LinkOne(first, finished, story.chain, story.backups);
      }
      NoOldest(story.chain, story.backups);
    }

    /**
     `rotate_event_log`: every lock acquisition recovers before it rotates. The recovery leaves the chain after
     `settled`, which is `finished` or that and the rotation left open; exactly this chain is rotated once, with
     the backups of this session, if its live file has reached the threshold.
    */
    method RotateEventLog(session: Session, ghost first: Chain, ghost finished: seq<RotationRecord>)
      returns (signal: Signal, rotated: bool, ghost settled: seq<RotationRecord>, ghost finished': seq<RotationRecord>)
      requires Consistent(first, finished)
      modifies this
      ensures Consistent(first, finished')
      ensures Bag(old(files)) + Total(finished) + old(Pending()) == Bag(files) + Total(finished') + Pending()
      ensures settled == finished
              || (old(OpenRotation()).Some? && settled == finished + [old(OpenRotation()).value])
      ensures rotated ==> session.backups > 0 && Due(ChainAfter(first, settled), session) && finished' == settled + [RotationRecord(ChainAfter(first, settled), session.backups)]
      ensures !rotated ==> finished' == settled
      ensures signal == Done ==>
                var chain := ChainAfter(first, settled);
                && (rotated <==> session.maxBytes > 0 && session.backups > 0 && 0 in chain && |chain[0]| >= session.maxBytes)
                && manifests == map[] && IsChain(files, if rotated then Shifted(chain, session.backups) else chain)
      ensures signal != Done ==> !rotated
      ensures OpenRotation().Some? ==>
                || (settled == finished && OpenRotation() == old(OpenRotation()))
                || (Due(ChainAfter(first, settled), session) && OpenRotation().value == RotationRecord(ChainAfter(first, settled), session.backups))
      ensures old(manifests) == map[] && !NoStaging(old(files)) ==> signal == Raised && files == old(files)
      ensures session.script == [] && old(manifests) == map[] && NoStaging(old(files)) ==> signal == Done
    {
      hide Pic, Bag, Calm, IsChain, Shifted, EntriesOf, NoStaging, NoNeighbours, Linked, ChainAfter, Total, Lost, Neighbours, OldestOf;
      script, rotated := session.script, false;
      signal, settled := RecoverAndCount(first, finished);
      finished' := settled;
      if signal != Done {
        return;
      }
      signal, rotated, finished' := RotateSettled(session, first, settled);
    }

    /** The rotation of a settled directory. */
    method RotateSettled(session: Session, ghost first: Chain, ghost settled: seq<RotationRecord>)
      returns (signal: Signal, rotated: bool, ghost finished': seq<RotationRecord>)
      requires manifests == map[] && NoStaging(files) && Linked(first, settled) && IsChain(files, ChainAfter(first, settled))
      modifies this
      ensures Consistent(first, finished')
      ensures Bag(old(files)) + Total(settled) == Bag(files) + Total(finished') + Pending()
      ensures rotated ==> session.backups > 0 && Due(ChainAfter(first, settled), session) && finished' == settled + [RotationRecord(ChainAfter(first, settled), session.backups)]
      ensures !rotated ==> finished' == settled
      ensures signal == Done ==>
                var chain := ChainAfter(first, settled);
                && (rotated <==> session.maxBytes > 0 && session.backups > 0 && 0 in chain && |chain[0]| >= session.maxBytes)
                && manifests == map[] && IsChain(files, if rotated then Shifted(chain, session.backups) else chain)
      ensures signal != Done ==> !rotated
      ensures OpenRotation().Some? ==>
                Due(ChainAfter(first, settled), session) && OpenRotation().value == RotationRecord(ChainAfter(first, settled), session.backups)
      ensures old(script) == [] ==> signal == Done
    {
      hide Pic, Bag, Calm, IsChain, Shifted, EntriesOf, NoStaging, NoNeighbours, Linked, ChainAfter, Total, Lost, Neighbours, OldestOf;
      ghost var chain := ChainAfter(first, settled);
      finished' := settled;
      SameChain(files, chain);
      LiveFile(files, chain);
      signal, rotated := RotateLocked(session.maxBytes, session.backups, session.transaction);
      if rotated {
        finished' := settled + [RotationRecord(chain, session.backups)];
        LinkOne(first, settled, chain, session.backups);
        SameChain(files, ChainAfter(first, finished'));
      } else if manifests == map[] {
        SameChain(files, chain);
      }
    }

    /**
     Any number of lock acquisitions, each interrupted or failing anywhere: the chain only ever moves by whole
     rotations, each of them one that a session of its own found due, with that session's backups; and all that
     is ever destroyed is the oldest backup of a committed rotation.
    */
    method RunSessions(sessions: seq<Session>) returns (ghost finished: seq<RotationRecord>, ghost origin: seq<nat>)
      requires manifests == map[] && NoStaging(files)
      modifies this
      ensures Consistent(ChainOf(old(files)), finished) && Attributed(sessions, finished, origin, |sessions|)
      ensures Bag(old(files)) == Bag(files) + Total(finished) + Pending()
    {
      hide Pic, Bag, Calm, IsChain, Shifted, EntriesOf, NoNeighbours, Lost, Linked, Total, Due, ChainAfter;
      finished, origin := [], [];
      ghost var first, opener := ChainOf(files), 0;
      ChainOfIsChain(files);
      NothingFinished(first);
      assert Pending() == multiset{} && Ledger(sessions, finished, origin, opener, OpenRotation(), 0) && Consistent(first, finished);
      hide Ledger, Consistent, Pending, NoStaging, Open, OpenRotation, Attributed;
      for i := 0 to |sessions|
        invariant Consistent(first, finished) && Ledger(sessions, finished, origin, opener, OpenRotation(), i)
        invariant Bag(old(files)) == Bag(files) + Total(finished) + Pending()
      {
        ghost var before, settled, open := finished, finished, OpenRotation();
        var signal, rotated;
        signal, rotated, settled, finished := RotateEventLog(sessions[i], first, finished);
        ghost var own := if rotated then Some(RotationRecord(ChainAfter(first, settled), sessions[i].backups)) else None;
        origin, opener := LedgerStep(sessions, i, before, origin, opener, open, settled, own, OpenRotation());
      }
      assert Attributed(sessions, finished, origin, |sessions|) by { LedgerAttributes(sessions, finished, origin, opener, OpenRotation(), |sessions|); }
    }
  }

  /**
   What a recovery leaves that was killed just before it removed the manifest: two restored neighbours under
   a publishing manifest. The next recovery takes the upper one for the published copy of the lower one.
  */
  method SecondPassRaises() returns (signal: Signal, directory: Directory)
    ensures signal == Raised && directory.manifests != map[]
    ensures Bag(directory.files) == Bag(map[Live(0) := "new", Live(1) := "old"])
  {
    hide Bag;
    ghost var chain: Chain := map[0 := "new", 1 := "old"];
    var entries := [EntryFor(2, 7, 0), EntryFor(2, 7, 1)];
    assert entries == EntriesOf(chain, 2, 7) by {
      assert Indices(chain, 1) == [0] && Indices(chain, 2) == [0, 1] && Indices(chain, 3) == [0, 1];
    }
    directory := new Directory(map[Live(0) := "new", Live(1) := "old"], map[7 := Manifest(InPublishing, entries)],
                               Story(chain, 2, 7, 0, 0, false, false));
    assert Neighbours(chain, 0);
    signal := directory.Recover();
  }

  /**
   What a rollback leaves that was killed halfway under a durable committing manifest. The next recovery spends
   the manifest, and the staged live file bars this and every later access; no content is gone.
  */
  method HalfUndoneCommitIsBarred() returns (signal: Signal, directory: Directory)
    ensures signal == Raised && directory.manifests == map[] && !NoStaging(directory.files)
    ensures Bag(directory.files) == Bag(map[Staging(7, 0) := "new", Live(1) := "old"])
  {
    hide Bag;
    ghost var chain: Chain := map[0 := "new", 1 := "old"];
    var entries := [EntryFor(2, 7, 0), EntryFor(2, 7, 1)];
    assert entries == EntriesOf(chain, 2, 7) by {
      assert Indices(chain, 1) == [0] && Indices(chain, 2) == [0, 1] && Indices(chain, 3) == [0, 1];
    }
    directory := new Directory(map[Staging(7, 0) := "new", Live(1) := "old"], map[7 := Manifest(InCommitting, entries)],
                               Story(chain, 2, 7, 1, 0, false, false));
    assert !OnlyOldestStaged(directory.files, directory.story) by { assert Staging(7, 0) in directory.files; }
    signal := directory.Recover();
  }
}
