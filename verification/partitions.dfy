/** DiskImage.get_filesystems (diskimage/diskimage.py): reading the partition
    table through an image handle and mounting a filesystem for every
    partition that holds one, or the whole image when there is no table. */
module Partitions {
  import opened Wrappers
  import opened Tsk
  import opened Items
  import opened ImageTypes
  import opened Handles

  /** Sectors are 512 bytes: a partition starting at sector s is mounted at byte s * 512. */
  const SECTOR_SIZE: nat := 512

  /** The byte offset get_filesystems mounts a partition at. */
  function ByteOffset(p: Partition): nat
  {
    p.start * SECTOR_SIZE
  }

  /** The label get_filesystems gives a mounted filesystem. */
  function FsType(v: Volume): (name: string)
    ensures name == "NTFS" <==> IsNtfs(v.ftype)
    ensures name == "NTFS" || name == "*unknown*"
  {
    if IsNtfs(v.ftype) then "NTFS" else "*unknown*"
  }

  /** A FileSystem for the volume mounted at `offset`, labelled, with no parents. */
  function MakeFileSystem(offset: int, v: Volume): (fs: FileSystem)
    ensures fs.offset == offset && fs.volume == v && fs.parents == [] && fs.fstype == FsType(v)
  {
    FileSystem(offset, FsType(v), [], v)
  }

  /** FileSystem(imagehandle, offset=start*512) for one partition; None when
      the sleuth kit finds no filesystem there (the OSError is swallowed). */
  function MountPartition(m: Media, p: Partition): (r: Option<FileSystem>)
    ensures r.None? <==> Mount(m, ByteOffset(p)).None?
    ensures r.Some? ==> r.value == MakeFileSystem(ByteOffset(p), Mount(m, ByteOffset(p)).value)
  {
    match Mount(m, ByteOffset(p))
    case None => None
    case Some(v) => Some(MakeFileSystem(ByteOffset(p), v))
  }

  /** The filesystems of the first n partitions, in table order. */
  function Survivors(m: Media, ps: seq<Partition>, n: nat): seq<FileSystem>
    requires n <= |ps|
  {
    if n == 0 then []
    else
      match MountPartition(m, ps[n - 1])
      case None => Survivors(m, ps, n - 1)
      case Some(fs) => Survivors(m, ps, n - 1) + [fs]
  }

  /** The unpartitioned case: one mount at offset 0, kept only when the
      FileSystem is truthy, that is when its root directory opens. */
  function WholeImage(m: Media): (r: seq<FileSystem>)
    ensures |r| <= 1
  {
    match Mount(m, 0)
    case None => []
    case Some(v) => if v.root.Listing? then [MakeFileSystem(0, v)] else []
  }

  /** get_filesystems(imagehandle): Returned(None) after a RuntimeError,
      Raised after an OSError with an unexpected message (the table variable
      is then never bound). */
  function FilesystemsOf(m: Media): (r: Outcome<Option<seq<FileSystem>>>)
    ensures r.Raised? <==> m.table.OtherOsFault?
    ensures r == Returned(None) <==> m.table.RuntimeFault?
  {
    match m.table
    case RuntimeFault => Returned(None)
    case OtherOsFault => Raised
    case CannotDetermine => Returned(Some(WholeImage(m)))
    case Table(ps) => Returned(Some(Survivors(m, ps, |ps|)))
  }

  /** get_filesystems, with its loop over the partitions; `closesHandle`
      says whether it closed the image handle (only after a RuntimeError). */
  method GetFilesystems(h: ImageHandle) returns (r: Outcome<Option<seq<FileSystem>>>, closesHandle: bool)
    ensures r == FilesystemsOf(h.media)
    ensures closesHandle <==> h.media.table.RuntimeFault?
  {
    var m := h.media;
    closesHandle := false;
    match m.table {
      case RuntimeFault =>
        closesHandle := true;
        return Returned(None), closesHandle;
      case OtherOsFault =>
        return Raised, closesHandle;
      case CannotDetermine =>
        var filesystems: seq<FileSystem> := [];
        var mounted := Mount(m, 0);
        if mounted.Some? && mounted.value.root.Listing? {
          filesystems := [MakeFileSystem(0, mounted.value)];
        }
        return Returned(Some(filesystems)), closesHandle;
      case Table(ps) =>
        var filesystems: seq<FileSystem> := [];
        for i := 0 to |ps|
          invariant filesystems == Survivors(m, ps, i)
        {
          var mounted := Mount(m, ByteOffset(ps[i]));
          if mounted.None? {
            continue;
          }
          filesystems := filesystems + [MakeFileSystem(ByteOffset(ps[i]), mounted.value)];
        }
        return Returned(Some(filesystems)), closesHandle;
    }
  }

  /** Every surviving filesystem was mounted from one of the partitions. */
  lemma {:induction false} SurvivorsSound(m: Media, ps: seq<Partition>, n: nat)
    requires n <= |ps|
    ensures |Survivors(m, ps, n)| <= n
    ensures forall fs | fs in Survivors(m, ps, n) ::
      exists k :: 0 <= k < n && MountPartition(m, ps[k]) == Some(fs)
  {
    if n > 0 {
      SurvivorsSound(m, ps, n - 1);
      var before := Survivors(m, ps, n - 1);
      match MountPartition(m, ps[n - 1])
      case None =>
        assert Survivors(m, ps, n) == before;
      case Some(x) =>
        assert Survivors(m, ps, n) == before + [x];
        assert MountPartition(m, ps[n - 1]) == Some(x);
    }
  }

  /** Every partition that mounts contributes its filesystem. */
  lemma {:induction false} SurvivorsComplete(m: Media, ps: seq<Partition>, n: nat)
    requires n <= |ps|
    ensures forall k | 0 <= k < n && MountPartition(m, ps[k]).Some? ::
      MountPartition(m, ps[k]).value in Survivors(m, ps, n)
  {
    if n > 0 {
      SurvivorsComplete(m, ps, n - 1);
      var before := Survivors(m, ps, n - 1);
      match MountPartition(m, ps[n - 1])
      case None =>
        assert Survivors(m, ps, n) == before;
      case Some(x) =>
        assert Survivors(m, ps, n) == before + [x];
    }
  }

  /** Every surviving filesystem sits at the byte offset of one of the
      partitions it was mounted from. */
  lemma {:induction false} SurvivorsAtPartitionOffsets(m: Media, ps: seq<Partition>, n: nat)
    requires n <= |ps|
    ensures forall i | 0 <= i < |Survivors(m, ps, n)| ::
      exists k :: 0 <= k < n && Survivors(m, ps, n)[i].offset == ByteOffset(ps[k])
  {
    if n > 0 {
      SurvivorsAtPartitionOffsets(m, ps, n - 1);
      var before := Survivors(m, ps, n - 1);
      var s := Survivors(m, ps, n);
      var last := MountPartition(m, ps[n - 1]);
      assert s == before + (if last.Some? then [last.value] else []);
      forall i | 0 <= i < |s|
        ensures exists k :: 0 <= k < n && s[i].offset == ByteOffset(ps[k])
      {
        if i < |before| {
          var k :| 0 <= k < n - 1 && before[i].offset == ByteOffset(ps[k]);
          assert s[i] == before[i];
        } else {
          assert s[i] == last.value;
          var k := n - 1;
          assert 0 <= k < n && s[i].offset == ByteOffset(ps[k]);
        }
      }
    } else {
      assert Survivors(m, ps, n) == [];
    }
  }

  /** The positions in the table of the partitions that survive, in order. */
  function SurvivorIndices(m: Media, ps: seq<Partition>, n: nat): seq<nat>
    requires n <= |ps|
  {
    if n == 0 then []
    else if MountPartition(m, ps[n - 1]).Some? then SurvivorIndices(m, ps, n - 1) + [n - 1]
    else SurvivorIndices(m, ps, n - 1)
  }

  /** The surviving positions are exactly the positions below n whose
      partition mounts a filesystem, none other. */
  lemma {:induction false} SurvivorIndicesExact(m: Media, ps: seq<Partition>, n: nat)
    requires n <= |ps|
    ensures forall k | 0 <= k < n :: MountPartition(m, ps[k]).Some? <==> k in SurvivorIndices(m, ps, n)
    ensures forall k | k in SurvivorIndices(m, ps, n) :: k < n
  {
    if n > 0 {
      SurvivorIndicesExact(m, ps, n - 1);
    }
  }

  /** Survivors keep table order, whatever the table holds (entries sharing a
      start sector included): the i-th filesystem is the mount of the
      partition at position idx[i], and those positions strictly increase. */
  lemma {:induction false} SurvivorsInTableOrder(m: Media, ps: seq<Partition>, n: nat)
    requires n <= |ps|
    ensures var idx := SurvivorIndices(m, ps, n);
      && |idx| == |Survivors(m, ps, n)|
      && (forall i | 0 <= i < |idx| :: idx[i] < n && MountPartition(m, ps[idx[i]]) == Some(Survivors(m, ps, n)[i]))
      && (forall i, j | 0 <= i < j < |idx| :: idx[i] < idx[j])
  {
    if n > 0 {
      SurvivorsInTableOrder(m, ps, n - 1);
      var idx := SurvivorIndices(m, ps, n - 1);
      var before := Survivors(m, ps, n - 1);
      var last := MountPartition(m, ps[n - 1]);
      if last.Some? {
        var idx', after := idx + [n - 1], before + [last.value];
        assert Survivors(m, ps, n) == after;
        assert SurvivorIndices(m, ps, n) == idx';
        forall i | 0 <= i < |idx'|
          ensures idx'[i] < n && MountPartition(m, ps[idx'[i]]) == Some(after[i])
        {
          if i < |idx| {
            assert idx'[i] == idx[i] && after[i] == before[i];
          }
        }
      } else {
        assert Survivors(m, ps, n) == before;
        assert SurvivorIndices(m, ps, n) == idx;
      }
    } else {
      assert Survivors(m, ps, n) == [] && SurvivorIndices(m, ps, n) == [];
    }
  }

  /** With start sectors strictly increasing along the table (as in a GPT
      table), the filesystems also lie at strictly increasing byte offsets. */
  lemma {:induction false} SurvivorsAtIncreasingOffsets(m: Media, ps: seq<Partition>, n: nat)
    requires n <= |ps|
    requires forall i, j | 0 <= i < j < |ps| :: ps[i].start < ps[j].start
    ensures forall i, j | 0 <= i < j < |Survivors(m, ps, n)| :: Survivors(m, ps, n)[i].offset < Survivors(m, ps, n)[j].offset
  {
    if n > 0 {
      SurvivorsAtIncreasingOffsets(m, ps, n - 1);
      SurvivorsAtPartitionOffsets(m, ps, n - 1);
      var before := Survivors(m, ps, n - 1);
      var s := Survivors(m, ps, n);
      var last := MountPartition(m, ps[n - 1]);
      if last.Some? {
        assert s == before + [last.value];
        assert s[|before|].offset == ByteOffset(ps[n - 1]);
        forall i, j | 0 <= i < j < |s|
          ensures s[i].offset < s[j].offset
        {
          assert s[i] == before[i];
          if j < |before| {
            assert s[j] == before[j];
          } else {
            var k :| 0 <= k < n - 1 && before[i].offset == ByteOffset(ps[k]);
            assert ps[k].start < ps[n - 1].start;
          }
        }
      } else {
        assert s == before;
      }
    }
  }

  /** Everything get_filesystems returns: volumes of the image itself, at
      offset 0 or at a partition's byte offset, labelled by IsNTFS, with no
      parents of their own. */
  lemma FilesystemsOfImage(m: Media)
    ensures var r := FilesystemsOf(m);
      r.Returned? && r.value.Some? ==>
        forall fs | fs in r.value.value ::
          && fs.volume in m.volumes
          && fs.parents == []
          && fs.fstype == FsType(fs.volume)
          && (m.table.CannotDetermine? ==> fs.offset == 0 && fs.volume.root.Listing?)
          && (m.table.Table? ==> exists k :: 0 <= k < |m.table.partitions| && fs.offset == ByteOffset(m.table.partitions[k]))
  {
    if m.table.Table? {
      SurvivorsSound(m, m.table.partitions, |m.table.partitions|);
    }
  }

  /** Without a partition table the whole image is kept exactly when a
      filesystem mounts at offset 0 and its root directory opens. */
  lemma WholeImageKeptIffRootOpens(m: Media)
    requires m.table.CannotDetermine?
    ensures FilesystemsOf(m) == Returned(Some([])) <==> Mount(m, 0).None? || Mount(m, 0).value.root.Unresolvable?
  {
  }
}
