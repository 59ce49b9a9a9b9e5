/** What the external libraries (pytsk3 and pyewf) report, given as data.
    Nothing here is code of the repository: these values stand for the
    answers the sleuth kit gives when the repository asks it to read a
    partition table, to mount a filesystem at a byte offset, to open a
    directory, or to open a file by inode or path. Because a file's bytes may
    themselves hold a disk image, a file records what the libraries find when
    those bytes are opened as an image, which makes the whole world a finite
    tree: media, volumes, directories, files, and nested media again. */
module Tsk {
  import opened Wrappers

  /** pytsk3.TSK_FS_META_TYPE_REG and TSK_FS_META_TYPE_DIR. */
  const TSK_FS_META_TYPE_REG: int := 0x1
  const TSK_FS_META_TYPE_DIR: int := 0x2

  /** pytsk3.TSK_FS_NAME_FLAG_UNALLOC: the name entry is deleted. */
  const TSK_FS_NAME_FLAG_UNALLOC: nat := 0x2

  /** item.info.meta: the metadata block a directory entry points to. */
  datatype Meta = Meta(kind: int, addr: int, size: int)

  /** One record of a directory listing (item.info.name and item.info.meta).
      `sub` is what opening this entry as a directory yields (open_dir by its
      inode, or by its joined path when the inode is 0). */
  datatype Entry = Entry(name: string, flags: nat, meta: Option<Meta>, sub: Dir)

  /** The answer of open_dir: it raises (Unresolvable) or yields the entries in order. */
  datatype Dir = Unresolvable | Listing(entries: seq<Entry>)

  /** A pytsk3 File: its metadata size and its bytes, plus what the sleuth kit
      finds in those bytes when they are used as a raw image (asRaw) and what
      pyewf presents when they are opened as an evidence file (asEwf, None
      when pyewf rejects them). */
  datatype TskFile = TskFile(size: int, data: seq<bv8>, asRaw: Media, asEwf: Option<Media>)

  /** A file the volume can open under `key`: an inode address or a path. */
  datatype FileRecord<K> = FileRecord(key: K, file: TskFile)

  /** A filesystem the sleuth kit mounts (FS_Info) when asked at byte offset
      `offset`: its type code, its root directory, and the files open_meta and
      open can reach. */
  datatype Volume = Volume(offset: int, ftype: int, root: Dir, inodes: seq<FileRecord<int>>, paths: seq<FileRecord<string>>)

  datatype Partition = Partition(addr: nat, start: nat)

  /** The outcome of pytsk3.Volume_Info: a partition table; an OSError saying
      "Cannot determine partition type"; a RuntimeError; or an OSError with
      any other message. */
  datatype TableRead = Table(partitions: seq<Partition>) | CannotDetermine | RuntimeFault | OtherOsFault

  /** Everything the sleuth kit sees through one image handle. */
  datatype Media = Media(table: TableRead, volumes: seq<Volume>)

  /** FS_Info(handle, offset): the first volume mounted at that offset;
      None when the constructor raises. */
  function Mount(m: Media, offset: int): (r: Option<Volume>)
    ensures r.Some? ==> r.value in m.volumes && r.value.offset == offset
    ensures r.None? <==> forall v | v in m.volumes :: v.offset != offset
  {
    MountFrom(m.volumes, offset)
  }

  function MountFrom(vs: seq<Volume>, offset: int): (r: Option<Volume>)
    ensures r.Some? ==> r.value in vs && r.value.offset == offset
    ensures r.None? <==> forall v | v in vs :: v.offset != offset
  {
    if vs == [] then None
    else if vs[0].offset == offset then Some(vs[0])
    else MountFrom(vs[1..], offset)
  }

  /** open_meta(inode=addr): the first file with that address; raises when there is none. */
  function OpenMeta(v: Volume, addr: int): (r: Outcome<TskFile>)
    ensures r.Returned? ==> exists k :: 0 <= k < |v.inodes| && v.inodes[k].key == addr && v.inodes[k].file == r.value
    ensures r.Raised? <==> forall k | 0 <= k < |v.inodes| :: v.inodes[k].key != addr
  {
    FileAt(v.inodes, addr)
  }

  /** FS_Info.open(path): the first file at that path; raises when there is none. */
  function OpenPath(v: Volume, path: string): (r: Outcome<TskFile>)
    ensures r.Returned? ==> exists k :: 0 <= k < |v.paths| && v.paths[k].key == path && v.paths[k].file == r.value
    ensures r.Raised? <==> forall k | 0 <= k < |v.paths| :: v.paths[k].key != path
  {
    FileAt(v.paths, path)
  }

  /** The file of the first record with the given key; Raised when none has it. */
  function FileAt<K(==)>(rs: seq<FileRecord<K>>, key: K): (r: Outcome<TskFile>)
    ensures r.Returned? ==> exists k :: 0 <= k < |rs| && rs[k].key == key && rs[k].file == r.value
    ensures r.Raised? <==> forall k | 0 <= k < |rs| :: rs[k].key != key
  {
    if rs == [] then Raised
    else if rs[0].key == key then Returned(rs[0].file)
    else
      var r := FileAt(rs[1..], key);
      assert forall k | 1 <= k < |rs| :: rs[k] == rs[1..][k - 1];
      r
  }

  /** read_random(offset, n) of a pytsk3 File: the bytes from offset on, cut
      at the end of the file; nothing outside the file. */
  function ReadRandom(f: TskFile, offset: int, n: int): (r: seq<bv8>)
    ensures |r| <= if n < 0 then 0 else n
    ensures 0 <= offset && 0 < n && offset + n <= |f.data| ==> r == f.data[offset..offset + n]
  {
    if offset < 0 || n <= 0 || offset >= |f.data| then []
    else if offset + n <= |f.data| then f.data[offset..offset + n]
    else f.data[offset..]
  }

  // Nesting depth of the world, used only to show that recursion into
  // nested images ends.

  function Max(a: nat, b: nat): nat
  {
    if a < b then b else a
  }

  ghost function MediaHeight(m: Media): nat
    decreases m, 1
  {
    VolumesHeight(m, |m.volumes|)
  }

  ghost function VolumesHeight(m: Media, k: nat): nat
    requires k <= |m.volumes|
    decreases m, 0, k
  {
    if k == 0 then 0 else Max(VolumesHeight(m, k - 1), VolumeHeight(m.volumes[k - 1]))
  }

  ghost function VolumeHeight(v: Volume): nat
    decreases v, 2
  {
    1 + Max(InodesHeight(v, |v.inodes|), PathsHeight(v, |v.paths|))
  }

  ghost function InodesHeight(v: Volume, k: nat): nat
    requires k <= |v.inodes|
    decreases v, 0, k
  {
    if k == 0 then 0 else Max(InodesHeight(v, k - 1), FileHeight(v.inodes[k - 1].file))
  }

  ghost function PathsHeight(v: Volume, k: nat): nat
    requires k <= |v.paths|
    decreases v, 1, k
  {
    if k == 0 then 0 else Max(PathsHeight(v, k - 1), FileHeight(v.paths[k - 1].file))
  }

  ghost function FileHeight(f: TskFile): nat
    decreases f, 1
  {
    Max(MediaHeight(f.asRaw), if f.asEwf.Some? then MediaHeight(f.asEwf.value) else 0)
  }

  lemma {:induction false} VolumeBelowMedia(m: Media, k: nat, j: nat)
    requires j < k <= |m.volumes|
    ensures VolumeHeight(m.volumes[j]) <= VolumesHeight(m, k)
    decreases k
  {
    if j < k - 1 {
      VolumeBelowMedia(m, k - 1, j);
    }
  }

  /** A volume mounted from some media is no taller than the media. */
  lemma MountedBelowMedia(m: Media, v: Volume)
    requires v in m.volumes
    ensures VolumeHeight(v) <= MediaHeight(m)
  {
    var j :| 0 <= j < |m.volumes| && m.volumes[j] == v;
    VolumeBelowMedia(m, |m.volumes|, j);
  }

  lemma {:induction false} InodeBelowVolume(v: Volume, k: nat, j: nat)
    requires j < k <= |v.inodes|
    ensures FileHeight(v.inodes[j].file) <= InodesHeight(v, k)
    decreases k
  {
    if j < k - 1 {
      InodeBelowVolume(v, k - 1, j);
    }
  }

  lemma {:induction false} PathBelowVolume(v: Volume, k: nat, j: nat)
    requires j < k <= |v.paths|
    ensures FileHeight(v.paths[j].file) <= PathsHeight(v, k)
    decreases k
  {
    if j < k - 1 {
      PathBelowVolume(v, k - 1, j);
    }
  }

  /** Whatever file open_meta or open returns is strictly smaller than the
      volume it came from. */
  lemma OpenedBelowVolume(v: Volume, addr: int, path: string)
    ensures OpenMeta(v, addr).Returned? ==> FileHeight(OpenMeta(v, addr).value) < VolumeHeight(v)
    ensures OpenPath(v, path).Returned? ==> FileHeight(OpenPath(v, path).value) < VolumeHeight(v)
  {
    if OpenMeta(v, addr).Returned? {
      var k :| 0 <= k < |v.inodes| && v.inodes[k].key == addr && v.inodes[k].file == OpenMeta(v, addr).value;
      InodeBelowVolume(v, |v.inodes|, k);
    }
    if OpenPath(v, path).Returned? {
      var k :| 0 <= k < |v.paths| && v.paths[k].key == path && v.paths[k].file == OpenPath(v, path).value;
      PathBelowVolume(v, |v.paths|, k);
    }
  }
}
