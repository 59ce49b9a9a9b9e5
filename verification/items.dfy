/** Items (diskimage/item.py) and the two parts of the FileSystem class
    (diskimage/filesystem.py) an Item needs: the filesystem's own fields and
    get_file_handle, which Item.open calls. */
module Items {
  import opened Wrappers
  import opened Tsk

  /** A mounted filesystem (filesystem.py's FileSystem, a pytsk3.FS_Info):
      the byte offset it was mounted at, the type label get_filesystems gives
      it, its `parents` list (always empty: the constructor ignores its
      `parents` argument), and the volume the sleuth kit mounted there. */
  datatype FileSystem = FileSystem(offset: int, fstype: string, parents: seq<string>, volume: Volume)

  /** An Item. Every field the constructor leaves at None is an Option;
      `kind` is the `type` attribute, which only ever becomes "dir". */
  datatype Item = Item(
    name: Option<string>,
    path: Option<string>,
    kind: Option<string>,
    inode: Option<int>,
    parents: seq<string>,
    filesystem: Option<FileSystem>)

  /** Item(): every attribute None, and a list of parents of its own. */
  function NewItem(): (it: Item)
    ensures it.name.None? && it.path.None? && it.kind.None? && it.inode.None? && it.filesystem.None?
    ensures it.parents == []
  {
    Item(None, None, None, None, [], None)
  }

  /** Item.from_pytsk_item(filesystem, path, entry). */
  function FromPytskItem(fs: FileSystem, path: string, e: Entry): (r: Option<Item>)
    ensures r.None? <==> e.meta.None?
    ensures r.Some? ==>
      && r.value.filesystem == Some(fs)
      && r.value.path == Some(path)
      && r.value.name == Some(e.name)
      && r.value.inode == Some(e.meta.value.addr)
      && r.value.parents == []
      && (r.value.kind.Some? <==> e.meta.value.kind == TSK_FS_META_TYPE_DIR)
      && (r.value.kind.Some? ==> r.value.kind.value == "dir")
  {
    var i := NewItem().(filesystem := Some(fs), path := Some(path), name := Some(e.name));
    match e.meta
    case None => None
    case Some(meta) =>
      var typed := if meta.kind == TSK_FS_META_TYPE_DIR then i.(kind := Some("dir")) else i;
      Some(typed.(inode := Some(meta.addr)))
  }

  /** Which file get_file_handle opens. */
  datatype HandleKey = ByInode(addr: int) | ByPath(path: string)

  /** Python truthiness of the two optional arguments: None and 0 are false,
      and so are None and "". */
  predicate TruthyInt(x: Option<int>)
  {
    x.Some? && x.value != 0
  }

  predicate TruthyString(x: Option<string>)
  {
    x.Some? && x.value != ""
  }

  /** The branch get_file_handle takes: the inode wins over the path, and
      without either there is nothing to open. */
  function FileHandleKey(file: Option<string>, inode: Option<int>): (k: Option<HandleKey>)
    ensures TruthyInt(inode) ==> k == Some(ByInode(inode.value))
    ensures !TruthyInt(inode) && TruthyString(file) ==> k == Some(ByPath(file.value))
    ensures k.None? <==> !TruthyInt(inode) && !TruthyString(file)
  {
    if TruthyInt(inode) then Some(ByInode(inode.value))
    else if TruthyString(file) then Some(ByPath(file.value))
    else None
  }

  /** FileSystem.get_file_handle(file, inode): the pytsk3 File the returned
      ExtPytskFile wraps (opened by inode when one is given, by path
      otherwise), None when neither argument is given, and Raised when the
      sleuth kit cannot open the requested file. */
  function GetFileHandle(fs: FileSystem, file: Option<string>, inode: Option<int>): (r: Outcome<Option<TskFile>>)
    ensures r == Returned(None) <==> FileHandleKey(file, inode).None?
    ensures TruthyInt(inode) ==> r == (if OpenMeta(fs.volume, inode.value).Raised? then Raised
                                       else Returned(Some(OpenMeta(fs.volume, inode.value).value)))
    ensures !TruthyInt(inode) && TruthyString(file) ==>
      r == (if OpenPath(fs.volume, file.value).Raised? then Raised
            else Returned(Some(OpenPath(fs.volume, file.value).value)))
    ensures r.Returned? && r.value.Some? ==> FileHeight(r.value.value) < VolumeHeight(fs.volume)
  {
    match FileHandleKey(file, inode)
    case None => Returned(None)
    case Some(key) =>
      var found := match key
        case ByInode(addr) => OpenMeta(fs.volume, addr)
        case ByPath(path) => OpenPath(fs.volume, path);
      OpenedBelowVolume(fs.volume, if key.ByInode? then key.addr else 0, if key.ByPath? then key.path else "");
      match found
      case Raised => Raised
      case Returned(f) => Returned(Some(f))
  }

  /** Item.open(): the item's filesystem, asked by inode only (an item whose
      filesystem is still None cannot be opened: the attribute access raises). */
  function Open(it: Item): (r: Outcome<Option<TskFile>>)
    ensures it.filesystem.Some? ==> r == GetFileHandle(it.filesystem.value, None, it.inode)
    ensures it.filesystem.None? ==> r.Raised?
  {
    match it.filesystem
    case None => Raised
    case Some(fs) => GetFileHandle(fs, None, it.inode)
  }

  /** Opening depends on the filesystem and the inode alone: two items that
      agree on those open the same file, whatever their names, paths or
      ancestry. */
  lemma OpenKeyedByInode(a: Item, b: Item)
    requires a.filesystem == b.filesystem && a.inode == b.inode
    ensures Open(a) == Open(b)
  {
  }

  /** An item whose inode is 0 (or unset) has no handle: the path is never consulted. */
  lemma OpenWithoutInode(it: Item)
    requires it.filesystem.Some? && !TruthyInt(it.inode)
    ensures Open(it) == Returned(None)
  {
  }
}
