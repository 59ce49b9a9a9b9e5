/** The DiskImage class of diskimage/diskimage.py: its parents list, which
    get_items extends in place, the enumeration and search over its
    filesystems, and the two constructors from_items and from_file. */
module DiskImages {
  import opened Wrappers
  import opened Text
  import opened Tsk
  import opened Items
  import opened ImageTypes
  import opened FileSystems
  import opened Handles
  import opened Partitions
  import opened Enumeration

  /** A Python list of names: every holder of a reference sees its appends. */
  class ParentList {
    var items: seq<string>

    constructor (items: seq<string>)
      ensures this.items == items
    {
      this.items := items;
    }

    /** list.append(x) */
    method Append(x: string)
      modifies this
      ensures items == old(items) + [x]
    {
      items := items + [x];
    }
  }

  class DiskImage {
    const name: string
    const parents: ParentList
    var filesystems: Option<seq<FileSystem>>

    /** DiskImage(name, parents): no filesystems yet. */
    constructor (name: string, parents: ParentList)
      ensures this.name == name && this.parents == parents && filesystems == Some([])
    {
      this.name := name;
      this.parents := parents;
      filesystems := Some([]);
    }

    /** The filesystems get_items walks (none when `filesystems` is None). */
    function Fss(): seq<FileSystem>
      reads this
    {
      Walked(filesystems)
    }

    /** get_items(recursive): an image with filesystems first appends its own
      name to its parents list, in place; the items are those of ImageRun
      over the extended list. */
    method GetItems(recursive: bool, ewf: bool) returns (r: Outcome<seq<Item>>)
      modifies parents
      ensures Fss() == [] ==> parents.items == old(parents.items) && r == Returned([])
      ensures Fss() != [] ==> parents.items == old(parents.items) + [name]
      ensures r == ImageRun(parents.items, Fss(), recursive, ewf)
      decreases FssHeight(Fss()), 2, 0
    {
      var fss := Walked(filesystems);
      if fss == [] {
        return Returned([]);
      }
      parents.Append(name);
      var p := parents.items;
      var acc: seq<Item> := [];
      for i := 0 to |fss|
        invariant parents.items == p
        invariant FsRuns(p, fss, i, recursive, ewf) == Returned(acc)
      {
        FssHeightAtLeast(fss, i);
        var fsItems := FileSystemItems(p + [FsLabel(i)], fss[i], recursive, ewf);
        if fsItems.Raised? {
          FsRunsRaised(p, fss, i + 1, |fss|, recursive, ewf);
          return Raised;
        }
        acc := acc + fsItems.value;
      }
      r := Returned(acc);
    }

    /** The body of the loop over one filesystem in get_items: its whole
      listing, element by element. */
    static method FileSystemItems(fsparents: seq<string>, fs: FileSystem, recursive: bool, ewf: bool) returns (r: Outcome<seq<Item>>)
      ensures r == FsRun(fsparents, fs, recursive, ewf)
      decreases VolumeHeight(fs.volume), 1, 0
    {
      var ws := Walk(fs, "/", fs.volume.root, true);
      WalkYields(fs, "/", fs.volume.root, true);
      var acc: seq<Item> := [];
      for j := 0 to |ws|
        invariant ItemsRun(fsparents, fs, ws, j, recursive, ewf) == Returned(acc)
      {
        var one := ElementItems(fsparents, fs, ws[j], recursive, ewf);
        if one.Raised? {
          ItemsRunRaised(fsparents, fs, ws, j + 1, |ws|, recursive, ewf);
          return Raised;
        }
        acc := acc + one.value;
      }
      r := Returned(acc);
    }

    /** One element of a filesystem's listing in get_items: a None cannot be
      tagged; an item is tagged and yielded, then followed by the items of the
      image inside it when recursive and its name is a candidate. */
    static method ElementItems(fsparents: seq<string>, fs: FileSystem, w: Option<Item>, recursive: bool, ewf: bool) returns (r: Outcome<seq<Item>>)
      requires w.Some? ==> WalkedItem(fs, w.value)
      ensures r == ItemRun(fsparents, fs, w, recursive, ewf)
      decreases VolumeHeight(fs.volume), 0, 1
    {
      if w.None? {
        return Raised;
      }
      var item := w.value.(parents := fsparents);
      var acc := [item];
      if recursive && IsCandidate(item.name.value, ewf) {
        var nested := NestedItems(fsparents, fs, item, ewf);
        if nested.Raised? {
          return Raised;
        }
        acc := acc + nested.value;
      }
      r := Returned(acc);
    }

    /** The nested image of one candidate item: from_items([item]) with a
      copy of the filesystem's tag list, then its own get_items(). */
    static method NestedItems(fsparents: seq<string>, fs: FileSystem, t: Item, ewf: bool) returns (r: Outcome<seq<Item>>)
      requires t.filesystem == Some(fs) && t.name.Some?
      ensures r == NestedRun(fsparents, fs, t, ewf)
      decreases VolumeHeight(fs.volume), 0, 0
    {
      var diparents := new ParentList(fsparents);
      var made := FromItems([t], t.name.value, diparents, ewf);
      if made.Raised? || made.value == null {
        return Raised;
      }
      var di := made.value;
      if di.filesystems.None? || di.filesystems.value == [] {
        return Returned([]);
      }
      NestedBelow([t], t.name.value, ewf, fs);
      r := di.GetItems(true, ewf);
    }

    /** find(string, recursive, ignorecase, regex): the items of
      get_items(recursive) that match, in order. */
    method Find(s: string, recursive: bool, ignorecase: bool, regex: bool, matches: (string, bool, string) -> bool, ewf: bool)
      returns (r: Outcome<seq<Item>>)
      modifies parents
      ensures Fss() == [] ==> parents.items == old(parents.items)
      ensures Fss() != [] ==> parents.items == old(parents.items) + [name]
      ensures ImageRun(parents.items, Fss(), recursive, ewf).Raised? ==> r.Raised?
      ensures ImageRun(parents.items, Fss(), recursive, ewf).Returned? ==>
        var all := ImageRun(parents.items, Fss(), recursive, ewf).value;
        (forall it | it in all :: it.name.Some? && it.path.Some?) &&
        r == Returned(FindFrom(all, |all|, s, ignorecase, regex, matches))
    {
      var all := GetItems(recursive, ewf);
      if all.Raised? {
        return Raised;
      }
      ImageRunShape(parents.items, Fss(), recursive, ewf);
      var items := all.value;
      var found: seq<Item> := [];
      for k := 0 to |items|
        invariant found == FindFrom(items, k, s, ignorecase, regex, matches)
      {
        if Matches(items[k], s, ignorecase, regex, matches) {
          found := found + [items[k]];
        }
      }
      r := Returned(found);
    }

    /** from_items(items, imagename, parents): the image type is taken from
      the name, the handle from the items, the filesystems from the handle. */
    static method FromItems(items: seq<Item>, imagename: string, parents: ParentList, ewf: bool) returns (r: Outcome<DiskImage?>)
      ensures r.Raised? <==> FromItemsSpec(items, imagename, ewf).Raised?
      ensures r == Returned(null) <==> FromItemsSpec(items, imagename, ewf) == Returned(NoImage)
      ensures r.Returned? && r.value != null ==>
        && fresh(r.value) && r.value.name == imagename && r.value.parents == parents
        && FromItemsSpec(items, imagename, ewf) == Returned(Image(r.value.filesystems))
    {
      var di := new DiskImage(imagename, parents);
      var imagetype := GetImageType(di.name, ewf);
      var handle := GetImageHandle(items, imagetype, ewf);
      if handle.Raised? {
        return Raised;
      }
      if handle.value.None? {
        return Returned(null);
      }
      var found, _ := GetFilesystems(handle.value.value);
      if found.Raised? {
        return Raised;
      }
      di.filesystems := found.value;
      r := Returned(di);
    }

    /** The body of from_file(imagefile) for an image that receives the list
      `parents`: nothing when the path is not a file or no handle opens;
      otherwise an image named after the file's base name. */
    static method OpenFile(path: string, host: HostFile, ewf: bool, parents: ParentList) returns (r: Outcome<DiskImage?>)
      ensures r.Raised? <==> FromFileSpec(path, host, ewf).Raised?
      ensures r == Returned(null) <==> FromFileSpec(path, host, ewf) == Returned(NoImage)
      ensures r.Returned? && r.value != null ==>
        && fresh(r.value) && r.value.name == Basename(path) && r.value.parents == parents
        && FromFileSpec(path, host, ewf) == Returned(Image(r.value.filesystems))
    {
      var di := new DiskImage(Basename(path), parents);
      if !host.isFile {
        return Returned(null);
      }
      var imagetype := GetImageType(path, ewf);
      var handle := GetImageHandleFromFile(path, host, imagetype, ewf);
      if handle.Raised? {
        return Raised;
      }
      if handle.value.None? {
        return Returned(null);
      }
      var found, _ := GetFilesystems(handle.value.value);
      if found.Raised? {
        return Raised;
      }
      di.filesystems := found.value;
      r := Returned(di);
    }

    /** from_file as written: the image keeps the default `parents=[]` of
      DiskImage.__init__, one list object shared by every image built
      without an explicit list (`sharedDefault` stands for it). */
    static method FromFileAsWritten(path: string, host: HostFile, ewf: bool, sharedDefault: ParentList) returns (r: Outcome<DiskImage?>)
      ensures r.Raised? <==> FromFileSpec(path, host, ewf).Raised?
      ensures r == Returned(null) <==> FromFileSpec(path, host, ewf) == Returned(NoImage)
      ensures r.Returned? && r.value != null ==>
        && fresh(r.value) && r.value.name == Basename(path) && r.value.parents == sharedDefault
        && FromFileSpec(path, host, ewf) == Returned(Image(r.value.filesystems))
    {
      r := OpenFile(path, host, ewf, sharedDefault);
    }

    /** from_file with the default list made per image: every image starts
      with an empty parents list of its own. */
    static method FromFile(path: string, host: HostFile, ewf: bool) returns (r: Outcome<DiskImage?>)
      ensures r.Raised? <==> FromFileSpec(path, host, ewf).Raised?
      ensures r == Returned(null) <==> FromFileSpec(path, host, ewf) == Returned(NoImage)
      ensures r.Returned? && r.value != null ==>
        && fresh(r.value) && fresh(r.value.parents) && r.value.parents.items == []
        && r.value.name == Basename(path)
        && FromFileSpec(path, host, ewf) == Returned(Image(r.value.filesystems))
    {
      var own := new ParentList([]);
      r := OpenFile(path, host, ewf, own);
    }

    /** As written, listing one image changes another: two images opened
      from the same file share the default list, so after get_items on the
      first, the second (never listed) reports the first one's name as its
      parent instead of []. */
    static method SharedDefaultParents(path: string, host: HostFile, ewf: bool, sharedDefault: ParentList)
      returns (before: seq<string>, after: seq<string>)
      requires sharedDefault.items == []
      requires FromFileSpec(path, host, ewf).Returned? && FromFileSpec(path, host, ewf).value.Image?
      requires Walked(FromFileSpec(path, host, ewf).value.filesystems) != []
      modifies sharedDefault
      ensures before == [] && after == [Basename(path)]
    {
      var first := FromFileAsWritten(path, host, ewf, sharedDefault);
      var second := FromFileAsWritten(path, host, ewf, sharedDefault);
      before := second.value.parents.items;
      var _ := first.value.GetItems(true, ewf);
      after := second.value.parents.items;
    }

    /** With a list of its own per image, listing one image leaves every
      other image's parents as they were. */
    static method IndependentParents(path: string, host: HostFile, ewf: bool)
      returns (before: seq<string>, after: seq<string>)
      requires FromFileSpec(path, host, ewf).Returned? && FromFileSpec(path, host, ewf).value.Image?
      requires Walked(FromFileSpec(path, host, ewf).value.filesystems) != []
      ensures before == [] && after == []
    {
      var first := FromFile(path, host, ewf);
      var second := FromFile(path, host, ewf);
      before := second.value.parents.items;
      var _ := first.value.GetItems(true, ewf);
      after := second.value.parents.items;
    }
  }
}
