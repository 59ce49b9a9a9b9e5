/** What DiskImage.get_items and DiskImage.find (diskimage/diskimage.py)
    yield, as values: the depth-first walk over every filesystem of an image,
    with each candidate item followed by the items of the image nested in it,
    and the search filter over that walk. DiskImage.from_items and from_file
    appear here as the outcome they produce. */
module Enumeration {
  import opened Wrappers
  import opened Text
  import opened Tsk
  import opened Items
  import opened ImageTypes
  import opened FileSystems
  import opened Handles
  import opened Partitions

  // ---------------------------------------------------------------------
  // from_items and from_file, as outcomes

  /** What from_items or from_file gives back: None (no image), or an image
      whose `filesystems` is the result of get_filesystems (itself None after
      a RuntimeError). */
  datatype Opened = NoImage | Image(filesystems: Option<seq<FileSystem>>)

  /** An image built over the handle a dispatcher returned. */
  function FromHandle(h: Outcome<Option<ImageHandle>>): (r: Outcome<Opened>)
    ensures r.Raised? <==> h.Raised? || (h.value.Some? && FilesystemsOf(h.value.value.media).Raised?)
    ensures r == Returned(NoImage) <==> h == Returned(None)
    ensures r.Returned? && r.value.Image? ==> h.Returned? && h.value.Some? && Returned(r.value.filesystems) == FilesystemsOf(h.value.value.media)
  {
    match h
    case Raised => Raised
    case Returned(None) => Returned(NoImage)
    case Returned(Some(handle)) =>
      match FilesystemsOf(handle.media)
      case Raised => Raised
      case Returned(fss) => Returned(Image(fss))
  }

  /** DiskImage.from_items(items, imagename): the image type comes from the
      name alone. */
  function FromItemsSpec(items: seq<Item>, imagename: string, ewf: bool): Outcome<Opened>
  {
    FromHandle(ImageHandleFromItems(items, GetImageType(imagename, ewf), ewf))
  }

  /** DiskImage.from_file(imagefile): nothing for a path that is not a file;
      otherwise the image type comes from the whole path. */
  function FromFileSpec(path: string, host: HostFile, ewf: bool): (r: Outcome<Opened>)
    ensures !host.isFile ==> r == Returned(NoImage)
    ensures host.isFile && ImageHandleFromFile(path, host, GetImageType(path, ewf), ewf) == Returned(None) ==> r == Returned(NoImage)
  {
    if !host.isFile then Returned(NoImage)
    else FromHandle(ImageHandleFromFile(path, host, GetImageType(path, ewf), ewf))
  }

  /** The filesystems get_items walks: `if self.filesystems` skips None and []. */
  function Walked(fss: Option<seq<FileSystem>>): seq<FileSystem>
  {
    if fss.Some? then fss.value else []
  }

  // ---------------------------------------------------------------------
  // Nesting depth: nested images are strictly smaller than the volume
  // holding them, which is why get_items ends.

  ghost function FssHeight(fss: seq<FileSystem>): nat
    decreases |fss|
  {
    if fss == [] then 0 else Max(FssHeight(fss[..|fss| - 1]), VolumeHeight(fss[|fss| - 1].volume))
  }

  lemma {:induction false} FssHeightAtLeast(fss: seq<FileSystem>, i: nat)
    requires i < |fss|
    ensures VolumeHeight(fss[i].volume) <= FssHeight(fss)
    decreases |fss|
  {
    if i < |fss| - 1 {
      FssHeightAtLeast(fss[..|fss| - 1], i);
    }
  }

  lemma {:induction false} FssHeightAtMost(fss: seq<FileSystem>, bound: nat)
    requires forall fs | fs in fss :: VolumeHeight(fs.volume) <= bound
    ensures FssHeight(fss) <= bound
    decreases |fss|
  {
    if fss != [] {
      FssHeightAtMost(fss[..|fss| - 1], bound);
    }
  }

  /** The filesystems of an image opened from items of a volume are all
      smaller than that volume. */
  lemma NestedBelow(items: seq<Item>, imagename: string, ewf: bool, fs: FileSystem)
    requires |items| > 0 && items[0].filesystem == Some(fs)
    ensures var r := FromItemsSpec(items, imagename, ewf);
      r.Returned? && r.value.Image? && r.value.filesystems.Some? ==> FssHeight(r.value.filesystems.value) < VolumeHeight(fs.volume)
  {
    var t := GetImageType(imagename, ewf);
    ItemsHandleBelow(items, t, ewf, fs);
    var h := ImageHandleFromItems(items, t, ewf);
    if h.Returned? && h.value.Some? {
      var m := h.value.value.media;
      FilesystemsOfImage(m);
      if FilesystemsOf(m).Returned? && FilesystemsOf(m).value.Some? {
        var fss := FilesystemsOf(m).value.value;
        forall other | other in fss
          ensures VolumeHeight(other.volume) <= MediaHeight(m)
        {
          MountedBelowMedia(m, other.volume);
        }
        FssHeightAtMost(fss, MediaHeight(m));
      }
    }
  }

  // ---------------------------------------------------------------------
  // get_items

  /** An item whose lower-cased name ends in one of EXTENSIONS is tried as a
      nested image. */
  predicate IsCandidate(name: string, ewf: bool)
  {
    EndsWithAny(Lower(name), Extensions(ewf))
  }

  /** The tag of the i-th filesystem of an image: 'fs' + str(i). */
  function FsLabel(i: nat): (r: string)
    ensures |r| > 2 && r[..2] == "fs"
    ensures ParseDecimal(r[2..]) == i
  {
    var digits := NatToString(i);
    ParseNatToString(i);
    assert ("fs" + digits)[2..] == digits;
    "fs" + digits
  }

  /** Filesystems get distinct tags. */
  lemma FsLabelInjective(i: nat, j: nat)
    requires FsLabel(i) == FsLabel(j)
    ensures i == j
  {
    assert FsLabel(i)[2..] == NatToString(i);
    assert FsLabel(j)[2..] == NatToString(j);
    NatToStringInjective(i, j);
  }

  /** DiskImage.get_items(recursive) of an image with filesystems `fss`,
      given `parents`, the image's parents list after its name was appended.
      An exception anywhere ends the whole enumeration. */
  function ImageRun(parents: seq<string>, fss: seq<FileSystem>, recursive: bool, ewf: bool): Outcome<seq<Item>>
    decreases FssHeight(fss), 3, 0, 0
  {
    FsRuns(parents, fss, |fss|, recursive, ewf)
  }

  /** The items of the first n filesystems, one after the other. */
  function FsRuns(parents: seq<string>, fss: seq<FileSystem>, n: nat, recursive: bool, ewf: bool): Outcome<seq<Item>>
    requires n <= |fss|
    decreases FssHeight(fss), 2, n, 0
  {
    if n == 0 then Returned([])
    else
      FssHeightAtLeast(fss, n - 1);
      Concat(FsRuns(parents, fss, n - 1, recursive, ewf), FsRun(parents + [FsLabel(n - 1)], fss[n - 1], recursive, ewf))
  }

  /** The items of one filesystem: its whole recursive listing from the root
      (recursive=True whatever the caller asked), each tagged with `fsparents`. */
  function FsRun(fsparents: seq<string>, fs: FileSystem, recursive: bool, ewf: bool): Outcome<seq<Item>>
    decreases VolumeHeight(fs.volume), 1, 0, 0
  {
    var ws := Walk(fs, "/", fs.volume.root, true);
    WalkYields(fs, "/", fs.volume.root, true);
    ItemsRun(fsparents, fs, ws, |ws|, recursive, ewf)
  }

  /** The items produced by the first n elements of a filesystem's listing. */
  function ItemsRun(fsparents: seq<string>, fs: FileSystem, ws: seq<Option<Item>>, n: nat, recursive: bool, ewf: bool): Outcome<seq<Item>>
    requires n <= |ws|
    requires forall w | w in ws :: w.Some? ==> WalkedItem(fs, w.value)
    decreases VolumeHeight(fs.volume), 0, n, 1
  {
    if n == 0 then Returned([])
    else Concat(ItemsRun(fsparents, fs, ws, n - 1, recursive, ewf), ItemRun(fsparents, fs, ws[n - 1], recursive, ewf))
  }

  /** One element of the listing: a None raises (its parents cannot be set);
      an item is yielded with the filesystem's tag, then, when recursive and
      its name is a candidate, the items of the image inside it. */
  function ItemRun(fsparents: seq<string>, fs: FileSystem, w: Option<Item>, recursive: bool, ewf: bool): Outcome<seq<Item>>
    requires w.Some? ==> WalkedItem(fs, w.value)
    decreases VolumeHeight(fs.volume), 0, 0, 1
  {
    match w
    case None => Raised
    case Some(it) =>
      var t := it.(parents := fsparents);
      if recursive && IsCandidate(t.name.value, ewf) then Concat(Returned([t]), NestedRun(fsparents, fs, t, ewf))
      else Returned([t])
  }

  /** DiskImage.from_items([t], imagename=t.name, parents=fsparents) and,
      when the image has filesystems, its get_items() (always recursive). An
      image that cannot be opened makes `di.filesystems` raise. */
  function NestedRun(fsparents: seq<string>, fs: FileSystem, t: Item, ewf: bool): Outcome<seq<Item>>
    requires t.filesystem == Some(fs) && t.name.Some?
    decreases VolumeHeight(fs.volume), 0, 0, 0
  {
    NestedBelow([t], t.name.value, ewf, fs);
    match FromItemsSpec([t], t.name.value, ewf)
    case Raised => Raised
    case Returned(NoImage) => Raised
    case Returned(Image(found)) =>
      if found.Some? && found.value != [] then ImageRun(fsparents + [t.name.value], found.value, true, ewf)
      else Returned([])
  }

  // ---------------------------------------------------------------------
  // Ancestry

  /** An item with a name, a path and a filesystem whose parents list
      starts with `p`. */
  ghost predicate Within(it: Item, p: seq<string>)
  {
    && it.name.Some? && it.path.Some? && it.filesystem.Some?
    && |it.parents| >= |p| && it.parents[..|p|] == p
  }

  lemma WithinShorter(it: Item, p: seq<string>, x: string)
    requires Within(it, p + [x])
    ensures Within(it, p) && |it.parents| > |p|
  {
    assert it.parents[..|p|] == it.parents[..|p| + 1][..|p|];
  }

  /** Every item of an image's enumeration descends from the image: its
      parents start with the image's parents and go at least one level
      further (the filesystem's tag). */
  lemma {:induction false} ImageRunShape(parents: seq<string>, fss: seq<FileSystem>, recursive: bool, ewf: bool)
    ensures var r := ImageRun(parents, fss, recursive, ewf);
      r.Returned? ==> forall it | it in r.value :: Within(it, parents) && |it.parents| > |parents|
    decreases FssHeight(fss), 3, 0, 0
  {
    FsRunsShape(parents, fss, |fss|, recursive, ewf);
  }

  lemma {:induction false} FsRunsShape(parents: seq<string>, fss: seq<FileSystem>, n: nat, recursive: bool, ewf: bool)
    requires n <= |fss|
    ensures var r := FsRuns(parents, fss, n, recursive, ewf);
      r.Returned? ==> forall it | it in r.value :: Within(it, parents) && |it.parents| > |parents|
    decreases FssHeight(fss), 2, n, 0
  {
    if n > 0 {
      FssHeightAtLeast(fss, n - 1);
      FsRunsShape(parents, fss, n - 1, recursive, ewf);
      var fsparents := parents + [FsLabel(n - 1)];
      FsRunShape(fsparents, fss[n - 1], recursive, ewf);
      var r := FsRun(fsparents, fss[n - 1], recursive, ewf);
      if r.Returned? {
        forall it | it in r.value
          ensures Within(it, parents) && |it.parents| > |parents|
        {
          WithinShorter(it, parents, FsLabel(n - 1));
        }
      }
    }
  }

  /** The items of one filesystem: the listing's own items carry exactly the
      filesystem's tag, nested items at least two levels more. */
  lemma {:induction false} FsRunShape(fsparents: seq<string>, fs: FileSystem, recursive: bool, ewf: bool)
    ensures var r := FsRun(fsparents, fs, recursive, ewf);
      r.Returned? ==> forall it | it in r.value :: Within(it, fsparents) && |it.parents| != |fsparents| + 1
    decreases VolumeHeight(fs.volume), 1, 0, 0
  {
    var ws := Walk(fs, "/", fs.volume.root, true);
    WalkYields(fs, "/", fs.volume.root, true);
    ItemsRunShape(fsparents, fs, ws, |ws|, recursive, ewf);
  }

  lemma {:induction false} ItemsRunShape(fsparents: seq<string>, fs: FileSystem, ws: seq<Option<Item>>, n: nat, recursive: bool, ewf: bool)
    requires n <= |ws|
    requires forall w | w in ws :: w.Some? ==> WalkedItem(fs, w.value)
    ensures var r := ItemsRun(fsparents, fs, ws, n, recursive, ewf);
      r.Returned? ==> forall it | it in r.value :: Within(it, fsparents) && |it.parents| != |fsparents| + 1
    decreases VolumeHeight(fs.volume), 0, n, 1
  {
    if n > 0 {
      ItemsRunShape(fsparents, fs, ws, n - 1, recursive, ewf);
      ItemRunShape(fsparents, fs, ws[n - 1], recursive, ewf);
    }
  }

  /** Each item comes first, with the filesystem's tag as its parents; what
      follows it is there only when recursive and the name is a candidate,
      and lies in the image named after the item. */
  lemma {:induction false} ItemRunShape(fsparents: seq<string>, fs: FileSystem, w: Option<Item>, recursive: bool, ewf: bool)
    requires w.Some? ==> WalkedItem(fs, w.value)
    ensures var r := ItemRun(fsparents, fs, w, recursive, ewf);
      r.Returned? ==>
        && w.Some? && |r.value| >= 1 && r.value[0] == w.value.(parents := fsparents)
        && (|r.value| > 1 ==> recursive && IsCandidate(w.value.name.value, ewf))
        && (forall k | 1 <= k < |r.value| :: Within(r.value[k], fsparents + [w.value.name.value]))
        && (forall it | it in r.value :: Within(it, fsparents) && |it.parents| != |fsparents| + 1)
    decreases VolumeHeight(fs.volume), 0, 0, 1
  {
    var r := ItemRun(fsparents, fs, w, recursive, ewf);
    if r.Returned? {
      var t := w.value.(parents := fsparents);
      if recursive && IsCandidate(t.name.value, ewf) {
        NestedRunShape(fsparents, fs, t, ewf);
        var nested := NestedRun(fsparents, fs, t, ewf);
        assert r.value == [t] + nested.value;
        forall k | 1 <= k < |r.value|
          ensures Within(r.value[k], fsparents + [t.name.value])
          ensures Within(r.value[k], fsparents) && |r.value[k].parents| != |fsparents| + 1
        {
          assert r.value[k] == nested.value[k - 1];
          WithinShorter(r.value[k], fsparents, t.name.value);
        }
      }
    }
  }

  lemma {:induction false} NestedRunShape(fsparents: seq<string>, fs: FileSystem, t: Item, ewf: bool)
    requires t.filesystem == Some(fs) && t.name.Some?
    ensures var r := NestedRun(fsparents, fs, t, ewf);
      r.Returned? ==> forall it | it in r.value :: Within(it, fsparents + [t.name.value]) && |it.parents| > |fsparents| + 1
    decreases VolumeHeight(fs.volume), 0, 0, 0
  {
    NestedBelow([t], t.name.value, ewf, fs);
    var o := FromItemsSpec([t], t.name.value, ewf);
    if o.Returned? && o.value.Image? && o.value.filesystems.Some? && o.value.filesystems.value != [] {
      ImageRunShape(fsparents + [t.name.value], o.value.filesystems.value, true, ewf);
    }
  }

  // ---------------------------------------------------------------------
  // Recursive and non-recursive enumeration

  /** The items whose parents list has exactly `depth` entries. */
  function Direct(items: seq<Item>, depth: nat): (r: seq<Item>)
    ensures |r| <= |items|
    ensures forall it | it in r :: it in items && |it.parents| == depth
  {
    if items == [] then []
    else (if |items[0].parents| == depth then [items[0]] else []) + Direct(items[1..], depth)
  }

  lemma {:induction false} DirectConcat(a: seq<Item>, b: seq<Item>, depth: nat)
    ensures Direct(a + b, depth) == Direct(a, depth) + Direct(b, depth)
  {
    if a == [] {
      assert a + b == b;
    } else {
      assert (a + b)[0] == a[0];
      assert (a + b)[1..] == a[1..] + b;
      DirectConcat(a[1..], b, depth);
    }
  }

  lemma {:induction false} DirectNone(items: seq<Item>, depth: nat)
    requires forall it | it in items :: |it.parents| != depth
    ensures Direct(items, depth) == []
  {
    if items != [] {
      DirectNone(items[1..], depth);
    }
  }

  /** Non-recursive get_items lists the same filesystems just as deeply (the
      filesystem walk is always recursive) and skips only the nested images:
      it yields exactly the items of the recursive enumeration that carry
      just one filesystem tag, in the same order. */
  lemma ImageRunFlat(parents: seq<string>, fss: seq<FileSystem>, ewf: bool)
    requires ImageRun(parents, fss, true, ewf).Returned?
    ensures ImageRun(parents, fss, false, ewf) == Returned(Direct(ImageRun(parents, fss, true, ewf).value, |parents| + 1))
  {
    FsRunsFlat(parents, fss, |fss|, ewf);
  }

  lemma {:induction false} FsRunsFlat(parents: seq<string>, fss: seq<FileSystem>, n: nat, ewf: bool)
    requires n <= |fss|
    requires FsRuns(parents, fss, n, true, ewf).Returned?
    ensures FsRuns(parents, fss, n, false, ewf) == Returned(Direct(FsRuns(parents, fss, n, true, ewf).value, |parents| + 1))
  {
    if n > 0 {
      var fsparents := parents + [FsLabel(n - 1)];
      FsRunsFlat(parents, fss, n - 1, ewf);
      FsRunFlat(fsparents, fss[n - 1], ewf);
      DirectConcat(FsRuns(parents, fss, n - 1, true, ewf).value, FsRun(fsparents, fss[n - 1], true, ewf).value, |parents| + 1);
    }
  }

  lemma FsRunFlat(fsparents: seq<string>, fs: FileSystem, ewf: bool)
    requires FsRun(fsparents, fs, true, ewf).Returned?
    ensures FsRun(fsparents, fs, false, ewf) == Returned(Direct(FsRun(fsparents, fs, true, ewf).value, |fsparents|))
  {
    var ws := Walk(fs, "/", fs.volume.root, true);
    WalkYields(fs, "/", fs.volume.root, true);
    ItemsRunFlat(fsparents, fs, ws, |ws|, ewf);
  }

  lemma {:induction false} ItemsRunFlat(fsparents: seq<string>, fs: FileSystem, ws: seq<Option<Item>>, n: nat, ewf: bool)
    requires n <= |ws|
    requires forall w | w in ws :: w.Some? ==> WalkedItem(fs, w.value)
    requires ItemsRun(fsparents, fs, ws, n, true, ewf).Returned?
    ensures ItemsRun(fsparents, fs, ws, n, false, ewf) == Returned(Direct(ItemsRun(fsparents, fs, ws, n, true, ewf).value, |fsparents|))
  {
    if n > 0 {
      ItemsRunFlat(fsparents, fs, ws, n - 1, ewf);
      ItemRunFlat(fsparents, fs, ws[n - 1], ewf);
      DirectConcat(ItemsRun(fsparents, fs, ws, n - 1, true, ewf).value, ItemRun(fsparents, fs, ws[n - 1], true, ewf).value, |fsparents|);
    }
  }

  lemma ItemRunFlat(fsparents: seq<string>, fs: FileSystem, w: Option<Item>, ewf: bool)
    requires w.Some? ==> WalkedItem(fs, w.value)
    requires ItemRun(fsparents, fs, w, true, ewf).Returned?
    ensures ItemRun(fsparents, fs, w, false, ewf) == Returned(Direct(ItemRun(fsparents, fs, w, true, ewf).value, |fsparents|))
  {
    var t := w.value.(parents := fsparents);
    assert Direct([t], |fsparents|) == [t];
    if IsCandidate(t.name.value, ewf) {
      var nested := NestedRun(fsparents, fs, t, ewf);
      NestedRunShape(fsparents, fs, t, ewf);
      DirectNone(nested.value, |fsparents|);
      DirectConcat([t], nested.value, |fsparents|);
    }
  }

  // ---------------------------------------------------------------------
  // An exception ends the enumeration

  lemma {:induction false} ItemsRunRaised(fsparents: seq<string>, fs: FileSystem, ws: seq<Option<Item>>, j: nat, n: nat, recursive: bool, ewf: bool)
    requires j <= n <= |ws|
    requires forall w | w in ws :: w.Some? ==> WalkedItem(fs, w.value)
    requires ItemsRun(fsparents, fs, ws, j, recursive, ewf).Raised?
    ensures ItemsRun(fsparents, fs, ws, n, recursive, ewf).Raised?
    decreases n
  {
    if j < n {
      ItemsRunRaised(fsparents, fs, ws, j, n - 1, recursive, ewf);
    }
  }

  lemma {:induction false} FsRunsRaised(parents: seq<string>, fss: seq<FileSystem>, j: nat, n: nat, recursive: bool, ewf: bool)
    requires j <= n <= |fss|
    requires FsRuns(parents, fss, j, recursive, ewf).Raised?
    ensures FsRuns(parents, fss, n, recursive, ewf).Raised?
    decreases n
  {
    if j < n {
      FsRunsRaised(parents, fss, j, n - 1, recursive, ewf);
    }
  }

  // ---------------------------------------------------------------------
  // find

  /** The rule find applies to one item: with `regex`, the pattern must match
      at the start of os.path.join(path, name) (`matches` stands for the
      regular-expression engine, told whether to ignore case); otherwise the
      name must equal the string, up to case when `ignorecase`. */
  predicate Matches(it: Item, s: string, ignorecase: bool, regex: bool, matches: (string, bool, string) -> bool)
    requires it.name.Some? && it.path.Some?
  {
    if regex then matches(s, ignorecase, PathJoin(it.path.value, it.name.value))
    else if ignorecase then Upper(it.name.value) == Upper(s)
    else it.name.value == s
  }

  /** The items of the first n that find yields, in order. */
  function FindFrom(items: seq<Item>, n: nat, s: string, ignorecase: bool, regex: bool, matches: (string, bool, string) -> bool): seq<Item>
    requires n <= |items|
    requires forall it | it in items :: it.name.Some? && it.path.Some?
  {
    if n == 0 then []
    else
      var earlier := FindFrom(items, n - 1, s, ignorecase, regex, matches);
      if Matches(items[n - 1], s, ignorecase, regex, matches) then earlier + [items[n - 1]] else earlier
  }

  /** find yields exactly the matching items of get_items, and nothing else. */
  lemma {:induction false} FindSelects(items: seq<Item>, n: nat, s: string, ignorecase: bool, regex: bool, matches: (string, bool, string) -> bool)
    requires n <= |items|
    requires forall it | it in items :: it.name.Some? && it.path.Some?
    ensures |FindFrom(items, n, s, ignorecase, regex, matches)| <= n
    ensures forall it | it in FindFrom(items, n, s, ignorecase, regex, matches) :: it in items[..n] && Matches(it, s, ignorecase, regex, matches)
    ensures forall k | 0 <= k < n && Matches(items[k], s, ignorecase, regex, matches) :: items[k] in FindFrom(items, n, s, ignorecase, regex, matches)
  {
    if n > 0 {
      FindSelects(items, n - 1, s, ignorecase, regex, matches);
      assert items[..n] == items[..n - 1] + [items[n - 1]];
    }
  }

  /** Without regex and with ignorecase, the case of the searched string does
      not matter: searching for it, its lower-case or its upper-case form
      yields the same items. */
  lemma {:induction false} FindIgnoresCase(items: seq<Item>, n: nat, s: string, matches: (string, bool, string) -> bool)
    requires n <= |items|
    requires forall it | it in items :: it.name.Some? && it.path.Some?
    ensures FindFrom(items, n, Lower(s), true, false, matches) == FindFrom(items, n, s, true, false, matches)
    ensures FindFrom(items, n, Upper(s), true, false, matches) == FindFrom(items, n, s, true, false, matches)
  {
    UpperForgetsCase(s);
    if n > 0 {
      FindIgnoresCase(items, n - 1, s, matches);
    }
  }
}
