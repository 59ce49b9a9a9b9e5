/** The FileSystem class of diskimage/filesystem.py: the recursive listing
    (get_items), the pattern find_diskimages searches for, the selection rule
    of extract_files, and the seekable file handle ExtPytskFile. */
module FileSystems {
  import opened Wrappers
  import opened Text
  import opened Tsk
  import opened Items

  // ---------------------------------------------------------------------
  // get_items

  /** FileSystem.get_items(path, recursive) over the directory `d` that
      get_directory resolved for `path`. A directory that cannot be opened
      yields None first (at the top of a listing the generator then fails;
      below the top the exception is caught and the walk continues with the
      next sibling, which is what the recursive case here does). Entries
      without metadata and the entries "." and ".." are dropped; every item
      is given the filesystem's parents; with `recursive`, a directory is
      followed at once by its whole subtree, listed at the joined path. */
  function Walk(fs: FileSystem, path: string, d: Dir, recursive: bool): (r: seq<Option<Item>>)
    ensures d.Unresolvable? ==> r == [None]
    decreases d, 1
  {
    match d
    case Unresolvable => [None]
    case Listing(_) => WalkFrom(fs, path, d, 0, recursive)
  }

  /** The items of the entries of `d` from the k-th on. */
  function WalkFrom(fs: FileSystem, path: string, d: Dir, k: nat, recursive: bool): seq<Option<Item>>
    requires d.Listing? && k <= |d.entries|
    decreases d, 0, |d.entries| - k, 1
  {
    if k == |d.entries| then []
    else EntryItems(fs, path, d, k, recursive) + WalkFrom(fs, path, d, k + 1, recursive)
  }

  /** What the k-th entry of `d` contributes: nothing, or its item followed
      (when recursive and a directory) by the walk of its subdirectory. */
  function EntryItems(fs: FileSystem, path: string, d: Dir, k: nat, recursive: bool): seq<Option<Item>>
    requires d.Listing? && k < |d.entries|
    decreases d, 0, |d.entries| - k, 0
  {
    var e := d.entries[k];
    match FromPytskItem(fs, path, e)
    case None => []
    case Some(it) =>
      var item := it.(parents := fs.parents);
      if e.name in [".", ".."] then []
      else if recursive && item.kind == Some("dir") then
        [Some(item)] + Walk(fs, PathJoin(path, e.name), e.sub, recursive)
      else [Some(item)]
  }

  /** What an item yielded by a filesystem's walk looks like. */
  ghost predicate WalkedItem(fs: FileSystem, it: Item)
  {
    && it.filesystem == Some(fs)
    && it.parents == fs.parents
    && it.name.Some? && it.name.value != "." && it.name.value != ".."
    && it.path.Some?
    && it.inode.Some?
  }

  /** Every item the walk yields belongs to the filesystem, carries the
      filesystem's parents, is never "." or "..", and was converted from an
      entry with metadata (it has an inode and a path). */
  lemma {:induction false} WalkYields(fs: FileSystem, path: string, d: Dir, recursive: bool)
    ensures forall w | w in Walk(fs, path, d, recursive) :: w.Some? ==> WalkedItem(fs, w.value)
    decreases d, 1
  {
    if d.Listing? {
      WalkFromYields(fs, path, d, 0, recursive);
    }
  }

  lemma {:induction false} WalkFromYields(fs: FileSystem, path: string, d: Dir, k: nat, recursive: bool)
    requires d.Listing? && k <= |d.entries|
    ensures forall w | w in WalkFrom(fs, path, d, k, recursive) :: w.Some? ==> WalkedItem(fs, w.value)
    decreases d, 0, |d.entries| - k
  {
    if k < |d.entries| {
      var e := d.entries[k];
      var here := EntryItems(fs, path, d, k, recursive);
      WalkFromYields(fs, path, d, k + 1, recursive);
      if FromPytskItem(fs, path, e).Some? && e.name !in [".", ".."] {
        var item := FromPytskItem(fs, path, e).value.(parents := fs.parents);
        if recursive && item.kind == Some("dir") {
          var sub := PathJoin(path, e.name);
          WalkYields(fs, sub, e.sub, recursive);
          assert here == [Some(item)] + Walk(fs, sub, e.sub, recursive);
        }
      }
    }
  }

  /** Every entry name is a plain, non-empty name (no leading '/'), in the
      directory and in every subdirectory below it. */
  ghost predicate PlainNames(d: Dir)
    decreases d
  {
    d.Listing? ==>
      forall k | 0 <= k < |d.entries| ::
        |d.entries[k].name| > 0 && d.entries[k].name[0] != '/' && PlainNames(d.entries[k].sub)
  }

  /** With plain entry names, every item lies at the starting path or below
      it: its path starts with the starting path. */
  lemma {:induction false} WalkStaysBelow(fs: FileSystem, path: string, d: Dir, recursive: bool)
    requires PlainNames(d)
    ensures forall w | w in Walk(fs, path, d, recursive) :: w.Some? ==> w.value.path.Some? && StartsWith(w.value.path.value, path)
    decreases d, 1
  {
    if d.Listing? {
      WalkFromStaysBelow(fs, path, d, 0, recursive);
    }
  }

  lemma {:induction false} WalkFromStaysBelow(fs: FileSystem, path: string, d: Dir, k: nat, recursive: bool)
    requires d.Listing? && k <= |d.entries| && PlainNames(d)
    ensures forall w | w in WalkFrom(fs, path, d, k, recursive) :: w.Some? ==> w.value.path.Some? && StartsWith(w.value.path.value, path)
    decreases d, 0, |d.entries| - k
  {
    if k < |d.entries| {
      var e := d.entries[k];
      var here := EntryItems(fs, path, d, k, recursive);
      WalkFromStaysBelow(fs, path, d, k + 1, recursive);
      if FromPytskItem(fs, path, e).Some? && e.name !in [".", ".."] {
        var item := FromPytskItem(fs, path, e).value.(parents := fs.parents);
        if recursive && item.kind == Some("dir") {
          var sub := PathJoin(path, e.name);
          PathJoinExtends(path, e.name);
          WalkStaysBelow(fs, sub, e.sub, recursive);
          assert here == [Some(item)] + Walk(fs, sub, e.sub, recursive);
          forall w | w in Walk(fs, sub, e.sub, recursive) && w.Some?
            ensures StartsWith(w.value.path.value, path)
          {
            StartsWithTransitive(w.value.path.value, sub, path);
          }
        }
      }
    }
  }

  /** Without `recursive`, the listing of a directory that opens holds only
      items (no None) and only items of that directory itself. */
  lemma {:induction false} FlatWalkStaysInDirectory(fs: FileSystem, path: string, d: Dir, k: nat)
    requires d.Listing? && k <= |d.entries|
    ensures forall w | w in WalkFrom(fs, path, d, k, false) :: w.Some? && w.value.path == Some(path)
    ensures |WalkFrom(fs, path, d, k, false)| <= |d.entries| - k
    decreases |d.entries| - k
  {
    if k < |d.entries| {
      FlatWalkStaysInDirectory(fs, path, d, k + 1);
    }
  }

  /** An entry get_items lists: it has metadata and is not "." or "..". */
  predicate Listed(e: Entry)
  {
    e.meta.Some? && e.name != "." && e.name != ".."
  }

  /** The item get_items yields for a listed entry of the directory at `path`. */
  function ListedItem(fs: FileSystem, path: string, e: Entry): (it: Item)
    requires Listed(e)
    ensures it.filesystem == Some(fs) && it.parents == fs.parents
    ensures it.path == Some(path) && it.name == Some(e.name) && it.inode == Some(e.meta.value.addr)
  {
    FromPytskItem(fs, path, e).value.(parents := fs.parents)
  }

  /** What a flat listing holds, both ways: every element is the item of a
      listed entry from the k-th on, and every listed entry from the k-th on
      has its item in the listing. */
  lemma {:induction false} FlatWalkListsEntries(fs: FileSystem, path: string, d: Dir, k: nat)
    requires d.Listing? && k <= |d.entries|
    ensures forall w | w in WalkFrom(fs, path, d, k, false) ::
      exists j | k <= j < |d.entries| :: Listed(d.entries[j]) && w == Some(ListedItem(fs, path, d.entries[j]))
    ensures forall j | k <= j < |d.entries| && Listed(d.entries[j]) ::
      Some(ListedItem(fs, path, d.entries[j])) in WalkFrom(fs, path, d, k, false)
    decreases |d.entries| - k
  {
    if k < |d.entries| {
      FlatWalkListsEntries(fs, path, d, k + 1);
      var e := d.entries[k];
      var here := EntryItems(fs, path, d, k, false);
      var rest := WalkFrom(fs, path, d, k + 1, false);
      assert WalkFrom(fs, path, d, k, false) == here + rest;
      if Listed(e) {
        assert here == [Some(ListedItem(fs, path, e))];
      } else {
        assert here == [];
      }
    }
  }

  /** A recursive listing is in pre-order: a directory item is followed at
      once by the whole listing of its subtree, every element of which lies
      below the directory's joined path, and only then by the next sibling. */
  lemma SubtreeFollowsDirectory(fs: FileSystem, path: string, d: Dir, k: nat)
    requires d.Listing? && k < |d.entries| && PlainNames(d)
    requires d.entries[k].meta.Some? && d.entries[k].meta.value.kind == TSK_FS_META_TYPE_DIR
    requires d.entries[k].name !in [".", ".."]
    ensures var here := EntryItems(fs, path, d, k, true);
      && WalkFrom(fs, path, d, k, true) == here + WalkFrom(fs, path, d, k + 1, true)
      && |here| >= 1 && here[0].Some?
      && here[0].value.name == Some(d.entries[k].name) && here[0].value.path == Some(path)
      && here[1..] == Walk(fs, PathJoin(path, d.entries[k].name), d.entries[k].sub, true)
      && forall w | w in here[1..] :: w.Some? ==>
           w.value.path.Some? && StartsWith(w.value.path.value, PathJoin(path, d.entries[k].name))
  {
    var e := d.entries[k];
    WalkStaysBelow(fs, PathJoin(path, e.name), e.sub, true);
  }

  /** The walk's elements that are items located exactly at `path`. */
  function AtPath(ws: seq<Option<Item>>, path: string): (r: seq<Option<Item>>)
    ensures |r| <= |ws|
  {
    if ws == [] then []
    else (if ws[0].Some? && ws[0].value.path == Some(path) then [ws[0]] else []) + AtPath(ws[1..], path)
  }

  lemma {:induction false} AtPathConcat(a: seq<Option<Item>>, b: seq<Option<Item>>, path: string)
    ensures AtPath(a + b, path) == AtPath(a, path) + AtPath(b, path)
  {
    if a != [] {
      assert (a + b)[0] == a[0];
      assert (a + b)[1..] == a[1..] + b;
      AtPathConcat(a[1..], b, path);
    } else {
      assert a + b == b;
    }
  }

  lemma {:induction false} AtPathNone(ws: seq<Option<Item>>, path: string)
    requires forall w | w in ws :: w.Some? ==> w.value.path.Some? && |w.value.path.value| > |path|
    ensures AtPath(ws, path) == []
  {
    if ws != [] {
      AtPathNone(ws[1..], path);
    }
  }

  /** One entry's contribution, kept to the items at the directory itself,
      is its flat contribution: the subtree lies strictly below. */
  lemma EntryAtPath(fs: FileSystem, path: string, d: Dir, k: nat)
    requires d.Listing? && k < |d.entries| && PlainNames(d)
    ensures AtPath(EntryItems(fs, path, d, k, true), path) == EntryItems(fs, path, d, k, false)
  {
    var e := d.entries[k];
    if FromPytskItem(fs, path, e).Some? && e.name !in [".", ".."] {
      var item := FromPytskItem(fs, path, e).value.(parents := fs.parents);
      assert AtPath([Some(item)], path) == [Some(item)];
      if item.kind == Some("dir") {
        var sub := PathJoin(path, e.name);
        PathJoinExtends(path, e.name);
        WalkStaysBelow(fs, sub, e.sub, true);
        assert forall w | w in Walk(fs, sub, e.sub, true) && w.Some? :: |w.value.path.value| >= |sub| > |path|;
        AtPathNone(Walk(fs, sub, e.sub, true), path);
        AtPathConcat([Some(item)], Walk(fs, sub, e.sub, true), path);
      }
    }
  }

  /** A recursive walk adds to the flat listing only items lying below the
      directory: keeping just the items located at the directory itself gives
      back the flat listing exactly, in the same order. */
  lemma {:induction false} RecursiveWalkExtendsFlat(fs: FileSystem, path: string, d: Dir, k: nat)
    requires d.Listing? && k <= |d.entries| && PlainNames(d)
    ensures AtPath(WalkFrom(fs, path, d, k, true), path) == WalkFrom(fs, path, d, k, false)
    decreases |d.entries| - k
  {
    if k < |d.entries| {
      RecursiveWalkExtendsFlat(fs, path, d, k + 1);
      EntryAtPath(fs, path, d, k);
      AtPathConcat(EntryItems(fs, path, d, k, true), WalkFrom(fs, path, d, k + 1, true), path);
    }
  }

  // ---------------------------------------------------------------------
  // find_diskimages: the search pattern

  /** extension[1:] */
  function Undotted(extension: string): string
  {
    if extension == [] then [] else extension[1..]
  }

  /** The alternation group: every extension without its first character,
      separated by '|'. */
  function Alternatives(extensions: seq<string>): string
    requires |extensions| > 0
  {
    if |extensions| == 1 then Undotted(extensions[0])
    else Alternatives(extensions[..|extensions| - 1]) + "|" + Undotted(extensions[|extensions| - 1])
  }

  /** The pattern find_diskimages builds from EXTENSIONS, one extension per
      loop step: ".*\.(" then the alternatives then ")$". */
  method DiskImagePattern(extensions: seq<string>) returns (pattern: string)
    ensures |extensions| > 0 ==> pattern == ".*\\.(" + Alternatives(extensions) + ")$"
    ensures |extensions| == 0 ==> pattern == ".*\\.("
  {
    pattern := ".*\\.(";
    var i := 0;
    while i < |extensions|
      invariant 0 <= i <= |extensions|
      invariant i == 0 ==> pattern == ".*\\.("
      invariant 0 < i < |extensions| ==> pattern == ".*\\.(" + Alternatives(extensions[..i]) + "|"
      invariant 0 < i == |extensions| ==> pattern == ".*\\.(" + Alternatives(extensions[..i]) + ")$"
    {
      assert extensions[..i + 1][..i] == extensions[..i];
      pattern := pattern + Undotted(extensions[i]);
      if i < |extensions| - 1 {
        pattern := pattern + "|";
      } else {
        pattern := pattern + ")$";
      }
      i := i + 1;
    }
    assert extensions[..|extensions|] == extensions;
  }

  /** str.split(sep): the pieces between occurrences of sep. */
  function Split(s: string, sep: char): (r: seq<string>)
    ensures |r| > 0
    decreases |s|
  {
    if sep !in s then [s]
    else
      var i := LastIndex(s, sep);
      Split(s[..i], sep) + [s[i + 1..]]
  }

  function LastIndex(s: string, c: char): (i: nat)
    requires c in s
    ensures i < |s| && s[i] == c && c !in s[i + 1..]
  {
    if s[|s| - 1] == c then |s| - 1
    else
      assert c in s[..|s| - 1] by {
        var j :| 0 <= j < |s| && s[j] == c;
        assert s[..|s| - 1][j] == c;
      }
      var i := LastIndex(s[..|s| - 1], c);
      assert s[i + 1..] == s[..|s| - 1][i + 1..] + [s[|s| - 1]];
      i
  }

  /** Splitting after a last separator: the pieces before it, then the tail. */
  lemma SplitLast(a: string, t: string, sep: char)
    requires sep !in t
    ensures Split(a + [sep] + t, sep) == Split(a, sep) + [t]
  {
    var s := a + [sep] + t;
    assert s[|a|] == sep;
    var i := LastIndex(s, sep);
    assert forall j | |a| < j < |s| :: s[j] == t[j - |a| - 1];
    assert forall j | i < j < |s| :: s[j] == s[i + 1..][j - i - 1];
    assert i == |a|;
    assert s[..i] == a && s[i + 1..] == t;
  }

  /** Every extension without its first character, in order. */
  function UndottedAll(extensions: seq<string>): (r: seq<string>)
    ensures |r| == |extensions|
  {
    if extensions == [] then []
    else UndottedAll(extensions[..|extensions| - 1]) + [Undotted(extensions[|extensions| - 1])]
  }

  /** Splitting the alternation group at '|' gives back exactly the
      extensions without their dots, in order (none of them contains '|'). */
  lemma {:induction false} AlternativesSplit(extensions: seq<string>)
    requires |extensions| > 0
    requires forall k | 0 <= k < |extensions| :: '|' !in Undotted(extensions[k])
    ensures Split(Alternatives(extensions), '|') == UndottedAll(extensions)
    decreases |extensions|
  {
    var n := |extensions|;
    if n == 1 {
      assert UndottedAll(extensions[..0]) == [];
    } else {
      var front := extensions[..n - 1];
      assert forall k | 0 <= k < |front| :: front[k] == extensions[k];
      AlternativesSplit(front);
      SplitLast(Alternatives(front), Undotted(extensions[n - 1]), '|');
    }
  }

  // ---------------------------------------------------------------------
  // extract_files: which names are selected

  /** name.flags & TSK_FS_NAME_FLAG_UNALLOC */
  predicate Unallocated(flags: nat)
  {
    (flags / TSK_FS_NAME_FLAG_UNALLOC) % 2 == 1
  }

  /** The upper-cased requested names. */
  function UpperAll(names: seq<string>): seq<string>
  {
    seq(|names|, k requires 0 <= k < |names| => Upper(names[k]))
  }

  /** An entry extract_files copies: it has metadata, its name is allocated,
      it is a regular file with a non-zero size, and its upper-cased name is
      among the upper-cased requested names. */
  predicate Selected(e: Entry, filenames: seq<string>)
  {
    && e.meta.Some?
    && !Unallocated(e.flags)
    && e.meta.value.kind == TSK_FS_META_TYPE_REG
    && e.meta.value.size != 0
    && Upper(e.name) in UpperAll(filenames)
  }

  function OutputName(e: Entry, makeUppercase: bool): string
  {
    if makeUppercase then Upper(e.name) else e.name
  }

  /** The names the loop appends for the first n records of the listing. */
  function ExtractedFrom(listing: seq<Option<Entry>>, filenames: seq<string>, makeUppercase: bool, n: nat): seq<string>
    requires n <= |listing|
  {
    if n == 0 then []
    else
      var earlier := ExtractedFrom(listing, filenames, makeUppercase, n - 1);
      match listing[n - 1]
      case Some(e) => if Selected(e, filenames) then earlier + [OutputName(e, makeUppercase)] else earlier
      case None => earlier
  }

  /** The selection loop of FileSystem.extract_files over the listing of the
      source directory (None stands for a record whose attribute access
      raises, which the loop skips). The files themselves are not written here. */
  method ExtractFiles(listing: seq<Option<Entry>>, filenames: seq<string>, makeUppercase: bool)
    returns (extracted: seq<string>)
    ensures extracted == ExtractedFrom(listing, filenames, makeUppercase, |listing|)
  {
    if listing == [] || listing == [None] {
      return [];
    }
    extracted := [];
    var upperNames := UpperAll(filenames);
    for i := 0 to |listing|
      invariant extracted == ExtractedFrom(listing, filenames, makeUppercase, i)
    {
      var record := listing[i];
      if record.None? || record.value.meta.None? {
        continue;
      }
      var e := record.value;
      if Unallocated(e.flags) {
        continue;
      }
      if e.meta.value.kind == TSK_FS_META_TYPE_REG && e.meta.value.size != 0 {
        var filename := e.name;
        if Upper(filename) in upperNames {
          if makeUppercase {
            filename := Upper(filename);
          }
          extracted := extracted + [filename];
        }
      }
    }
  }

  /** Every extracted name comes from a selected entry (allocated, regular,
      non-empty, requested up to case), renamed only by the upper-case option;
      and every selected entry is extracted. */
  lemma {:induction false} ExtractedExactly(listing: seq<Option<Entry>>, filenames: seq<string>, makeUppercase: bool, n: nat)
    requires n <= |listing|
    ensures forall x | x in ExtractedFrom(listing, filenames, makeUppercase, n) ::
      exists k :: 0 <= k < n && listing[k].Some? && Selected(listing[k].value, filenames)
        && x == OutputName(listing[k].value, makeUppercase)
    ensures forall k | 0 <= k < n && listing[k].Some? && Selected(listing[k].value, filenames) ::
      OutputName(listing[k].value, makeUppercase) in ExtractedFrom(listing, filenames, makeUppercase, n)
    ensures |ExtractedFrom(listing, filenames, makeUppercase, n)| <= n
  {
    if n > 0 {
      ExtractedExactly(listing, filenames, makeUppercase, n - 1);
    }
  }

  /** Extraction up to n looks only at the first n records. */
  lemma {:induction false} ExtractedFromPrefix(a: seq<Option<Entry>>, b: seq<Option<Entry>>, filenames: seq<string>, makeUppercase: bool, n: nat)
    requires n <= |a| && n <= |b| && a[..n] == b[..n]
    ensures ExtractedFrom(a, filenames, makeUppercase, n) == ExtractedFrom(b, filenames, makeUppercase, n)
  {
    if n > 0 {
      assert a[..n - 1] == a[..n][..n - 1] && b[..n - 1] == b[..n][..n - 1];
      assert a[n - 1] == a[..n][n - 1] && b[n - 1] == b[..n][n - 1];
      ExtractedFromPrefix(a, b, filenames, makeUppercase, n - 1);
    }
  }

  /** A deleted entry is never extracted, even when its name is requested:
      in any listing, taking out the record of an unallocated entry at any
      position leaves the extracted names unchanged. */
  lemma {:induction false} DeletedNeverExtracted(listing: seq<Option<Entry>>, j: nat, filenames: seq<string>, makeUppercase: bool, n: nat)
    requires j < n <= |listing|
    requires listing[j].Some? && Unallocated(listing[j].value.flags)
    ensures ExtractedFrom(listing[..j] + listing[j + 1..], filenames, makeUppercase, n - 1)
         == ExtractedFrom(listing, filenames, makeUppercase, n)
  {
    var removed := listing[..j] + listing[j + 1..];
    if n == j + 1 {
      assert removed[..j] == listing[..j];
      ExtractedFromPrefix(removed, listing, filenames, makeUppercase, j);
    } else {
      DeletedNeverExtracted(listing, j, filenames, makeUppercase, n - 1);
      assert removed[n - 2] == listing[n - 1];
    }
  }

  // ---------------------------------------------------------------------
  // ExtPytskFile

  const SEEK_SET: int := 0
  const SEEK_CUR: int := 1
  const SEEK_END: int := 2

  /** A file-like object over a pytsk3 File: an explicit offset that seek
      moves and read does not. */
  class ExtPytskFile {
    const handle: TskFile
    var offset: int

    constructor (handle: TskFile)
      ensures this.handle == handle && offset == 0
    {
      this.handle := handle;
      offset := 0;
    }

    /** read(size): read_random at the current offset; the offset stays put. */
    method Read(size: int) returns (data: seq<bv8>)
      ensures data == ReadRandom(handle, offset, size)
      ensures |data| <= if size < 0 then 0 else size
    {
      data := ReadRandom(handle, offset, size);
    }

    /** get_size(): the size in the file's metadata. */
    method GetSize() returns (size: int)
      ensures size == handle.size
    {
      size := handle.size;
    }

    /** seek(offset, *whence): without a whence, or with SEEK_SET or any
      value other than SEEK_CUR and SEEK_END, the offset is set; SEEK_CUR
      moves it; SEEK_END places it `offset` bytes before the end. Only the
      first whence argument is looked at. */
    method Seek(offset: int, whence: seq<int>)
      modifies this
      ensures |whence| == 0 ==> this.offset == offset
      ensures |whence| > 0 && whence[0] == SEEK_CUR ==> this.offset == old(this.offset) + offset
      ensures |whence| > 0 && whence[0] == SEEK_END ==> this.offset == handle.size - offset
      ensures |whence| > 0 && whence[0] != SEEK_CUR && whence[0] != SEEK_END ==> this.offset == offset
    {
      if |whence| == 0 {
        this.offset := offset;
      } else if whence[0] == SEEK_CUR {
        this.offset := this.offset + offset;
      } else if whence[0] == SEEK_END {
        var size := GetSize();
        this.offset := size - offset;
      } else {
        this.offset := offset;
      }
    }
  }
}
