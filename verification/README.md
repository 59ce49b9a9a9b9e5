# diskimage, modelled in Dafny

`diskimage` is a Python wrapper over the sleuth kit (pytsk3) and libewf
(pyewf) for working with forensic disk images. A `DiskImage` is opened from
a file on the host or from items inside another image. It finds the
filesystems in the image: one per partition of the partition table, or the
whole image when there is no table. `get_items` lists every file and
directory of every filesystem. When an item's name has a disk-image suffix,
the listing descends into the image stored in that item and tags every item
with the chain of images and filesystems it lies in (`parents`). `find`
filters that listing by name or by regular expression. `FileSystem` offers
the directory walk, the selection rule of `extract_files` and a file handle
`ExtPytskFile` that can seek.

The model treats the libraries as data. Module `Tsk` describes what the
sleuth kit and pyewf report:

- what reading the partition table gives: a table, a "cannot determine"
  error, a RuntimeError, or another OSError;
- which volumes mount at which byte offsets;
- the directory trees;
- the files reachable by inode and by path, with their bytes.

A file also records what the libraries find when its bytes are opened as an
image. That makes the modelled world a finite tree: in it the recursion
into nested images ends, by a ghost height measure rather than by fuel. The
source itself has no depth or cycle guard (see "Left out").

Python exceptions become `Outcome.Raised`, which propagates through the
generators. Python `None` becomes `Option`. Whether pyewf could be imported
is the parameter `ewf`.

Modules, following the source:

- `Text`: string and `os.path` helpers.
- `ImageTypes`: suffix lists, `get_imagetype`, `IsNTFS`.
- `Items`: `item.py`, plus `FileSystem.get_file_handle`.
- `FileSystems`: the rest of `filesystem.py`.
- `Handles`: `TSKFileSystemImage`, `get_imagehandle`, `get_imagehandle_from_file`.
- `Partitions`: `DiskImage.get_filesystems`.
- `Enumeration`: what `get_items` and `find` yield, as values.
- `DiskImages`: the `DiskImage` class itself, with its parents list as a
  shared mutable object.

Stateful code is imperative Dafny and is proved against the specification
functions:

- `ExtPytskFile` and `TSKFileSystemImage` are classes with a mutable offset
  or file object.
- `DiskImage.parents` is a `ParentList` object, so that Python's list
  aliasing is visible.
- The loops of `get_filesystems`, `extract_files`, the `find_diskimages`
  pattern builder, the two brute-force dispatchers, `get_items` and `find`
  are methods with loop invariants.

Where the code and its documentation differ, the model follows the code:

- `DiskImage.get_items` always lists every filesystem recursively. Its
  `recursive` argument only decides whether nested images are entered.
- `from_items` returning None inside `get_items` makes `di.filesystems`
  raise, so that case is `Raised` rather than skipped.
- In `get_filesystems`, an OSError with an unexpected message leaves the
  table variable unbound, so that case is modelled as `Raised`.

## Model

| member | source | states |
|---|---|---|
| Text.PathJoin | diskimage/filesystem.py:90 | os.path.join with POSIX rules: the joined path always ends with the joined name |
| Text.PathJoinExtends | diskimage/filesystem.py:90-91 | joining a plain name gives a strictly longer path that starts with the directory, so a subdirectory walk never revisits its own path |
| Text.Basename | diskimage/diskimage.py:191 | os.path.basename: the result contains no '/', ends the path, and is preceded by a '/' whenever it is shorter than the path |
| Text.UpperForgetsCase | diskimage/diskimage.py:113-115 | upper-casing erases whatever case the string had, which is why a case-insensitive search compares upper-cased names |
| Text.ParseNatToString | diskimage/diskimage.py:70 | str(i) round-trips through int(), so the per-filesystem tag carries its index |
| ImageTypes.Extensions | diskimage/diskimage.py:24-29 | EXTENSIONS starts with the raw suffixes, and a suffix is in it exactly when it is a raw suffix, or an EWF suffix with pyewf importable |
| ImageTypes.GetImageType | diskimage/diskimage.py:370-391 | EWF iff the lower-cased name ends in an EWF suffix; DD iff it does not but ends in a raw suffix; unknown otherwise |
| ImageTypes.ImageTypeIgnoresEwfSupport | diskimage/diskimage.py:382-386 | the classification is the same with and without pyewf; an EWF name is EWF even when pyewf is missing (only a warning is logged) |
| ImageTypes.ImageTypeDdExample | diskimage/tests/test_diskimage.py:115 | 'image.dd' is a raw image |
| ImageTypes.ImageTypeEwfExample | diskimage/tests/test_diskimage.py:116 | 'image.e01', and its upper-case spelling, is EWF |
| ImageTypes.ImageTypeUnknownExample | diskimage/tests/test_diskimage.py:117 | 'image.unknown' is of unknown type |
| ImageTypes.IsNtfs | diskimage/diskimage.py:357-367 | a filesystem is NTFS exactly when its type code is the NTFS code (NTFS and NTFS_DETECT share the value 1) |
| ImageTypes.IsNtfsExamples | diskimage/tests/test_diskimage.py:106-110 | the NTFS code is NTFS and type 0 is not |
| Tsk.Mount | diskimage/filesystem.py:21-34 | mounting at an offset gives a volume of the image located at that offset, and None exactly when there is none |
| Tsk.ReadRandom | diskimage/filesystem.py:282 | read_random never returns more bytes than asked, and returns the bytes at the offset when they exist |
| Items.NewItem | diskimage/item.py:18-24 | a new Item has every attribute None and an empty parents list of its own |
| Items.FromPytskItem | diskimage/item.py:27-48 | None exactly when the entry has no metadata; otherwise filesystem and path are copied, the name is the entry name, the inode is meta.addr, and type is 'dir' exactly when the meta type is DIR |
| Items.FileHandleKey | diskimage/filesystem.py:206-211 | a truthy inode wins over the path; the path is used only without one; nothing is opened exactly when neither is truthy |
| Items.GetFileHandle | diskimage/filesystem.py:196-212 | None exactly when neither argument is given; with an inode it is the open_meta result, otherwise with a path the open result, raising when that call raises; an opened file lies strictly inside the volume |
| Items.Open | diskimage/item.py:51-59 | opening asks the item's filesystem for its inode alone, and raises when the item has no filesystem |
| Items.OpenKeyedByInode | diskimage/item.py:59 | two items with the same filesystem and inode open the same file, whatever their name, path or parents |
| Items.OpenWithoutInode | diskimage/filesystem.py:206-211 | an item whose inode is 0 or unset opens to None: its path is never consulted |
| FileSystems.Walk | diskimage/filesystem.py:75-77 | a directory that cannot be opened yields a single None |
| FileSystems.WalkYields | diskimage/filesystem.py:78-84 | every yielded item belongs to the filesystem, carries the filesystem's parents, has a path and an inode, and is never "." or ".." |
| FileSystems.WalkStaysBelow | diskimage/filesystem.py:85-91 | with plain entry names, every yielded item's path starts with the starting path |
| FileSystems.SubtreeFollowsDirectory | diskimage/filesystem.py:84-91 | a recursive listing is in pre-order: a directory item comes first, then its whole subtree listed at the joined path, then the next sibling |
| FileSystems.FlatWalkListsEntries | diskimage/filesystem.py:78-84 | without recursion, every element of the listing is the item, with the filesystem's parents, of an entry that has metadata and is not "." or ".."; and every such entry has its item in the listing |
| FileSystems.FlatWalkStaysInDirectory | diskimage/filesystem.py:78-84 | without recursion the listing of an opened directory holds no None, only items located at that directory, at most one per entry |
| FileSystems.RecursiveWalkExtendsFlat | diskimage/filesystem.py:85-91 | keeping only the items located at the starting directory turns the recursive listing into the flat one, in the same order |
| FileSystems.DiskImagePattern | diskimage/filesystem.py:137-144 | the loop builds `.*\.(` + the suffixes without their dots, separated by vertical bars, + `)$` (and leaves the group open for an empty list) |
| FileSystems.AlternativesSplit | diskimage/filesystem.py:139-144 | splitting the alternatives at the vertical bars gives back exactly the undotted suffixes, in order |
| FileSystems.ExtractFiles | diskimage/filesystem.py:231-256 | the selection loop of extract_files yields exactly the specified selection in directory order ([] for an empty listing or [None]) |
| FileSystems.ExtractedExactly | diskimage/filesystem.py:237-255 | every extracted name comes from an allocated, regular, non-empty entry whose upper-cased name was requested (renamed only by make_uppercase), and every such entry is extracted |
| FileSystems.DeletedNeverExtracted | diskimage/filesystem.py:235-243 | an unallocated (deleted) entry is never extracted, even when requested: taking its record out of any listing, at any position, leaves the extracted names unchanged |
| FileSystems.ExtPytskFile.constructor | diskimage/filesystem.py:266-268 | a new handle wraps the file at offset 0 |
| FileSystems.ExtPytskFile.Read | diskimage/filesystem.py:273-282 | read returns read_random at the current offset and leaves the offset unchanged |
| FileSystems.ExtPytskFile.GetSize | diskimage/filesystem.py:284-290 | the size is the file's metadata size |
| FileSystems.ExtPytskFile.Seek | diskimage/filesystem.py:292-312 | no whence, SEEK_SET or any unknown whence sets the offset; SEEK_CUR adds to it; SEEK_END sets it to size minus offset |
| Handles.TSKFileSystemImage.constructor | diskimage/diskimage.py:233-253 | the image keeps the file-like object it was given |
| Handles.TSKFileSystemImage.Close | diskimage/diskimage.py:255-258 | close forgets the file-like object |
| Handles.TSKFileSystemImage.Read | diskimage/diskimage.py:260-271 | read(offset, size) returns the bytes at that absolute offset, whatever the object's previous position, and leaves it positioned there; it raises exactly when the image was closed |
| Handles.TSKFileSystemImage.GetSize | diskimage/diskimage.py:273-279 | the size is the wrapped file's size; it raises exactly when the image was closed |
| Handles.OpenAll | diskimage/diskimage.py:407 | opening every item raises iff one open raises; otherwise it gives one result per item, in order |
| Handles.ItemsHandleOfType | diskimage/diskimage.py:404-415 | EWF without pyewf raises; DD on no items raises; DD wraps the first item's handle (none when it has no handle); with pyewf, EWF gives the image recorded with the first file whenever every item opens to a file and pyewf accepts them, and any EWF handle comes from that first file |
| Handles.GetImageHandle | diskimage/diskimage.py:394-422 | the dispatcher and its brute-force loop give the handle of the given type, or for an unknown type the first of DD then EWF that raises or gives a handle |
| Handles.ItemsBruteForceDdFirst | diskimage/diskimage.py:416-421 | for an unknown type a DD handle wins whenever the item opens; EWF is tried only when DD gives nothing |
| Handles.InodelessItemGivesNoImage | diskimage/diskimage.py:405-415 | an item without an inode gives no DD handle, and the EWF and brute-force attempts raise |
| Handles.ItemsHandleBelow | diskimage/diskimage.py:410-413 | the image opened from an item lies strictly inside the item's volume, so nested images are always smaller |
| Handles.Segments | diskimage/diskimage.py:439-443 | a name with an EWF suffix is globbed; any other name is a single segment |
| Handles.FileHandleOfType | diskimage/diskimage.py:435-453 | EWF without pyewf gives None; with pyewf a glob that raises raises, segments pyewf opens give the EWF handle over the image it presents, and other segments give None; DD raises iff pytsk3 cannot open the file and otherwise gives the raw handle over what pytsk3 sees |
| Handles.GetImageHandleFromFile | diskimage/diskimage.py:425-460 | the dispatcher and its brute-force loop give the handle of the given type, or for an unknown type the first of EWF then DD that raises or gives a handle |
| Handles.FromFileNoneOnlyForEwf | diskimage/diskimage.py:450-460 | for the DD and unknown types get_imagehandle_from_file never gives None: it raises or returns a handle |
| Handles.FromFileEwfFailures | diskimage/diskimage.py:436-448 | an EWF name gives no handle iff pyewf is missing or cannot open the segments |
| Handles.FileBruteForceEwfFirst | diskimage/diskimage.py:454-459 | for an unknown type an EWF handle wins whenever pyewf opens the file; the raw open is used only otherwise, and always without pyewf |
| Partitions.FsType | diskimage/diskimage.py:159 | the label is "NTFS" exactly for NTFS volumes and "*unknown*" otherwise |
| Partitions.MountPartition | diskimage/diskimage.py:151-156 | a partition gives a filesystem mounted at start * 512 bytes, or nothing exactly when no volume mounts there |
| Partitions.WholeImage | diskimage/diskimage.py:164-176 | without a partition table, at most one filesystem is found |
| Partitions.FilesystemsOf | diskimage/diskimage.py:130-179 | get_filesystems raises exactly on an unexpected OSError and returns None exactly after a RuntimeError |
| Partitions.GetFilesystems | diskimage/diskimage.py:121-179 | the loop over the partitions computes the specified filesystems, and the handle is closed exactly after a RuntimeError |
| Partitions.SurvivorsSound | diskimage/diskimage.py:149-161 | every filesystem found was mounted from a partition of the table, at most one per partition |
| Partitions.SurvivorsComplete | diskimage/diskimage.py:149-161 | every partition where a filesystem mounts contributes that filesystem |
| Partitions.SurvivorsAtPartitionOffsets | diskimage/diskimage.py:149-161 | every filesystem found sits at the start sector of one of the partitions times 512 |
| Partitions.SurvivorIndicesExact | diskimage/diskimage.py:149-161 | the surviving table positions below n are exactly those whose partition mounts a filesystem |
| Partitions.SurvivorsInTableOrder | diskimage/diskimage.py:149-161 | for any table, shared start sectors included: the filesystems found are the mounts of the partitions at strictly increasing table positions, one filesystem per position, in table order |
| Partitions.SurvivorsAtIncreasingOffsets | diskimage/diskimage.py:149-161 | partitions at strictly increasing start sectors give filesystems at strictly increasing byte offsets |
| Partitions.FilesystemsOfImage | diskimage/diskimage.py:145-176 | every filesystem found is a volume of the image with no parents and the IsNTFS label, at offset 0 without a table (with a root that opens) and at a partition's byte offset with one |
| Partitions.WholeImageKeptIffRootOpens | diskimage/diskimage.py:163-176 | without a table, the whole image is dropped exactly when nothing mounts at offset 0 or its root directory cannot be opened |
| Enumeration.FromHandle | diskimage/diskimage.py:222-226 | no handle gives no image; a handle gives an image whose filesystems are get_filesystems of the handle; it raises exactly when the dispatcher or get_filesystems raises |
| Enumeration.FromFileSpec | diskimage/diskimage.py:191-202 | a path that is not a file, or one with no handle, gives no image |
| Enumeration.NestedBelow | diskimage/diskimage.py:78-81 | every filesystem of an image opened from an item lies strictly inside the item's volume in the finite world the model describes |
| Enumeration.FsLabel | diskimage/diskimage.py:70 | the tag of a filesystem is 'fs' followed by the decimal digits of its index, which parse back to that index |
| Enumeration.FsLabelInjective | diskimage/diskimage.py:69-70 | distinct filesystems of an image get distinct tags |
| Enumeration.ImageRunShape | diskimage/diskimage.py:65-81 | every item listed by an image descends from it: its parents start with the image's parents and add at least the filesystem tag |
| Enumeration.ItemRunShape | diskimage/diskimage.py:72-81 | each item is yielded with its filesystem's tags, and only a candidate name with recursion is followed by nested items, which all lie under the item's name |
| Enumeration.NestedRunShape | diskimage/diskimage.py:77-81 | the items of a nested image lie under the tags of the item that holds it |
| Enumeration.ImageRunFlat | diskimage/diskimage.py:53-81 | the non-recursive listing is exactly the recursive listing restricted to items at the image's own depth, in the same order |
| Enumeration.FindSelects | diskimage/diskimage.py:107-118 | find yields only listed items that match, and every listed item that matches |
| Enumeration.FindIgnoresCase | diskimage/diskimage.py:113-115 | a case-insensitive name search gives the same items for the string, its lower-case and its upper-case form |
| DiskImages.ParentList.Append | diskimage/diskimage.py:67 | list.append extends the list in place by one name |
| DiskImages.DiskImage.constructor | diskimage/diskimage.py:47-51 | a new image has the given name and parents list and no filesystems |
| DiskImages.DiskImage.GetItems | diskimage/diskimage.py:53-83 | an image with filesystems appends its own name to its parents list, in place; the items are the specified enumeration over the extended list; an image without filesystems yields nothing and changes nothing |
| DiskImages.DiskImage.FileSystemItems | diskimage/diskimage.py:68-73 | one filesystem's items are its whole recursive listing, each tagged and followed by its nested items |
| DiskImages.DiskImage.ElementItems | diskimage/diskimage.py:72-81 | one listing element: a None raises; an item is tagged and yielded, then followed by its nested image's items |
| DiskImages.DiskImage.NestedItems | diskimage/diskimage.py:77-81 | the nested image is opened from the item under a copy of the tags; it raises when it cannot be opened |
| DiskImages.DiskImage.Find | diskimage/diskimage.py:85-118 | find raises when the listing raises, and otherwise yields the matching items of get_items in order; the parents list changes as in get_items |
| DiskImages.DiskImage.FromItems | diskimage/diskimage.py:204-226 | from_items gives None, raises, or gives a fresh image named after imagename over the given list, exactly as the specification outcome says |
| DiskImages.DiskImage.OpenFile | diskimage/diskimage.py:182-202 | from_file gives None for a path that is not a file or has no handle; otherwise a fresh image named after the path's base name, whose filesystems are those found |
| DiskImages.DiskImage.FromFileAsWritten | diskimage/diskimage.py:191 | from_file as written: the image receives the one default parents list |
| DiskImages.DiskImage.FromFile | diskimage/diskimage.py:182-202 | from_file with a fresh, empty parents list per image |
| DiskImages.DiskImage.SharedDefaultParents | diskimage/diskimage.py:47-50 | as written, listing one image opened from a file changes the parents of another image opened from a file: [] becomes [its name] |
| DiskImages.DiskImage.IndependentParents | diskimage/diskimage.py:47-50 | with a list per image, listing one image leaves another image's parents at [] |

## Left out

- The sleuth kit and pyewf themselves (`Img_Info`, `Volume_Info`, `FS_Info`, `open_dir`, `open_meta`, `read_random`, `pyewf.glob`, `pyewf.handle`, `open_file_objects`). They are the data of module `Tsk` and the `HostFile` record, not code.
- The regular-expression engine: `find` takes it as the parameter `matches`, told the pattern, whether to ignore case, and the joined path.
- `os.path.join` follows POSIX rules only. `str.lower` and `str.upper` change only ASCII letters.
- `os.path.isfile`, the file system of the host and the set of segment files pyewf accepts are the `HostFile` record.
- Generators and laziness: an enumeration is a finite sequence. An exception discards the items yielded before it, and a consumer that stops early is not modelled.
- Logging, the command-line entry point (`__main__.py`) and packaging.
- The file writing of `extract_files`. Only the selection of names is modelled, over the listing as a parameter, because the source obtains that listing from `self.dir`, which `FileSystem` does not define.
- `FileSystem.find` calls `from_pytsk_item` with two arguments and cannot run. `find_diskimages` unpacks items as pairs, so only its pattern is modelled. `find_filesystems` calls a `DiskImage.from_bytes` that does not exist. `get_dirs` uses the missing `self.dir`.
- `FileSystem.get_directory` with an arbitrary path or inode: each directory entry carries the directory its inode opens to, and a listing starts from a given directory.
- `ExtPytskImg_Info` and `ewf_Img_Info` (read, get_size and close over pyewf): an EWF handle is the image pyewf presents.
- Handles.TSKFileSystemImage.constructor: takes a non-null object, so the `ValueError` for a falsy file object is not modelled.
- Handles.ItemsHandleOfType: a multi-segment EWF image opened from items is the image recorded with the first file; the other segments only have to open.
- Handles.FileHandleOfType: whether `pytsk3.Img_Info` accepts a host file is given by the record.
- FileSystems.Walk: when the directory cannot be opened, the listing stops after its None. The source then raises (iterating None) at the top level; below the top level the error is caught. Every consumer in the model raises on that None anyway.
- Nested images that contain themselves, or nest without end: the model's world is a finite tree of subterms, so such nesting cannot be stated. `get_items` (diskimage/diskimage.py:78-81) has no depth or cycle guard and would recurse forever there. Likewise a directory tree that loops back on itself (a corrupt filesystem) cannot be stated by `Dir`; on it `FileSystem.get_items` (diskimage/filesystem.py:85-88) recurses until Python's RecursionError, which its `except Exception` catches.
- Decoding entry names as UTF-8 (diskimage/item.py:41, diskimage/filesystem.py:246): names are already text here. A name that is not valid UTF-8 makes the source raise `UnicodeDecodeError`; at the top of a listing that ends the listing, in a subdirectory of a recursive listing the error is caught and the walk goes on with the next sibling.
- Partitions.GetFilesystems: IOError is an alias of OSError in Python 3, so the "cannot determine" OSError and the unexpected OSError are the only OSError cases. Closing the handle is reported through `closesHandle`.

## Findings

| source | as written | input that shows it | evidently intended | confidence | as-written member | corrected member |
|---|---|---|---|---|---|---|
| diskimage/diskimage.py:47 | `DiskImage.__init__` has the mutable default `parents=[]`; `from_file` passes no list, so every image opened from a file shares one list, and `get_items` appends to it in place (lines 66-67) | open two images with `from_file` on the same image file that has a filesystem, then list the first with `get_items`: the second image's `parents` becomes `[name]` instead of `[]` (this is the state `test_diskimage_meta` asserts is `[]` after the listing tests) | every image built without an explicit list starts with an empty list of its own | not executed | DiskImages.DiskImage.SharedDefaultParents | DiskImages.DiskImage.IndependentParents |
