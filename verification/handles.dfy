/** Image handles (diskimage/diskimage.py): the TSKFileSystemImage wrapper
    over an item's file handle, and the two dispatchers get_imagehandle (from
    items inside another image) and get_imagehandle_from_file (from a file of
    the host), each with its brute-force loop for an unknown image type. */
module Handles {
  import opened Wrappers
  import opened Text
  import opened Tsk
  import opened Items
  import opened ImageTypes
  import opened FileSystems

  /** Which wrapper a dispatcher hands back: ewf_Img_Info over a pyewf
      handle, TSKFileSystemImage over an item's file, or pytsk3.Img_Info
      over a host file. */
  datatype HandleKind = EwfImage | FileObjectImage | RawImage

  /** An image handle: its wrapper and what the sleuth kit sees through it. */
  datatype ImageHandle = ImageHandle(kind: HandleKind, media: Media)

  /** TSKFileSystemImage: an image whose bytes are read through a file-like
      object; close drops the object. */
  class TSKFileSystemImage {
    var fileObject: ExtPytskFile?

    constructor (fileObject: ExtPytskFile)
      ensures this.fileObject == fileObject
    {
      this.fileObject := fileObject;
    }

    /** close(): the file-like object is forgotten. */
    method Close()
      modifies this
      ensures fileObject == null
    {
      fileObject := null;
    }

    /** read(offset, size): seek to `offset` from the start, then read; the
      bytes are those at that offset whatever position the object had, and
      the object is left positioned at `offset`. After close there is no
      object to seek and the call raises (AttributeError). */
    method Read(offset: int, size: int) returns (r: Outcome<seq<bv8>>)
      modifies fileObject
      ensures r.Raised? <==> fileObject == null
      ensures fileObject != null ==>
        r == Returned(ReadRandom(fileObject.handle, offset, size)) && fileObject.offset == offset
    {
      if fileObject == null {
        return Raised;
      }
      fileObject.Seek(offset, [SEEK_SET]);
      var data := fileObject.Read(size);
      r := Returned(data);
    }

    /** get_size(): the size of the underlying file; raises after close. */
    method GetSize() returns (r: Outcome<int>)
      ensures r.Raised? <==> fileObject == null
      ensures fileObject != null ==> r == Returned(fileObject.handle.size)
    {
      if fileObject == null {
        return Raised;
      }
      var size := fileObject.GetSize();
      r := Returned(size);
    }
  }

  // ---------------------------------------------------------------------
  // get_imagehandle(items, imagetype)

  /** [item.open() for item in items]: Raised as soon as one open raises. */
  function OpenAll(items: seq<Item>): (r: Outcome<seq<Option<TskFile>>>)
    ensures r.Returned? ==> |r.value| == |items| && forall k | 0 <= k < |items| :: Open(items[k]) == Returned(r.value[k])
    ensures r.Raised? <==> exists k :: 0 <= k < |items| && Open(items[k]).Raised?
    decreases |items|
  {
    if items == [] then Returned([])
    else
      var front := items[..|items| - 1];
      assert forall k | 0 <= k < |front| :: front[k] == items[k];
      match OpenAll(front)
      case Raised => Raised
      case Returned(files) =>
        match Open(items[|items| - 1])
        case Raised => Raised
        case Returned(f) => Returned(files + [f])
  }

  /** One typed attempt of get_imagehandle. EWF: pyewf must be importable
      (otherwise the name pyewf is undefined), every item must open, and
      pyewf must accept the files, whose image is the one recorded with the
      first file. DD: the first item is opened and wrapped, with no check of
      its contents; an item that has no handle gives no image. */
  function ItemsHandleOfType(items: seq<Item>, t: ImageType, ewf: bool): (r: Outcome<Option<ImageHandle>>)
    requires t != ImageUnknown
    ensures t == ImageEwf && !ewf ==> r.Raised?
    ensures t == ImageDd && items == [] ==> r.Raised?
    ensures t == ImageDd && items != [] ==>
      r == match Open(items[0])
           case Raised => Raised
           case Returned(None) => Returned(None)
           case Returned(Some(f)) => Returned(Some(ImageHandle(FileObjectImage, f.asRaw)))
    ensures t == ImageEwf && r.Returned? ==>
      r.value.Some? && r.value.value.kind == EwfImage && items != [] &&
      Open(items[0]).Returned? && Open(items[0]).value.Some? &&
      Open(items[0]).value.value.asEwf == Some(r.value.value.media)
    ensures (t == ImageEwf && ewf && OpenAll(items).Returned? && OpenAll(items).value != [] &&
             None !in OpenAll(items).value && OpenAll(items).value[0].value.asEwf.Some?) ==>
      r == Returned(Some(ImageHandle(EwfImage, OpenAll(items).value[0].value.asEwf.value)))
  {
    if t == ImageEwf then
      if !ewf then Raised
      else
        match OpenAll(items)
        case Raised => Raised
        case Returned(files) =>
          if files == [] || None in files then Raised
          else
            match files[0].value.asEwf
            case None => Raised
            case Some(m) => Returned(Some(ImageHandle(EwfImage, m)))
    else if items == [] then Raised
    else
      match Open(items[0])
      case Raised => Raised
      case Returned(None) => Returned(None)
      case Returned(Some(f)) => Returned(Some(ImageHandle(FileObjectImage, f.asRaw)))
  }

  /** The brute-force order of get_imagehandle: DD first, then EWF. */
  const ITEMS_ORDER: seq<ImageType> := [ImageDd, ImageEwf]

  predicate KnownTypes(order: seq<ImageType>)
  {
    forall k | 0 <= k < |order| :: order[k] != ImageUnknown
  }

  /** The first attempt in `order` that raises or gives a handle. */
  function FirstItemsHandle(items: seq<Item>, order: seq<ImageType>, ewf: bool): (r: Outcome<Option<ImageHandle>>)
    requires KnownTypes(order)
    ensures order == [] ==> r == Returned(None)
  {
    if order == [] then Returned(None)
    else
      match ItemsHandleOfType(items, order[0], ewf)
      case Raised => Raised
      case Returned(Some(h)) => Returned(Some(h))
      case Returned(None) => FirstItemsHandle(items, order[1..], ewf)
  }

  /** get_imagehandle(items, imagetype). */
  function ImageHandleFromItems(items: seq<Item>, t: ImageType, ewf: bool): Outcome<Option<ImageHandle>>
  {
    if t == ImageUnknown then FirstItemsHandle(items, ITEMS_ORDER, ewf)
    else ItemsHandleOfType(items, t, ewf)
  }

  /** get_imagehandle, with its loop over the brute-force order. */
  method GetImageHandle(items: seq<Item>, t: ImageType, ewf: bool) returns (h: Outcome<Option<ImageHandle>>)
    ensures h == ImageHandleFromItems(items, t, ewf)
  {
    if t != ImageUnknown {
      return ItemsHandleOfType(items, t, ewf);
    }
    var order := ITEMS_ORDER;
    h := Returned(None);
    var i := 0;
    while i < |order|
      invariant 0 <= i <= |order|
      invariant FirstItemsHandle(items, order[i..], ewf) == FirstItemsHandle(items, order, ewf)
    {
      h := ItemsHandleOfType(items, order[i], ewf);
      if h.Raised? || h.value.Some? {
        return;
      }
      i := i + 1;
    }
  }

  /** For an unknown type, DD is tried first: an item that opens gives a
      TSKFileSystemImage even when the bytes are an EWF image, and EWF is
      tried only when the item has no handle. */
  lemma ItemsBruteForceDdFirst(items: seq<Item>, ewf: bool)
    ensures ItemsHandleOfType(items, ImageDd, ewf).Returned? && ItemsHandleOfType(items, ImageDd, ewf).value.Some? ==>
      ImageHandleFromItems(items, ImageUnknown, ewf) == ItemsHandleOfType(items, ImageDd, ewf)
    ensures ItemsHandleOfType(items, ImageDd, ewf) == Returned(None) ==>
      ImageHandleFromItems(items, ImageUnknown, ewf) == ItemsHandleOfType(items, ImageEwf, ewf)
  {
    assert ITEMS_ORDER[1..] == [ImageEwf];
    FirstItemsHandleSingle(items, ImageEwf, ewf);
  }

  lemma FirstItemsHandleSingle(items: seq<Item>, t: ImageType, ewf: bool)
    requires t != ImageUnknown
    ensures FirstItemsHandle(items, [t], ewf) == ItemsHandleOfType(items, t, ewf)
  {
    assert [t][1..] == [];
  }

  /** An item without an inode opens to nothing, so the DD attempt gives no
      image and the EWF attempt fails (pyewf cannot take a missing file). */
  lemma InodelessItemGivesNoImage(it: Item, ewf: bool)
    requires it.filesystem.Some? && !TruthyInt(it.inode)
    ensures ImageHandleFromItems([it], ImageDd, ewf) == Returned(None)
    ensures ImageHandleFromItems([it], ImageEwf, ewf).Raised?
    ensures ImageHandleFromItems([it], ImageUnknown, ewf).Raised?
  {
    OpenWithoutInode(it);
    ItemsBruteForceDdFirst([it], ewf);
  }

  /** The image behind a handle obtained from items lies strictly inside the
      volume the first item belongs to: nested images are always smaller. */
  lemma ItemsHandleBelow(items: seq<Item>, t: ImageType, ewf: bool, fs: FileSystem)
    requires |items| > 0 && items[0].filesystem == Some(fs)
    ensures var r := ImageHandleFromItems(items, t, ewf);
      r.Returned? && r.value.Some? ==> MediaHeight(r.value.value.media) < VolumeHeight(fs.volume)
  {
    forall t' | t' != ImageUnknown
      ensures var r := ItemsHandleOfType(items, t', ewf);
        r.Returned? && r.value.Some? ==> MediaHeight(r.value.value.media) < VolumeHeight(fs.volume)
    {
      var r := ItemsHandleOfType(items, t', ewf);
      if r.Returned? && r.value.Some? {
        var f := Open(items[0]).value.value;
        assert FileHeight(f) < VolumeHeight(fs.volume);
      }
    }
    if t == ImageUnknown {
      ItemsBruteForceDdFirst(items, ewf);
    }
  }

  // ---------------------------------------------------------------------
  // get_imagehandle_from_file(imagefile, imagetype)

  /** What the host and the libraries report about one path: whether it is a
      regular file, what pyewf.glob makes of it, which lists of segment names
      pyewf can open (and the image it then presents), and what
      pytsk3.Img_Info sees in the file. */
  datatype HostFile = HostFile(isFile: bool, glob: Outcome<seq<string>>, ewfImages: map<seq<string>, Media>, raw: Outcome<Media>)

  /** The segment names handed to pyewf: the glob of a name with an EWF
      suffix, otherwise the name alone. */
  function Segments(path: string, host: HostFile): (r: Outcome<seq<string>>)
    ensures !EndsWithAny(Lower(path), EWF_EXTENSIONS) ==> r == Returned([path])
    ensures EndsWithAny(Lower(path), EWF_EXTENSIONS) ==> r == host.glob
  {
    if EndsWithAny(Lower(path), EWF_EXTENSIONS) then host.glob else Returned([path])
  }

  /** One typed attempt of get_imagehandle_from_file. EWF without pyewf gives
      nothing; an EWF open that raises is caught and gives nothing; DD opens
      the file with pytsk3 directly. */
  function FileHandleOfType(path: string, host: HostFile, t: ImageType, ewf: bool): (r: Outcome<Option<ImageHandle>>)
    requires t != ImageUnknown
    ensures t == ImageEwf && !ewf ==> r == Returned(None)
    ensures t == ImageEwf && ewf && Segments(path, host).Returned? ==>
      (r == Returned(None) <==> Segments(path, host).value !in host.ewfImages)
    ensures t == ImageEwf && ewf && Segments(path, host).Raised? ==> r.Raised?
    ensures t == ImageEwf && ewf && Segments(path, host).Returned? && Segments(path, host).value in host.ewfImages ==>
      r == Returned(Some(ImageHandle(EwfImage, host.ewfImages[Segments(path, host).value])))
    ensures r.Returned? && r.value.Some? ==> r.value.value.kind == (if t == ImageEwf then EwfImage else RawImage)
    ensures t == ImageDd ==> (r.Raised? <==> host.raw.Raised?)
    ensures t == ImageDd && host.raw.Returned? ==> r == Returned(Some(ImageHandle(RawImage, host.raw.value)))
  {
    if t == ImageEwf then
      if !ewf then Returned(None)
      else
        match Segments(path, host)
        case Raised => Raised
        case Returned(filenames) =>
          if filenames in host.ewfImages then Returned(Some(ImageHandle(EwfImage, host.ewfImages[filenames])))
          else Returned(None)
    else
      match host.raw
      case Raised => Raised
      case Returned(m) => Returned(Some(ImageHandle(RawImage, m)))
  }

  /** The brute-force order of get_imagehandle_from_file: EWF first, then DD. */
  const FILE_ORDER: seq<ImageType> := [ImageEwf, ImageDd]

  function FirstFileHandle(path: string, host: HostFile, order: seq<ImageType>, ewf: bool): (r: Outcome<Option<ImageHandle>>)
    requires KnownTypes(order)
    ensures order == [] ==> r == Returned(None)
  {
    if order == [] then Returned(None)
    else
      match FileHandleOfType(path, host, order[0], ewf)
      case Raised => Raised
      case Returned(Some(h)) => Returned(Some(h))
      case Returned(None) => FirstFileHandle(path, host, order[1..], ewf)
  }

  /** get_imagehandle_from_file(imagefile, imagetype). */
  function ImageHandleFromFile(path: string, host: HostFile, t: ImageType, ewf: bool): Outcome<Option<ImageHandle>>
  {
    if t == ImageUnknown then FirstFileHandle(path, host, FILE_ORDER, ewf)
    else FileHandleOfType(path, host, t, ewf)
  }

  /** get_imagehandle_from_file, with its loop over the brute-force order. */
  method GetImageHandleFromFile(path: string, host: HostFile, t: ImageType, ewf: bool) returns (h: Outcome<Option<ImageHandle>>)
    ensures h == ImageHandleFromFile(path, host, t, ewf)
  {
    if t != ImageUnknown {
      return FileHandleOfType(path, host, t, ewf);
    }
    var order := FILE_ORDER;
    h := Returned(None);
    var i := 0;
    while i < |order|
      invariant 0 <= i <= |order|
      invariant FirstFileHandle(path, host, order[i..], ewf) == FirstFileHandle(path, host, order, ewf)
    {
      h := FileHandleOfType(path, host, order[i], ewf);
      if h.Raised? || h.value.Some? {
        return;
      }
      i := i + 1;
    }
  }

  /** The two ways get_imagehandle_from_file gives no handle for an EWF name:
      pyewf is missing, or pyewf cannot open the segments. */
  lemma FromFileEwfFailures(path: string, host: HostFile, ewf: bool)
    ensures !ewf ==> ImageHandleFromFile(path, host, ImageEwf, ewf) == Returned(None)
    ensures ewf && Segments(path, host).Returned? && Segments(path, host).value !in host.ewfImages ==>
      ImageHandleFromFile(path, host, ImageEwf, ewf) == Returned(None)
    ensures ImageHandleFromFile(path, host, ImageEwf, ewf) == Returned(None) ==>
      !ewf || (Segments(path, host).Returned? && Segments(path, host).value !in host.ewfImages)
  {
  }

  /** For an unknown type EWF is tried first, the reverse of the order used
      for items: a file pyewf opens gives an EWF handle even though pytsk3
      would open it too, and the raw open is used only otherwise. */
  lemma FileBruteForceEwfFirst(path: string, host: HostFile, ewf: bool)
    ensures FileHandleOfType(path, host, ImageEwf, ewf).Returned? && FileHandleOfType(path, host, ImageEwf, ewf).value.Some? ==>
      ImageHandleFromFile(path, host, ImageUnknown, ewf) == FileHandleOfType(path, host, ImageEwf, ewf)
    ensures FileHandleOfType(path, host, ImageEwf, ewf) == Returned(None) ==>
      ImageHandleFromFile(path, host, ImageUnknown, ewf) == FileHandleOfType(path, host, ImageDd, ewf)
    ensures !ewf ==> ImageHandleFromFile(path, host, ImageUnknown, ewf) == ImageHandleFromFile(path, host, ImageDd, ewf)
  {
    assert FILE_ORDER[1..] == [ImageDd];
    FirstFileHandleSingle(path, host, ImageDd, ewf);
  }

  /** get_imagehandle_from_file gives None only for the EWF type: the DD
      attempt either raises or returns pytsk3's image, and the brute-force
      search falls back on that attempt when its EWF attempt gives nothing. */
  lemma {:induction false} FromFileNoneOnlyForEwf(path: string, host: HostFile, t: ImageType, ewf: bool)
    requires t != ImageEwf
    ensures ImageHandleFromFile(path, host, t, ewf) != Returned(None)
  {
    if t == ImageUnknown {
      FileBruteForceEwfFirst(path, host, ewf);
    }
  }

  lemma FirstFileHandleSingle(path: string, host: HostFile, t: ImageType, ewf: bool)
    requires t != ImageUnknown
    ensures FirstFileHandle(path, host, [t], ewf) == FileHandleOfType(path, host, t, ewf)
  {
    assert [t][1..] == [];
  }
}
