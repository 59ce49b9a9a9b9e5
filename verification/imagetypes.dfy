/** Image-type classification by file name (diskimage/diskimage.py, module
    level and get_imagetype / IsNTFS). */
module ImageTypes {
  import opened Text

  /** IMAGE_UNKNOWN = 0, IMAGE_DD = 1, IMAGE_EWF = 2. */
  datatype ImageType = ImageUnknown | ImageDd | ImageEwf

  /** Raw images the sleuth kit opens directly. */
  const DD_EXTENSIONS: seq<string> := [".dd", ".000", ".001", ".00001", ".img"]

  /** Expert-witness segments, opened through pyewf. */
  const EWF_EXTENSIONS: seq<string> := [".e01", ".s01", ".ex01", ".lx01", ".l01"]

  /** EXTENSIONS: the EWF suffixes are appended only when pyewf could be imported. */
  function Extensions(ewf: bool): (r: seq<string>)
    ensures |r| >= |DD_EXTENSIONS| && r[..|DD_EXTENSIONS|] == DD_EXTENSIONS
    ensures forall x :: x in r <==> x in DD_EXTENSIONS || (ewf && x in EWF_EXTENSIONS)
  {
    if ewf then DD_EXTENSIONS + EWF_EXTENSIONS else DD_EXTENSIONS
  }

  /** get_imagetype: the EWF test runs first, then EXTENSIONS (which, with
      pyewf present, contains the EWF suffixes as well). */
  function GetImageType(filename: string, ewf: bool): (r: ImageType)
    ensures r == ImageEwf <==> EndsWithAny(Lower(filename), EWF_EXTENSIONS)
    ensures r == ImageDd <==>
      !EndsWithAny(Lower(filename), EWF_EXTENSIONS) && EndsWithAny(Lower(filename), DD_EXTENSIONS)
  {
    var name := Lower(filename);
    EndsWithAnyConcat(name, DD_EXTENSIONS, EWF_EXTENSIONS);
    if EndsWithAny(name, EWF_EXTENSIONS) then ImageEwf
    else if EndsWithAny(name, Extensions(ewf)) then ImageDd
    else ImageUnknown
  }

  /** A name with an EWF suffix is classified as EWF whether or not pyewf is
      installed: the classification never depends on library support. */
  lemma ImageTypeIgnoresEwfSupport(filename: string)
    ensures GetImageType(filename, true) == GetImageType(filename, false)
  {
  }

  /** A suffix whose last character differs from the string's last character does not end it. */
  lemma LastCharMismatch(s: string, suffixes: seq<string>)
    requires |s| > 0
    requires forall k | 0 <= k < |suffixes| :: |suffixes[k]| > 0 && suffixes[k][|suffixes[k]| - 1] != s[|s| - 1]
    ensures !EndsWithAny(s, suffixes)
  {
    forall k | 0 <= k < |suffixes| ensures !EndsWith(s, suffixes[k]) {
      var x := suffixes[k];
      if |x| <= |s| {
        assert s[|s| - |x|..][|x| - 1] == s[|s| - 1] != x[|x| - 1];
      }
    }
  }

  /** The test-suite classifies 'image.dd' as a raw image. */
  lemma ImageTypeDdExample(ewf: bool)
    ensures GetImageType("image.dd", ewf) == ImageDd
  {
    assert Lower("image.dd") == "image.dd";
    assert EndsWith("image.dd", DD_EXTENSIONS[0]);
    LastCharMismatch("image.dd", EWF_EXTENSIONS);
  }

  /** The test-suite classifies 'image.e01' as EWF; so is its upper-case spelling. */
  lemma ImageTypeEwfExample(ewf: bool)
    ensures GetImageType("image.e01", ewf) == ImageEwf
    ensures GetImageType("IMAGE.E01", ewf) == ImageEwf
  {
    assert Lower("image.e01") == "image.e01";
    assert Lower("IMAGE.E01") == "image.e01";
    assert EndsWith("image.e01", EWF_EXTENSIONS[0]);
  }

  /** The test-suite classifies 'image.unknown' as unknown. */
  lemma ImageTypeUnknownExample(ewf: bool)
    ensures GetImageType("image.unknown", ewf) == ImageUnknown
  {
    assert Lower("image.unknown") == "image.unknown";
    LastCharMismatch("image.unknown", EWF_EXTENSIONS);
    LastCharMismatch("image.unknown", DD_EXTENSIONS);
  }

  /** pytsk3.TSK_FS_TYPE_NTFS and TSK_FS_TYPE_NTFS_DETECT: the sleuth kit
      gives both the same code. */
  const TSK_FS_TYPE_NTFS: int := 0x1
  const TSK_FS_TYPE_NTFS_DETECT: int := 0x1

  /** IsNTFS: compares the mounted filesystem's ftype with the two NTFS codes. */
  function IsNtfs(ftype: int): (r: bool)
    ensures r <==> ftype == 1
  {
    ftype in [TSK_FS_TYPE_NTFS, TSK_FS_TYPE_NTFS_DETECT]
  }

  /** The test-suite's two cases: the NTFS code is NTFS, type 0 is not. */
  lemma IsNtfsExamples()
    ensures IsNtfs(TSK_FS_TYPE_NTFS)
    ensures !IsNtfs(0)
  {
  }
}
