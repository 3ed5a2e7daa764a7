/** The collaborators VolumeGC relies on but does not implement: the blob
    reader that turns a disc image into a byte stream, the disc filesystem
    that locates a file on it, and the string, region, country and pixel
    helpers. Each is an oracle: the model fixes what it may return, not how. */
module External {
  import opened Enums

  /** A disc image as BlobReader delivers it: its logical bytes, and the
      positions the underlying container cannot deliver (a damaged sector,
      a truncated compressed block, ...). */
  datatype BlobReader = BlobReader(data: seq<u8>, faulty: set<nat>) {

    /** A read of `length` bytes at `offset` succeeds iff the range lies
        inside the image and touches no faulty byte. */
    predicate CanRead(offset: nat, length: nat) {
      offset + length <= |data| &&
      forall k :: offset <= k < offset + length ==> k !in faulty
    }

    /** BlobReader::Read: the requested bytes, or nothing if they cannot be read. */
    function Read(offset: nat, length: nat): (r: Option<seq<u8>>)
      ensures r.Some? <==> CanRead(offset, length)
      ensures r.Some? ==> |r.value| == length
    {
      if CanRead(offset, length) then Some(data[offset..offset + length]) else None
    }
  }

  /** A file of the disc filesystem: the size its directory entry records,
      and the bytes that can actually be read back from the disc. */
  datatype FileInfo = FileInfo(size: nat, contents: seq<u8>)

  /** The filesystem CreateFileSystem builds over a volume: a path index. */
  datatype FileSystem = FileSystem(files: map<string, FileInfo>) {

    /** FileSystem::FindFileInfo */
    function FindFileInfo(path: string): (r: Option<FileInfo>)
      ensures r.Some? <==> path in files
      ensures r.Some? ==> r.value == files[path]
    {
      if path in files then Some(files[path]) else None
    }
  }

  function Min(a: nat, b: nat): nat {
    if a <= b then a else b
  }

  /** ReadFile: reads at most `maxSize` bytes from the start of a file and
      returns what was read; its length is the count of bytes read, which
      falls short of the request when the disc cannot deliver the file. */
  function ReadFile(info: FileInfo, maxSize: nat): (r: seq<u8>)
    ensures |r| <= maxSize && |r| <= info.size && |r| <= |info.contents|
    ensures r == info.contents[..|r|]
    ensures |r| == Min(maxSize, info.size) <==> Min(maxSize, info.size) <= |info.contents|
  {
    info.contents[..Min(Min(maxSize, info.size), |info.contents|)]
  }

  /** The helpers VolumeGC calls whose code is not part of this model:
      DecodeString (fixed-width byte field to text), RegionSwitchGC and
      CountrySwitch (the lookup tables of the region byte), and
      ColorUtil::decode5A3image, given as the pixel it stores at each index
      of the output for a source image block of the given width and height. */
  datatype Helpers = Helpers(
    decodeString: seq<u8> -> string,
    regionSwitchGC: u8 -> Region,
    countrySwitch: u8 -> Country,
    decode5A3Pixel: (seq<u8>, int, int, nat) -> u32)
}
