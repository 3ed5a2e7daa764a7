/** DiscIO::VolumeGC, the reader of GameCube disc images: header fields read
    at fixed offsets, and banner texts and image loaded lazily, at most once,
    from opening.bnr. */
module DiscIO {
  import opened Enums
  import opened External
  import opened Banner

  /** The game ID returned when the ID cannot be read. */
  const NO_UID: string := "NO_UID"

  class VolumeGC {
    /** The blob reader the volume owns. */
    const reader: BlobReader
    /** What CreateFileSystem(this, PARTITION_NONE) yields for this disc. */
    const fileSystem: Option<FileSystem>
    /** DecodeString, RegionSwitchGC, CountrySwitch and decode5A3image. */
    const helpers: Helpers

    var bannerLoaded: bool
    var shortNames: map<Language, string>
    var shortMakers: map<Language, string>
    var longNames: map<Language, string>
    var longMakers: map<Language, string>
    var descriptions: map<Language, string>
    var imageBuffer: seq<u32>
    var imageWidth: int
    var imageHeight: int

    /** How many times LoadBannerFile went past its "already loaded" test. */
    ghost var loadAttempts: nat

    /** The five text maps of the volume, as one value. */
    function Maps(): BannerTexts
      reads this
    {
      BannerTexts(shortNames, shortMakers, longNames, longMakers, descriptions)
    }

    /** The banner-derived fields of the volume, as one value. */
    function Cache(): BannerCache
      reads this
    {
      BannerCache(Maps(), imageBuffer, imageWidth, imageHeight)
    }

    /** Before the first load the banner fields are empty; after it they hold
        what loading opening.bnr of this disc produces, and no second load
        has been attempted. */
    ghost predicate Valid()
      reads this
    {
      && loadAttempts == (if bannerLoaded then 1 else 0)
      && Cache() == (if bannerLoaded then LoadedCache(fileSystem, GetRegion(), helpers) else EMPTY_CACHE)
    }

    constructor (reader: BlobReader, fileSystem: Option<FileSystem>, helpers: Helpers)
      ensures Valid() && !bannerLoaded
      ensures this.reader == reader && this.fileSystem == fileSystem && this.helpers == helpers
      ensures Cache() == EMPTY_CACHE
    {
      this.reader := reader;
      this.fileSystem := fileSystem;
      this.helpers := helpers;
      bannerLoaded := false;
      shortNames, shortMakers, longNames, longMakers, descriptions := map[], map[], map[], map[], map[];
      imageBuffer := [];
      imageWidth, imageHeight := 0, 0;
      loadAttempts := 0;
    }

    /** VolumeGC::Read: GameCube discs have no partitions, so a read with any
        partition other than PARTITION_NONE fails; otherwise it is the
        reader's read. */
    function Read(offset: nat, length: nat, partition: Partition): (r: Option<seq<u8>>)
      ensures r.Some? <==> partition == PARTITION_NONE && reader.CanRead(offset, length)
      ensures r.Some? ==> r.value == reader.data[offset..offset + length]
    {
      if partition != PARTITION_NONE then None else reader.Read(offset, length)
    }

    /** ReadSwapped<u8>: one byte, for which byte swapping is the identity. */
    function ReadByte(offset: nat, partition: Partition): (r: Option<u8>)
      ensures r.Some? <==> partition == PARTITION_NONE && reader.CanRead(offset, 1)
      ensures r.Some? ==> r.value == reader.data[offset]
    {
      match Read(offset, 1, partition)
      case None => None
      case Some(bytes) => Some(bytes[0])
    }

    /** The 6-byte game ID at offset 0, or NO_UID if it cannot be read. */
    function GetGameID(partition: Partition): (id: string)
      ensures partition == PARTITION_NONE && reader.CanRead(0, 6) ==>
        id == helpers.decodeString(reader.data[0..6])
      ensures !(partition == PARTITION_NONE && reader.CanRead(0, 6)) ==> id == NO_UID
    {
      match Read(0, 6, partition)
      case None => NO_UID
      case Some(bytes) => helpers.decodeString(bytes)
    }

    /** The region looked up from byte 3, always read without a partition. */
    function GetRegion(): (region: Region)
      ensures reader.CanRead(3, 1) ==> region == helpers.regionSwitchGC(reader.data[3])
      ensures !reader.CanRead(3, 1) ==> region == UNKNOWN_REGION
    {
      match ReadByte(3, PARTITION_NONE)
      case None => UNKNOWN_REGION
      case Some(code) => helpers.regionSwitchGC(code)
    }

    /** The country looked up from byte 3. */
    function GetCountry(partition: Partition): (country: Country)
      ensures partition == PARTITION_NONE && reader.CanRead(3, 1) ==>
        country == helpers.countrySwitch(reader.data[3])
      ensures !(partition == PARTITION_NONE && reader.CanRead(3, 1)) ==> country == COUNTRY_UNKNOWN
    {
      match ReadByte(3, partition)
      case None => COUNTRY_UNKNOWN
      case Some(code) => helpers.countrySwitch(code)
    }

    /** The 2-byte maker ID at offset 4, or the empty string. */
    function GetMakerID(partition: Partition): (maker: string)
      ensures partition == PARTITION_NONE && reader.CanRead(4, 2) ==>
        maker == helpers.decodeString(reader.data[4..6])
      ensures !(partition == PARTITION_NONE && reader.CanRead(4, 2)) ==> maker == ""
    {
      match Read(0x4, 0x2, partition)
      case None => ""
      case Some(bytes) => helpers.decodeString(bytes)
    }

    /** The revision byte at offset 7, widened to u16 with the same value. */
    function GetRevision(partition: Partition): (revision: Option<u16>)
      ensures revision.Some? <==> partition == PARTITION_NONE && reader.CanRead(7, 1)
      ensures revision.Some? ==> revision.value as int == reader.data[7] as int
    {
      match ReadByte(7, partition)
      case None => None
      case Some(b) => Some(b as int as u16)
    }

    /** The 0x60-byte internal name at offset 0x20, or the empty string. */
    function GetInternalName(partition: Partition): (name: string)
      ensures partition == PARTITION_NONE && reader.CanRead(0x20, 0x60) ==>
        name == helpers.decodeString(reader.data[0x20..0x80])
      ensures !(partition == PARTITION_NONE && reader.CanRead(0x20, 0x60)) ==> name == ""
    {
      match Read(0x20, 0x60, partition)
      case Some(bytes) => helpers.decodeString(bytes)
      case None => ""
    }

    /** The 0x10-byte apploader date at offset 0x2440, or the empty string. */
    function GetApploaderDate(partition: Partition): (date: string)
      ensures partition == PARTITION_NONE && reader.CanRead(0x2440, 0x10) ==>
        date == helpers.decodeString(reader.data[0x2440..0x2450])
      ensures !(partition == PARTITION_NONE && reader.CanRead(0x2440, 0x10)) ==> date == ""
    {
      match Read(0x2440, 0x10, partition)
      case None => ""
      case Some(bytes) => helpers.decodeString(bytes)
    }

    /** The disc number byte at offset 6. */
    function GetDiscNumber(partition: Partition): (number: Option<u8>)
      ensures number.Some? <==> partition == PARTITION_NONE && reader.CanRead(6, 1)
      ensures number.Some? ==> number.value == reader.data[6]
    {
      ReadByte(6, partition)
    }

    /** Loads opening.bnr the first time it is called and does nothing after:
        the loaded flag is set before any gate, so a failed load is not
        retried either. */
    method LoadBannerFile()
      requires Valid()
      modifies this
      ensures Valid() && bannerLoaded && loadAttempts == 1
      ensures old(bannerLoaded) ==> unchanged(this)
      ensures Cache() == LoadedCache(fileSystem, GetRegion(), helpers)
    {
      if bannerLoaded {
        return;
      }
      bannerLoaded := true;
      loadAttempts := loadAttempts + 1;
      ghost var outcome := ReadBanner(fileSystem);

      if fileSystem.None? {
        assert outcome.Failed?;
        return;
      }
      var fileInfo := fileSystem.value.FindFileInfo(OPENING_BNR);
      if fileInfo.None? {
        assert outcome.Failed?;
        return;
      }
      var fileSize := fileInfo.value.size;
      if fileSize != BNR1_SIZE && fileSize != BNR2_SIZE {
        assert outcome.Failed?;
        return;  // WARN_LOG: invalid size
      }
      var bannerFile := ReadFile(fileInfo.value, fileSize);
      if |bannerFile| != fileSize {
        assert outcome.Failed?;
        return;  // WARN_LOG: could not read
      }

      var banner := ParseBanner(bannerFile);
      var isBnr1: bool;
      if banner.id == BNR1_MAGIC && fileSize == BNR1_SIZE {
        isBnr1 := true;
      } else if banner.id == BNR2_MAGIC && fileSize == BNR2_SIZE {
        isBnr1 := false;
      } else {
        assert outcome.Failed?;
        return;  // WARN_LOG: invalid type
      }
      assert outcome == Accepted(bannerFile, isBnr1);
      ExtractBannerInformation(banner, isBnr1);
    }

    /** Sets the image and its dimensions and inserts, for each language slot
        of the variant, every field whose decoded text is not empty. */
    method ExtractBannerInformation(bannerFile: GCBanner, isBnr1: bool)
      requires SlotCount(isBnr1) <= |bannerFile.information|
      modifies this`shortNames, this`shortMakers, this`longNames, this`longMakers,
               this`descriptions, this`imageBuffer, this`imageWidth, this`imageHeight
      ensures imageWidth == GC_BANNER_WIDTH && imageHeight == GC_BANNER_HEIGHT
      ensures imageBuffer == DecodedImage(bannerFile.image, helpers)
      ensures Maps() == InsertAll(old(Maps()), bannerFile.information, helpers.decodeString,
                                  StartLanguage(isBnr1, GetRegion()), SlotCount(isBnr1))
    {
      var numberOfLanguages: nat;
      var startLanguage: Language;
      if isBnr1 {
        var isJapanese := GetRegion() == NTSC_J;
        numberOfLanguages := 1;
        startLanguage := if isJapanese then LANGUAGE_JAPANESE else LANGUAGE_ENGLISH;
      } else {
        numberOfLanguages := 6;
        startLanguage := LANGUAGE_ENGLISH;
      }
      assert startLanguage == StartLanguage(isBnr1, GetRegion()) && numberOfLanguages == SlotCount(isBnr1);

      imageWidth := GC_BANNER_WIDTH;
      imageHeight := GC_BANNER_HEIGHT;
      imageBuffer := DecodedImage(bannerFile.image, helpers);

      var texts := InsertSlots(BannerTexts(shortNames, shortMakers, longNames, longMakers, descriptions),
                               bannerFile.information, helpers.decodeString, startLanguage, numberOfLanguages);
      shortNames, shortMakers, longNames, longMakers, descriptions :=
        texts.shortNames, texts.shortMakers, texts.longNames, texts.longMakers, texts.descriptions;
    }

    method GetShortNames() returns (names: map<Language, string>)
      requires Valid()
      modifies this
      ensures Valid() && bannerLoaded && (old(bannerLoaded) ==> unchanged(this))
      ensures names == LoadedCache(fileSystem, GetRegion(), helpers).texts.shortNames
    {
      LoadBannerFile();
      names := shortNames;
    }

    method GetLongNames() returns (names: map<Language, string>)
      requires Valid()
      modifies this
      ensures Valid() && bannerLoaded && (old(bannerLoaded) ==> unchanged(this))
      ensures names == LoadedCache(fileSystem, GetRegion(), helpers).texts.longNames
    {
      LoadBannerFile();
      names := longNames;
    }

    method GetShortMakers() returns (makers: map<Language, string>)
      requires Valid()
      modifies this
      ensures Valid() && bannerLoaded && (old(bannerLoaded) ==> unchanged(this))
      ensures makers == LoadedCache(fileSystem, GetRegion(), helpers).texts.shortMakers
    {
      LoadBannerFile();
      makers := shortMakers;
    }

    method GetLongMakers() returns (makers: map<Language, string>)
      requires Valid()
      modifies this
      ensures Valid() && bannerLoaded && (old(bannerLoaded) ==> unchanged(this))
      ensures makers == LoadedCache(fileSystem, GetRegion(), helpers).texts.longMakers
    {
      LoadBannerFile();
      makers := longMakers;
    }

    method GetDescriptions() returns (texts: map<Language, string>)
      requires Valid()
      modifies this
      ensures Valid() && bannerLoaded && (old(bannerLoaded) ==> unchanged(this))
      ensures texts == LoadedCache(fileSystem, GetRegion(), helpers).texts.descriptions
    {
      LoadBannerFile();
      texts := descriptions;
    }

    /** The banner image with its width and height. */
    method GetBanner() returns (image: seq<u32>, width: int, height: int)
      requires Valid()
      modifies this
      ensures Valid() && bannerLoaded && (old(bannerLoaded) ==> unchanged(this))
      ensures var c := LoadedCache(fileSystem, GetRegion(), helpers);
        image == c.image && width == c.width && height == c.height
      ensures |image| == width * height
    {
      LoadBannerFile();
      width := imageWidth;
      height := imageHeight;
      image := imageBuffer;
    }
  }

  /** The slot loop of ExtractBannerInformation: for i in 0 .. n-1, every
      field of record i whose decoded text is not empty is stored under
      language start + i. */
  method InsertSlots(texts0: BannerTexts, information: seq<GCBannerInformation>, decode: seq<u8> -> string,
                     start: Language, n: nat) returns (texts: BannerTexts)
    requires n <= |information|
    ensures texts == InsertAll(texts0, information, decode, start, n)
  {
    var names, makers, fullNames, fullMakers, descriptions :=
      texts0.shortNames, texts0.shortMakers, texts0.longNames, texts0.longMakers, texts0.descriptions;
    for i := 0 to n
      invariant BannerTexts(names, makers, fullNames, fullMakers, descriptions) ==
        InsertAll(texts0, information, decode, start, i)
    {
      var info := information[i];
      var language := start + i as Language;
      descriptions := InsertNonEmpty(descriptions, language, decode(info.description));
      names := InsertNonEmpty(names, language, decode(info.shortName));
      fullNames := InsertNonEmpty(fullNames, language, decode(info.longName));
      makers := InsertNonEmpty(makers, language, decode(info.shortMaker));
      fullMakers := InsertNonEmpty(fullMakers, language, decode(info.longMaker));
    }
    texts := BannerTexts(names, makers, fullNames, fullMakers, descriptions);
  }

  /** Two calls of a banner getter on one volume give the same result, and
      the second loads nothing: the volume's load counter stays at one. */
  method ShortNamesTwice(reader: BlobReader, fileSystem: Option<FileSystem>, helpers: Helpers)
    returns (volume: VolumeGC, first: map<Language, string>, second: map<Language, string>)
    ensures fresh(volume) && volume.reader == reader && volume.fileSystem == fileSystem && volume.helpers == helpers
    ensures volume.bannerLoaded && volume.loadAttempts == 1
    ensures first == LoadedCache(fileSystem, volume.GetRegion(), helpers).texts.shortNames
    ensures first == second
    ensures forall l :: l in first ==> first[l] != ""
  {
    volume := new VolumeGC(reader, fileSystem, helpers);
    first := volume.GetShortNames();
    second := volume.GetShortNames();
    LoadedTextsNonEmpty(volume.fileSystem, volume.GetRegion(), volume.helpers, ShortName);
    assert first == Texts(LoadedCache(volume.fileSystem, volume.GetRegion(), volume.helpers), ShortName);
  }

  /** The image is the same on every call and always width * height long. */
  method BannerTwice(reader: BlobReader, fileSystem: Option<FileSystem>, helpers: Helpers)
    returns (first: seq<u32>, second: seq<u32>, width: int, height: int)
    ensures first == second && |first| == width * height
    ensures first == [] <==> ReadBanner(fileSystem).Failed?
    ensures first != [] ==> width == GC_BANNER_WIDTH && height == GC_BANNER_HEIGHT
  {
    var volume := new VolumeGC(reader, fileSystem, helpers);
    var w1, h1;
    first, w1, h1 := volume.GetBanner();
    second, width, height := volume.GetBanner();
    LoadedImageIffAccepted(volume.fileSystem, volume.GetRegion(), volume.helpers);
  }

  /** Every banner getter, one after the other, on a fresh volume: all of
      them see the one load the first getter does. If opening.bnr fails any
      gate, every map and the image are empty and the dimensions are 0;
      otherwise the image is GC_BANNER_WIDTH x GC_BANNER_HEIGHT. */
  method AllBannerGetters(reader: BlobReader, fileSystem: Option<FileSystem>, helpers: Helpers)
    returns (descriptions: map<Language, string>, shortNames: map<Language, string>,
             longNames: map<Language, string>, shortMakers: map<Language, string>,
             longMakers: map<Language, string>, image: seq<u32>, width: int, height: int)
    ensures ReadBanner(fileSystem).Failed? ==>
      && descriptions == map[] && shortNames == map[] && longNames == map[]
      && shortMakers == map[] && longMakers == map[]
      && image == [] && width == 0 && height == 0
    ensures ReadBanner(fileSystem).Accepted? ==>
      width == GC_BANNER_WIDTH && height == GC_BANNER_HEIGHT && |image| == width * height
  {
    var volume := new VolumeGC(reader, fileSystem, helpers);
    descriptions := volume.GetDescriptions();
    shortNames := volume.GetShortNames();
    longNames := volume.GetLongNames();
    shortMakers := volume.GetShortMakers();
    longMakers := volume.GetLongMakers();
    image, width, height := volume.GetBanner();
  }

  /** When byte 3 cannot be read the region is UNKNOWN_REGION, so a BNR1
      banner's single slot is filed under English. */
  lemma UnreadableRegionMeansEnglish(volume: VolumeGC)
    requires !volume.reader.CanRead(3, 1)
    ensures StartLanguage(true, volume.GetRegion()) == LANGUAGE_ENGLISH
  {
  }
}
