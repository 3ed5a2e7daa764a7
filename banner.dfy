/** The GameCube banner file, opening.bnr, and what VolumeGC makes of it:
    the on-disc layout of its two variants (BNR1, one information record;
    BNR2, six), how a file is accepted or refused, and the five
    language-to-text maps and the image that loading it produces. These
    functions are the specification that VolumeGC.LoadBannerFile and
    VolumeGC.ExtractBannerInformation are proved against. */
module Banner {
  import opened Enums
  import opened External

  /** The path of the banner file in the disc filesystem. */
  const OPENING_BNR: string := "opening.bnr"

  const GC_BANNER_WIDTH: int := 96
  const GC_BANNER_HEIGHT: int := 32

  // Layout of GCBanner: u32 id, u32 padding[7], u16 image[96 * 32],
  // then GCBannerInformation records of 0x140 bytes each (the slot
  // arithmetic below writes 0x140 as a literal so that it stays linear).
  const IMAGE_OFFSET: nat := 0x20
  /** 96 x 32 pixels of two bytes each: 0x1800. */
  const IMAGE_SIZE: nat := GC_BANNER_WIDTH * GC_BANNER_HEIGHT * 2
  const INFO_OFFSET: nat := 0x1820
  /** A BNR1 file holds one information record, a BNR2 file six. */
  const BNR1_SIZE: nat := 0x1960
  const BNR2_SIZE: nat := 0x1FA0

  /** The id field holds the ASCII tag "BNR1" or "BNR2"; the source compares
      it, read as a host-order (little-endian) u32, with these values. */
  const BNR1_MAGIC: u32 := 0x31524e42
  const BNR2_MAGIC: u32 := 0x32524e42

  /** The five text fields of a GCBannerInformation record. */
  datatype InfoField = ShortName | ShortMaker | LongName | LongMaker | Description

  function FieldOffset(f: InfoField): nat {
    match f
    case ShortName => 0x00
    case ShortMaker => 0x20
    case LongName => 0x40
    case LongMaker => 0x80
    case Description => 0xC0
  }

  function FieldSize(f: InfoField): nat {
    match f
    case ShortName => 0x20
    case ShortMaker => 0x20
    case LongName => 0x40
    case LongMaker => 0x40
    case Description => 0x80
  }

  /** Number of language slots of each variant. */
  function SlotCount(isBnr1: bool): nat {
    if isBnr1 then 1 else 6
  }

  /** The exact file size of each variant. */
  function BannerSize(isBnr1: bool): (size: nat)
    ensures size == INFO_OFFSET + SlotCount(isBnr1) * 0x140
  {
    if isBnr1 then BNR1_SIZE else BNR2_SIZE
  }

  /** The blob holds the header, the image and `n` information records. */
  predicate HasSlots(blob: seq<u8>, n: nat) {
    INFO_OFFSET + n * 0x140 <= |blob|
  }

  /** The raw bytes of field `f` of information record `slot`. */
  function FieldBytes(blob: seq<u8>, slot: nat, f: InfoField): (r: seq<u8>)
    requires HasSlots(blob, slot + 1)
    ensures |r| == FieldSize(f)
  {
    var start := INFO_OFFSET + slot * 0x140 + FieldOffset(f);
    blob[start..start + FieldSize(f)]
  }

  /** The decoded text of field `f` of record `slot`. */
  function SlotText(blob: seq<u8>, decode: seq<u8> -> string, slot: nat, f: InfoField): string
    requires HasSlots(blob, slot + 1)
  {
    decode(FieldBytes(blob, slot, f))
  }

  /** The `id` field: the first four bytes as a little-endian u32. */
  function BannerId(blob: seq<u8>): (id: u32)
    requires |blob| >= 4
  {
    (blob[0] as int + 0x100 * blob[1] as int + 0x1_0000 * blob[2] as int
      + 0x100_0000 * blob[3] as int) as u32
  }

  /** The id field compares equal to BNR1_MAGIC exactly when the file starts
      with the ASCII tag "BNR1", and to BNR2_MAGIC exactly for "BNR2". */
  lemma BannerIdIsTag(blob: seq<u8>)
    requires |blob| >= 4
    ensures BannerId(blob) == BNR1_MAGIC <==> blob[..4] == [0x42, 0x4E, 0x52, 0x31]
    ensures BannerId(blob) == BNR2_MAGIC <==> blob[..4] == [0x42, 0x4E, 0x52, 0x32]
  {
    var tag := blob[..4];
    assert tag[0] == blob[0] && tag[1] == blob[1] && tag[2] == blob[2] && tag[3] == blob[3];
  }

  /** The joint test on (magic, size): Some(true) for BNR1, Some(false) for
      BNR2, None for any other combination. */
  function Classify(id: u32, size: nat): (kind: Option<bool>)
    ensures kind == Some(true) <==> id == BNR1_MAGIC && size == BNR1_SIZE
    ensures kind == Some(false) <==> id == BNR2_MAGIC && size == BNR2_SIZE
    ensures kind.Some? ==> size == BannerSize(kind.value)
  {
    if id == BNR1_MAGIC && size == BNR1_SIZE then Some(true)
    else if id == BNR2_MAGIC && size == BNR2_SIZE then Some(false)
    else None
  }

  /** The language of the first slot: BNR1 banners carry one record whose
      language follows the disc region; BNR2 records start at English. */
  function StartLanguage(isBnr1: bool, region: Region): (start: Language)
    ensures isBnr1 && region == NTSC_J ==> start == LANGUAGE_JAPANESE
    ensures isBnr1 && region != NTSC_J ==> start == LANGUAGE_ENGLISH
    ensures !isBnr1 ==> start == LANGUAGE_ENGLISH
  {
    if isBnr1 && region == NTSC_J then LANGUAGE_JAPANESE else LANGUAGE_ENGLISH
  }

  /** `m[language] = text`, done only when the text is not empty. */
  function InsertNonEmpty(m: map<Language, string>, language: Language, text: string): (r: map<Language, string>)
    ensures text != "" ==> r == m[language := text]
    ensures text == "" ==> r == m
  {
    if text == "" then m else m[language := text]
  }

  /** One GCBannerInformation record: the raw bytes of its five text fields. */
  datatype GCBannerInformation = GCBannerInformation(
    shortName: seq<u8>, shortMaker: seq<u8>, longName: seq<u8>, longMaker: seq<u8>, description: seq<u8>)

  /** The GCBanner struct that opening.bnr is read into: the id field, the
      image block and the information records the file holds (one for a
      file of BNR1_SIZE, six for one of BNR2_SIZE). */
  datatype GCBanner = GCBanner(id: u32, image: seq<u8>, information: seq<GCBannerInformation>)

  /** Field `f` of a record. */
  function RawField(info: GCBannerInformation, f: InfoField): seq<u8> {
    match f
    case ShortName => info.shortName
    case ShortMaker => info.shortMaker
    case LongName => info.longName
    case LongMaker => info.longMaker
    case Description => info.description
  }

  /** Information record `slot` of the file. */
  function ParseInformation(blob: seq<u8>, slot: nat): GCBannerInformation
    requires HasSlots(blob, slot + 1)
  {
    GCBannerInformation(FieldBytes(blob, slot, ShortName), FieldBytes(blob, slot, ShortMaker),
                        FieldBytes(blob, slot, LongName), FieldBytes(blob, slot, LongMaker),
                        FieldBytes(blob, slot, Description))
  }

  /** The image block of the banner, 96 x 32 pixels of two bytes each. */
  function ImageBlock(blob: seq<u8>): (block: seq<u8>)
    requires HasSlots(blob, 0)
    ensures |block| == GC_BANNER_WIDTH * GC_BANNER_HEIGHT * 2
  {
    blob[IMAGE_OFFSET..IMAGE_OFFSET + IMAGE_SIZE]
  }

  /** The bytes of a file of one of the two accepted sizes, seen as a GCBanner. */
  function ParseBanner(blob: seq<u8>): (banner: GCBanner)
    requires |blob| == BNR1_SIZE || |blob| == BNR2_SIZE
    ensures banner.id == BannerId(blob)
    ensures banner.image == blob[IMAGE_OFFSET..IMAGE_OFFSET + IMAGE_SIZE]
    ensures |banner.information| == SlotCount(|blob| == BNR1_SIZE)
    ensures forall i :: 0 <= i < |banner.information| ==> banner.information[i] == ParseInformation(blob, i)
  {
    var n := SlotCount(|blob| == BNR1_SIZE);
    GCBanner(BannerId(blob), ImageBlock(blob), seq(n, i requires 0 <= i < n => ParseInformation(blob, i)))
  }

  /** Each record of the parsed banner decodes, field by field, to the
      text of that field of that record of the file. */
  lemma ParsedSlotTexts(blob: seq<u8>, decode: seq<u8> -> string, f: InfoField)
    requires |blob| == BNR1_SIZE || |blob| == BNR2_SIZE
    ensures forall i :: 0 <= i < SlotCount(|blob| == BNR1_SIZE) ==>
      decode(RawField(ParseBanner(blob).information[i], f)) == SlotText(blob, decode, i, f)
  {
    forall i | 0 <= i < SlotCount(|blob| == BNR1_SIZE)
      ensures decode(RawField(ParseBanner(blob).information[i], f)) == SlotText(blob, decode, i, f)
    {
      assert ParseBanner(blob).information[i] == ParseInformation(blob, i);
    }
  }

  /** The five text maps a volume fills from the information records. */
  datatype BannerTexts = BannerTexts(
    shortNames: map<Language, string>,
    shortMakers: map<Language, string>,
    longNames: map<Language, string>,
    longMakers: map<Language, string>,
    descriptions: map<Language, string>)

  const EMPTY_TEXTS: BannerTexts := BannerTexts(map[], map[], map[], map[], map[])

  /** The map of `t` that holds field `f`. */
  function Field(t: BannerTexts, f: InfoField): map<Language, string> {
    match f
    case ShortName => t.shortNames
    case ShortMaker => t.shortMakers
    case LongName => t.longNames
    case LongMaker => t.longMakers
    case Description => t.descriptions
  }

  /** One pass of the slot loop: each field of `info`, decoded, is stored
      under `language` when it is not empty. */
  function InsertSlot(t: BannerTexts, language: Language, info: GCBannerInformation,
                      decode: seq<u8> -> string): BannerTexts
  {
    BannerTexts(
      InsertNonEmpty(t.shortNames, language, decode(info.shortName)),
      InsertNonEmpty(t.shortMakers, language, decode(info.shortMaker)),
      InsertNonEmpty(t.longNames, language, decode(info.longName)),
      InsertNonEmpty(t.longMakers, language, decode(info.longMaker)),
      InsertNonEmpty(t.descriptions, language, decode(info.description)))
  }

  /** A pass of the slot loop changes each field's map by one insertion. */
  lemma FieldOfInsertSlot(t: BannerTexts, language: Language, info: GCBannerInformation,
                          decode: seq<u8> -> string, f: InfoField)
    ensures Field(InsertSlot(t, language, info, decode), f) ==
      InsertNonEmpty(Field(t, f), language, decode(RawField(info, f)))
  {
  }

  /** The maps that passes 0 .. n-1 of the slot loop produce from `t0`,
      record i stored under language start + i. */
  function InsertAll(t0: BannerTexts, infos: seq<GCBannerInformation>, decode: seq<u8> -> string,
                     start: Language, n: nat): (t: BannerTexts)
    requires n <= |infos|
    ensures forall f :: Field(t0, f).Keys <= Field(t, f).Keys
  {
    if n == 0 then t0
    else InsertSlot(InsertAll(t0, infos, decode, start, n - 1), start + (n - 1) as Language, infos[n - 1], decode)
  }

  /** The language of slot i is start + i; the slot of a language l is
      l - start, when that is one of the n slots. */
  predicate IsSlotLanguage(start: Language, n: nat, l: Language) {
    start <= l < start + n as Language
  }

  /** The decoded text of field `f` of the record that slot language `l` uses. */
  function SlotTextAt(infos: seq<GCBannerInformation>, decode: seq<u8> -> string, start: Language,
                      n: nat, l: Language, f: InfoField): string
    requires n <= |infos| && IsSlotLanguage(start, n, l)
  {
    decode(RawField(infos[(l - start) as nat], f))
  }

  /** After n passes, a language that one of the n slots stored with a
      non-empty text maps to that text; every other language is a key
      exactly when it was one already, with the value it had. */
  lemma {:induction false} InsertAllAt(t0: BannerTexts, infos: seq<GCBannerInformation>,
                                       decode: seq<u8> -> string, start: Language, n: nat,
                                       f: InfoField, l: Language)
    requires n <= |infos|
    ensures var m := Field(InsertAll(t0, infos, decode, start, n), f);
      if IsSlotLanguage(start, n, l) && SlotTextAt(infos, decode, start, n, l, f) != ""
      then l in m && m[l] == SlotTextAt(infos, decode, start, n, l, f)
      else (l in m <==> l in Field(t0, f)) && (l in m ==> m[l] == Field(t0, f)[l])
  {
    if n > 0 {
      InsertAllAt(t0, infos, decode, start, n - 1, f, l);
      FieldOfInsertSlot(InsertAll(t0, infos, decode, start, n - 1), start + (n - 1) as Language,
                        infos[n - 1], decode, f);
    }
  }

  /** The banner-derived state of a volume: the five text maps, the image
      buffer and its dimensions. */
  datatype BannerCache = BannerCache(texts: BannerTexts, image: seq<u32>, width: int, height: int)

  /** The state of a volume whose banner has not been extracted. */
  const EMPTY_CACHE: BannerCache := BannerCache(EMPTY_TEXTS, [], 0, 0)

  /** The map of a cache that holds field `f`. */
  function Texts(c: BannerCache, f: InfoField): map<Language, string> {
    Field(c.texts, f)
  }

  /** The buffer decode5A3image fills: width * height pixels, each the one
      the decoder produces at that index for the banner's image block. */
  function DecodedImage(image: seq<u8>, h: Helpers): (pixels: seq<u32>)
    ensures |pixels| == GC_BANNER_WIDTH * GC_BANNER_HEIGHT
    ensures forall k :: 0 <= k < |pixels| ==>
      pixels[k] == h.decode5A3Pixel(image, GC_BANNER_WIDTH, GC_BANNER_HEIGHT, k)
  {
    seq(GC_BANNER_WIDTH * GC_BANNER_HEIGHT,
        k requires 0 <= k => h.decode5A3Pixel(image, GC_BANNER_WIDTH, GC_BANNER_HEIGHT, k))
  }

  /** What ExtractBannerInformation stores into a volume with empty maps. */
  function ExtractedCache(banner: GCBanner, isBnr1: bool, region: Region, h: Helpers): (c: BannerCache)
    requires SlotCount(isBnr1) <= |banner.information|
    ensures c.width == GC_BANNER_WIDTH && c.height == GC_BANNER_HEIGHT && |c.image| == c.width * c.height
  {
    BannerCache(InsertAll(EMPTY_TEXTS, banner.information, h.decodeString,
                          StartLanguage(isBnr1, region), SlotCount(isBnr1)),
                DecodedImage(banner.image, h), GC_BANNER_WIDTH, GC_BANNER_HEIGHT)
  }

  /** Why LoadBannerFile stopped early; each is a separate return of the source. */
  datatype LoadError =
    | NoFileSystem
    | NoBannerFile
    | InvalidSize(size: nat)
    | ShortRead(size: nat, count: nat)
    | InvalidType(id: u32, size: nat)

  datatype LoadResult = Failed(error: LoadError) | Accepted(blob: seq<u8>, isBnr1: bool)

  /** The gates of LoadBannerFile, in order: a filesystem, opening.bnr in it,
      a size of one of the two variants, a complete read, and a (magic, size)
      pair that classifies. */
  function ReadBanner(fs: Option<FileSystem>): (r: LoadResult)
    ensures r == Failed(NoFileSystem) <==> fs.None?
    ensures r == Failed(NoBannerFile) <==> fs.Some? && OPENING_BNR !in fs.value.files
    ensures r.Failed? && r.error.InvalidSize? ==>
      r.error.size == fs.value.files[OPENING_BNR].size && r.error.size != BNR1_SIZE && r.error.size != BNR2_SIZE
    ensures r.Failed? && r.error.ShortRead? ==> r.error.count < r.error.size
    ensures r.Failed? && r.error.InvalidType? ==> Classify(r.error.id, r.error.size) == None
    ensures r.Accepted? ==>
      && fs.Some? && OPENING_BNR in fs.value.files
      && fs.value.files[OPENING_BNR].size == |r.blob| <= |fs.value.files[OPENING_BNR].contents|
      && r.blob == fs.value.files[OPENING_BNR].contents[..|r.blob|]
      && |r.blob| == BannerSize(r.isBnr1)
      && Classify(BannerId(r.blob), |r.blob|) == Some(r.isBnr1)
    ensures fs.Some? && OPENING_BNR in fs.value.files ==>
      var info := fs.value.files[OPENING_BNR];
      var bytes := ReadFile(info, info.size);
      var sizeOk := info.size == BNR1_SIZE || info.size == BNR2_SIZE;
      && (r == Failed(InvalidSize(info.size)) <==> !sizeOk)
      && (r == Failed(ShortRead(info.size, |bytes|)) <==> sizeOk && |bytes| != info.size)
      && (r.Accepted? <==> sizeOk && |bytes| == info.size && Classify(BannerId(bytes), info.size).Some?)
      && (r.Failed? && r.error.InvalidType? ==>
            sizeOk && |bytes| == info.size && r.error == InvalidType(BannerId(bytes), info.size))
      && (sizeOk && |bytes| == info.size && Classify(BannerId(bytes), info.size).None? ==>
            r == Failed(InvalidType(BannerId(bytes), info.size)))
  {
    match fs
    case None => Failed(NoFileSystem)
    case Some(fileSystem) =>
      match fileSystem.FindFileInfo(OPENING_BNR)
      case None => Failed(NoBannerFile)
      case Some(info) =>
        if info.size != BNR1_SIZE && info.size != BNR2_SIZE then Failed(InvalidSize(info.size))
        else
          var bytes := ReadFile(info, info.size);
          if |bytes| != info.size then Failed(ShortRead(info.size, |bytes|))
          else
            match Classify(BannerId(bytes), info.size)
            case None => Failed(InvalidType(BannerId(bytes), info.size))
            case Some(isBnr1) => Accepted(bytes, isBnr1)
  }

  /** The banner-derived state of a volume once LoadBannerFile has run. */
  function LoadedCache(fs: Option<FileSystem>, region: Region, h: Helpers): (c: BannerCache)
    ensures ReadBanner(fs).Failed? ==> c == EMPTY_CACHE
    ensures ReadBanner(fs).Accepted? ==>
      c.width == GC_BANNER_WIDTH && c.height == GC_BANNER_HEIGHT && |c.image| == c.width * c.height
  {
    match ReadBanner(fs)
    case Failed(_) => EMPTY_CACHE
    case Accepted(blob, isBnr1) => ExtractedCache(ParseBanner(blob), isBnr1, region, h)
  }

  /** Loading fills the image exactly when opening.bnr passes every gate;
      on every early exit the cache stays empty. */
  lemma LoadedImageIffAccepted(fs: Option<FileSystem>, region: Region, h: Helpers)
    ensures |LoadedCache(fs, region, h).image| > 0 <==> ReadBanner(fs).Accepted?
    ensures LoadedCache(fs, region, h) == EMPTY_CACHE <==> ReadBanner(fs).Failed?
  {
  }

  /** A BNR1 banner yields at most one entry per map, keyed by Japanese on
      an NTSC-J disc and by English otherwise, present iff its text is not
      empty. */
  lemma Bnr1Texts(fs: Option<FileSystem>, region: Region, h: Helpers, f: InfoField)
    requires ReadBanner(fs).Accepted? && ReadBanner(fs).isBnr1
    ensures var blob := ReadBanner(fs).blob;
            var text := SlotText(blob, h.decodeString, 0, f);
            var language := if region == NTSC_J then LANGUAGE_JAPANESE else LANGUAGE_ENGLISH;
            Texts(LoadedCache(fs, region, h), f) == if text == "" then map[] else map[language := text]
  {
    var blob := ReadBanner(fs).blob;
    var infos := ParseBanner(blob).information;
    var start := StartLanguage(true, region);
    assert LoadedCache(fs, region, h).texts == InsertAll(EMPTY_TEXTS, infos, h.decodeString, start, 1);
    assert InsertAll(EMPTY_TEXTS, infos, h.decodeString, start, 1) == InsertSlot(EMPTY_TEXTS, start, infos[0], h.decodeString);
    FieldOfInsertSlot(EMPTY_TEXTS, start, infos[0], h.decodeString, f);
    ParsedSlotTexts(blob, h.decodeString, f);
  }

  /** The six records of a GCBanner extracted as BNR2 fill languages
      English .. English + 5: a language is present iff its record's text
      is not empty, and its value is that text. */
  lemma ExtractedBnr2Texts(banner: GCBanner, region: Region, h: Helpers, f: InfoField)
    requires 6 <= |banner.information|
    ensures var m := Texts(ExtractedCache(banner, false, region, h), f);
            forall l :: l in m <==>
              LANGUAGE_ENGLISH <= l < LANGUAGE_ENGLISH + 6 &&
              h.decodeString(RawField(banner.information[(l - LANGUAGE_ENGLISH) as nat], f)) != ""
    ensures var m := Texts(ExtractedCache(banner, false, region, h), f);
            forall l :: l in m ==>
              LANGUAGE_ENGLISH <= l < LANGUAGE_ENGLISH + 6 &&
              m[l] == h.decodeString(RawField(banner.information[(l - LANGUAGE_ENGLISH) as nat], f))
  {
    forall l {
      InsertAllAt(EMPTY_TEXTS, banner.information, h.decodeString, LANGUAGE_ENGLISH, 6, f, l);
    }
  }

  /** A BNR2 banner maps slot i to English + i for i in 0 .. 5, whatever the
      disc region; a language is present iff its slot's text is not empty,
      and its value is that text. */
  lemma Bnr2Texts(fs: Option<FileSystem>, region: Region, h: Helpers, f: InfoField)
    requires ReadBanner(fs).Accepted? && !ReadBanner(fs).isBnr1
    ensures var blob := ReadBanner(fs).blob;
            var m := Texts(LoadedCache(fs, region, h), f);
            forall l :: l in m <==>
              LANGUAGE_ENGLISH <= l < LANGUAGE_ENGLISH + 6 &&
              SlotText(blob, h.decodeString, (l - LANGUAGE_ENGLISH) as nat, f) != ""
    ensures var blob := ReadBanner(fs).blob;
            var m := Texts(LoadedCache(fs, region, h), f);
            forall l :: l in m ==>
              LANGUAGE_ENGLISH <= l && m[l] == SlotText(blob, h.decodeString, (l - LANGUAGE_ENGLISH) as nat, f)
  {
    var blob := ReadBanner(fs).blob;
    var banner := ParseBanner(blob);
    assert LoadedCache(fs, region, h) == ExtractedCache(banner, false, region, h);
    ExtractedBnr2Texts(banner, region, h, f);
    ParsedSlotTexts(blob, h.decodeString, f);
  }

  /** No map of a loaded volume holds an empty text. */
  lemma LoadedTextsNonEmpty(fs: Option<FileSystem>, region: Region, h: Helpers, f: InfoField)
    ensures forall l :: l in Texts(LoadedCache(fs, region, h), f) ==>
      Texts(LoadedCache(fs, region, h), f)[l] != ""
  {
    match ReadBanner(fs)
    case Failed(_) =>
    case Accepted(blob, isBnr1) =>
      forall l {
        InsertAllAt(EMPTY_TEXTS, ParseBanner(blob).information, h.decodeString,
                    StartLanguage(isBnr1, region), SlotCount(isBnr1), f, l);
      }
  }

  /** The disc region matters only to a BNR1 banner. */
  lemma Bnr2IgnoresRegion(fs: Option<FileSystem>, r1: Region, r2: Region, h: Helpers, f: InfoField)
    requires ReadBanner(fs).Accepted? && !ReadBanner(fs).isBnr1
    ensures Texts(LoadedCache(fs, r1, h), f) == Texts(LoadedCache(fs, r2, h), f)
  {
  }
}
