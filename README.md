# GameCube volume reader (Dolphin `DiscIO::VolumeGC`), modelled in Dafny

This project models the part of Dolphin that reads metadata from GameCube disc
images: `DiscIO::VolumeGC` in `Source/Core/DiscIO/VolumeGC.cpp`.

A volume owns a blob reader, which turns a disc image into a flat byte stream.

- **Header fields.** Each one comes from a single read at a fixed offset:
  - game ID: 6 bytes at 0;
  - region and country: byte 3;
  - maker ID: 2 bytes at 4;
  - disc number: byte 6;
  - revision: byte 7;
  - internal name: 0x60 bytes at 0x20;
  - apploader date: 0x10 bytes at 0x2440.

  Each field has its own value for when the read fails.
- **Banner.** The banner texts and image come from the file `opening.bnr` in the disc
  filesystem. `LoadBannerFile` loads them lazily, at most once, and runs a chain of
  early exits. `ExtractBannerInformation` then fills five `Language → string` maps
  and a 96 × 32 pixel buffer. A BNR1 banner fills one language slot and a BNR2
  banner six.

Files:

- `enums.dfy` (module `Enums`): byte-width integers, `Option`, `Partition`, and the
  `Region`, `Country` and `Language` enumerations.
- `external.dfy` (module `External`): the collaborators whose code is not part of
  this model, as oracles.
  - `BlobReader` holds the image bytes and a set of unreadable positions. A read
    succeeds iff it is in bounds and touches no unreadable byte.
  - `FileSystem` is the path index that `CreateFileSystem` builds.
  - `ReadFile` returns the bytes it actually read. Their count can fall short.
  - `Helpers` holds `DecodeString`, `RegionSwitchGC`, `CountrySwitch` and
    `decode5A3image` as arbitrary functions.
- `banner.dfy` (module `Banner`): the specification of banner loading.
  - The layout of the `GCBanner` struct, and `ParseBanner`, which reads an accepted
    file into a `GCBanner` value with its id, image block and information records.
  - The joint (magic, size) classification.
  - `InsertAll`: the five maps that the source's slot loop builds from the records.
  - `ReadBanner`: the gates of `LoadBannerFile`.
  - `LoadedCache`: the state the volume is in after loading.
  - Lemmas about all of these.
- `volume_gc.dfy` (module `DiscIO`): `class VolumeGC`.
  - Its mutable fields: `bannerLoaded`, the five maps, the image buffer, its width
    and height, and a ghost counter `loadAttempts`.
  - The header accessors, as functions of the reader.
  - `LoadBannerFile`, `ExtractBannerInformation` and the six banner getters, as
    methods. The slot loop of `ExtractBannerInformation` is the module-level method
    `InsertSlots`, proved against `InsertAll`.
  - `Valid()` is the object invariant:
    - before the first load, every banner field is empty;
    - after it, the fields equal `LoadedCache(...)` and `loadAttempts == 1`.
  - Client methods show that repeated getter calls agree.

The model follows the code:

- `GetRegion` returns `UNKNOWN_REGION` when the read fails.
- `GetCountry` returns `COUNTRY_UNKNOWN` when the read fails.
- `GetCountry` passes the caller's partition through, so any partition other than
  `PARTITION_NONE` gives `COUNTRY_UNKNOWN`. `GetRegion` always reads with
  `PARTITION_NONE`.
- The pixel decoder is not in this source file. It is opaque here (see below).

## Model

| member | source | states |
|---|---|---|
| `DiscIO.VolumeGC.constructor` | Source/Core/DiscIO/VolumeGC.cpp:29-32 | A new volume keeps its reader, its filesystem and its helpers, has not loaded its banner, and all its banner fields are empty |
| `DiscIO.VolumeGC.Read` | Source/Core/DiscIO/VolumeGC.cpp:38-44 | Any partition other than PARTITION_NONE fails. Otherwise the read succeeds iff the reader can deliver (offset, length), and returns exactly those disc bytes |
| `DiscIO.VolumeGC.ReadByte` | Source/Core/DiscIO/VolumeGC.cpp:63 | `ReadSwapped<u8>` returns the disc byte at the offset when the 1-byte read succeeds, and nothing otherwise |
| `DiscIO.VolumeGC.GetGameID` | Source/Core/DiscIO/VolumeGC.cpp:46-59 | The decoded 6 bytes at offset 0 when readable, otherwise `"NO_UID"` |
| `DiscIO.VolumeGC.GetRegion` | Source/Core/DiscIO/VolumeGC.cpp:61-65 | `RegionSwitchGC` of byte 3 (always read with PARTITION_NONE) when readable, otherwise UNKNOWN_REGION |
| `DiscIO.VolumeGC.GetCountry` | Source/Core/DiscIO/VolumeGC.cpp:67-71 | `CountrySwitch` of byte 3 when readable with the given partition, otherwise COUNTRY_UNKNOWN |
| `DiscIO.VolumeGC.GetMakerID` | Source/Core/DiscIO/VolumeGC.cpp:73-80 | The decoded bytes 4..6 when readable, otherwise the empty string |
| `DiscIO.VolumeGC.GetRevision` | Source/Core/DiscIO/VolumeGC.cpp:82-86 | Present iff byte 7 is readable, and then equal in value to byte 7, widened to u16 |
| `DiscIO.VolumeGC.GetInternalName` | Source/Core/DiscIO/VolumeGC.cpp:88-95 | The decoded bytes 0x20..0x80 when readable, otherwise the empty string |
| `DiscIO.VolumeGC.GetApploaderDate` | Source/Core/DiscIO/VolumeGC.cpp:135-142 | The decoded bytes 0x2440..0x2450 when readable, otherwise the empty string |
| `DiscIO.VolumeGC.GetDiscNumber` | Source/Core/DiscIO/VolumeGC.cpp:159-162 | Present iff byte 6 is readable, and then equal to byte 6 |
| `DiscIO.VolumeGC.LoadBannerFile` | Source/Core/DiscIO/VolumeGC.cpp:169-218 | Afterwards the banner is loaded, exactly one load has been attempted, and the fields equal `LoadedCache`. If the banner was already loaded, nothing changes |
| `DiscIO.VolumeGC.ExtractBannerInformation` | Source/Core/DiscIO/VolumeGC.cpp:220-268 | Width and height become 96 and 32, and the buffer becomes the decoded image. Each map becomes its old value with the variant's slots inserted, non-empty texts only, slot i under start language + i |
| `DiscIO.VolumeGC.GetShortNames` | Source/Core/DiscIO/VolumeGC.cpp:97-101 | Loads the banner if needed, then returns the loaded short names. A second call changes nothing |
| `DiscIO.VolumeGC.GetLongNames` | Source/Core/DiscIO/VolumeGC.cpp:103-107 | The same, for the long names |
| `DiscIO.VolumeGC.GetShortMakers` | Source/Core/DiscIO/VolumeGC.cpp:109-113 | The same, for the short makers |
| `DiscIO.VolumeGC.GetLongMakers` | Source/Core/DiscIO/VolumeGC.cpp:115-119 | The same, for the long makers |
| `DiscIO.VolumeGC.GetDescriptions` | Source/Core/DiscIO/VolumeGC.cpp:121-125 | The same, for the descriptions |
| `DiscIO.VolumeGC.GetBanner` | Source/Core/DiscIO/VolumeGC.cpp:127-133 | Returns the loaded image, width and height. The image length is always width × height |
| `DiscIO.ShortNamesTwice` | Source/Core/DiscIO/VolumeGC.cpp:169-175 | On a fresh volume built from the given reader, filesystem and helpers, two `GetShortNames` calls return the same map, the short names that loading that disc's opening.bnr yields, with no empty value; afterwards the volume is loaded and its load counter is one |
| `DiscIO.BannerTwice` | Source/Core/DiscIO/VolumeGC.cpp:127-133 | Two `GetBanner` calls return the same buffer, of length width × height. It is empty iff loading failed, and otherwise 96 × 32 |
| `DiscIO.AllBannerGetters` | Source/Core/DiscIO/VolumeGC.cpp:178-200 | After any early exit, every getter returns an empty map or an empty image with dimensions 0. After a load that passed every gate, the image is 96 × 32 |
| `DiscIO.UnreadableRegionMeansEnglish` | Source/Core/DiscIO/VolumeGC.cpp:227-229 | If byte 3 cannot be read, a BNR1 slot is filed under English |
| `Banner.BannerSize` | Source/Core/DiscIO/VolumeGC.cpp:189 | The two accepted file sizes are header + image + one record (BNR1) and header + image + six records (BNR2) |
| `Banner.BannerIdIsTag` | Source/Core/DiscIO/VolumeGC.cpp:187-188 | The id equals BNR1_MAGIC iff the file starts with the bytes "BNR1", and BNR2_MAGIC iff it starts with "BNR2" |
| `Banner.Classify` | Source/Core/DiscIO/VolumeGC.cpp:202-215 | BNR1 is chosen iff id == 0x31524e42 and size == BNR1_SIZE. BNR2 is chosen iff id == 0x32524e42 and size == BNR2_SIZE. Every other pair is refused |
| `Banner.StartLanguage` | Source/Core/DiscIO/VolumeGC.cpp:225-235 | BNR1 starts at Japanese on an NTSC-J disc and at English otherwise. BNR2 starts at English |
| `Banner.InsertNonEmpty` | Source/Core/DiscIO/VolumeGC.cpp:248-250 | A text is stored under its language only when it is not empty. Otherwise the map is unchanged |
| `Banner.FieldBytes` | Source/Core/DiscIO/VolumeGC.cpp:248-264 | The raw bytes of field f of an information record have that field's fixed width: 0x20 bytes for the short name and short maker, 0x40 for the long name and long maker, 0x80 for the description |
| `Banner.ImageBlock` | Source/Core/DiscIO/VolumeGC.cpp:240 | The image block passed to the decoder is 96 × 32 × 2 bytes long |
| `Banner.ParseBanner` | Source/Core/DiscIO/VolumeGC.cpp:177-196 | The file is read into a `GCBanner`: its id is the first four bytes as a little-endian u32, its image block is the 0x1800 bytes at file offset 0x20, and it holds one information record for a BNR1-sized file and six for a BNR2-sized one, record i being the five fields of the i-th 0x140-byte block |
| `Banner.ParsedSlotTexts` | Source/Core/DiscIO/VolumeGC.cpp:245-264 | Decoding field f of parsed record i gives the decoded bytes of that field at its offset in the file |
| `Banner.FieldOfInsertSlot` | Source/Core/DiscIO/VolumeGC.cpp:245-266 | One pass of the slot loop changes each field's map by exactly one conditional insertion of that field's decoded text |
| `Banner.InsertAll` | Source/Core/DiscIO/VolumeGC.cpp:243-267 | Reference definition of the slot loop as a function: n passes of one conditional insertion per field, record i under start + i. The loop never removes a language from any map |
| `Banner.InsertAllAt` | Source/Core/DiscIO/VolumeGC.cpp:243-267 | After n passes, a language start + i (i < n) whose record text is non-empty maps to that text. Every other language is a key iff it was one before the loop, with its old value |
| `DiscIO.InsertSlots` | Source/Core/DiscIO/VolumeGC.cpp:243-267 | The loop over the slots produces exactly `InsertAll` of the starting maps and the records |
| `Banner.ExtractedBnr2Texts` | Source/Core/DiscIO/VolumeGC.cpp:231-267 | Extracting a banner as BNR2 gives each map the keys English + i, i in 0..5, whose record text is non-empty, each with that text |
| `Banner.ReadBanner` | Source/Core/DiscIO/VolumeGC.cpp:178-215 | Each early exit happens exactly under its condition, in order: no filesystem, no opening.bnr, a size that is neither BNR1_SIZE nor BNR2_SIZE, a read that returns fewer bytes than the size, an unclassifiable (magic, size) pair, each carrying the file's size, the count read or the id read. The file is accepted iff it passes all five gates, and an accepted blob is exactly the file's bytes, of the variant's size |
| `Banner.DecodedImage` | Source/Core/DiscIO/VolumeGC.cpp:239-241 | The image buffer holds exactly 96 × 32 pixels, each the pixel the decoder yields at that index for the banner's image block |
| `External.BlobReader.Read` | Source/Core/DiscIO/VolumeGC.cpp:43 | The reader's read succeeds iff the range is inside the image and touches no unreadable byte, and then returns that many bytes |
| `External.FileSystem.FindFileInfo` | Source/Core/DiscIO/VolumeGC.cpp:182 | The lookup finds an entry iff the path is in the filesystem, and returns that entry |
| `External.ReadFile` | Source/Core/DiscIO/VolumeGC.cpp:195-196 | Reading a file returns a prefix of its readable bytes, no longer than requested or than the file, and of the full requested length iff the disc holds that many |
| `Banner.ExtractedCache` | Source/Core/DiscIO/VolumeGC.cpp:220-268 | Reference definition of what ExtractBannerInformation stores into a volume with empty maps: the slot maps of the variant, the decoded image, and dimensions 96 × 32 with a buffer of that length |
| `Banner.LoadedCache` | Source/Core/DiscIO/VolumeGC.cpp:169-218 | A failed load leaves every banner field empty. A successful one sets 96 × 32 and a buffer of that length |
| `Banner.LoadedImageIffAccepted` | Source/Core/DiscIO/VolumeGC.cpp:237-241 | The loaded image is non-empty iff opening.bnr passed every gate. The whole cache is empty iff it did not |
| `Banner.Bnr1Texts` | Source/Core/DiscIO/VolumeGC.cpp:225-230 | A BNR1 banner gives each map exactly zero or one entry. The key is Japanese on NTSC-J and English otherwise, present iff the text is non-empty |
| `Banner.Bnr2Texts` | Source/Core/DiscIO/VolumeGC.cpp:231-235 | A BNR2 banner's keys are the languages English + i, i in 0..5, whose slot text is non-empty. The value is that text |
| `Banner.LoadedTextsNonEmpty` | Source/Core/DiscIO/VolumeGC.cpp:248-266 | No map of a loaded volume holds an empty string |
| `Banner.Bnr2IgnoresRegion` | Source/Core/DiscIO/VolumeGC.cpp:231-235 | For a fixed decoder, the region plays no part in a BNR2 banner's maps |

## Left out

- `GetBlobType`, `GetSize` and `GetRawSize` (VolumeGC.cpp:144-157) pass the blob
  reader's own answers through. The blob reader is an oracle here, so they have
  nothing to model. `GetVolumeType` returns a constant.
- The destructor does nothing. The constructor's assertion that the reader is not
  null is not modelled: the model's reader is a value, so there is no null reader.
- The user alert that `GetGameID` raises when the ID cannot be read is not modelled.
  Neither are the warnings that `LoadBannerFile` logs. Both are side effects on the
  UI and the log only. The `NO_UID` sentinel is modelled, and `Banner.LoadError`
  records which gate stopped a load.
- The helpers are arbitrary functions, so every property holds whatever they compute:
  - `DecodeString`, including its trimming at the first NUL and its text encoding;
  - `RegionSwitchGC` and `CountrySwitch`;
  - `ColorUtil::decode5A3image`, of which only the buffer length is stated.

  The 5A3 bit expansion is not modelled, because its code is not part of this model.
- The blob reader, `CreateFileSystem`, `FileSystem::FindFileInfo` and `ReadFile` are
  oracles. Their code is not part of this model.
  - The filesystem that `CreateFileSystem` would build is a constructor argument.
  - `ReadFile` returns a prefix of the file's readable bytes.
- For a BNR1 file the source reads only the first record into `GCBanner`; the
  other five records of the struct are left uninitialised and are never used. The
  model's `GCBanner` holds only the records the file contains.
- `VolumeGC.h`, `Enums.h` and `Volume.h` are not part of this model. The following
  are taken from the GameCube banner format and Dolphin's enumerations:
  - the `GCBanner` layout: a 0x20-byte header, a 0x1800-byte image, records of
    0x140 bytes;
  - BNR1_SIZE = 0x1960 and BNR2_SIZE = 0x1FA0;
  - the banner size of 96 × 32;
  - LANGUAGE_JAPANESE = 0 and LANGUAGE_ENGLISH = 1.

  The image block size is defined as 96 × 32 two-byte pixels. Beyond that, the
  proofs rely only on the two file sizes being distinct and on their holding one
  and six records.
- The `id` field is compared as a little-endian host u32, as on the hosts Dolphin
  runs on. A big-endian host is not modelled.
- Offsets, sizes and dimensions are unbounded integers. No u64, size_t or int
  overflow can arise at the fixed values the source uses.
- Concurrency is not modelled. The source takes no lock around the lazy load.
- `Source/Core/DolphinQt2/Config/Mapping/MappingButton.cpp` and
  `Source/Core/DolphinQt2/GameList/GameList.h` are GUI code, outside this component.
