/** Value types shared by the GameCube volume reader: fixed-width integers,
    an optional value, partitions, and the region, country and language
    enumerations a disc header and its banner are mapped onto. */
module Enums {

  newtype u8 = x: int | 0 <= x < 0x100
  newtype u16 = x: int | 0 <= x < 0x1_0000
  newtype u32 = x: int | 0 <= x < 0x1_0000_0000

  /** std::optional */
  datatype Option<+T> = None | Some(value: T)

  /** A partition of a disc. GameCube discs have none, so every read that
      matters to this model is made with PARTITION_NONE. */
  datatype Partition = PARTITION_NONE | Partition(offset: nat)

  /** Disc regions, as RegionSwitchGC maps the region byte onto them. */
  datatype Region = NTSC_J | NTSC_U | PAL | UNKNOWN_REGION | NTSC_K

  /** Countries, as CountrySwitch maps the region byte onto them. */
  datatype Country =
    | COUNTRY_EUROPE | COUNTRY_JAPAN | COUNTRY_USA | COUNTRY_AUSTRALIA
    | COUNTRY_FRANCE | COUNTRY_GERMANY | COUNTRY_ITALY | COUNTRY_KOREA
    | COUNTRY_NETHERLANDS | COUNTRY_RUSSIA | COUNTRY_SPAIN | COUNTRY_TAIWAN
    | COUNTRY_WORLD | COUNTRY_UNKNOWN

  /** Languages are an integer-valued enumeration: the banner loader computes
      the language of a slot by adding the slot index to a start language. */
  newtype Language = int

  const LANGUAGE_JAPANESE: Language := 0
  const LANGUAGE_ENGLISH: Language := 1
}
