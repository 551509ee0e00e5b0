# Bambu Lab spool-tag decoder, modelled in Dafny

The Flipper Zero plugin reads the RFID tag on a Bambu Lab filament spool. The
tag is a MIFARE Classic 1K card: 64 blocks of 16 bytes. This project models
the plugin's decoding core:

- **Parser** (`plugin/bambu_parser.h`) — the field-access primitives and the
  admission check `bambu_tag_is_valid`:
  - little-endian 16-bit reads;
  - assembly of the 32-bit word behind a float;
  - the printable-ASCII window test and the bounded ASCII copy;
  - the ten known filament tokens and the block constants.
- **Float32** — decodes an IEEE-754 binary32 word exactly. A finite value is
  an integer count of 2^-149. This proves that the admission check's float
  comparisons (1.6f ≤ d ≤ 2.0f or 2.7f ≤ d ≤ 3.0f) accept exactly the words
  in [0x3FCCCCCD, 0x40000000] ∪ [0x402CCCCD, 0x40400000]. The equivalence is
  proved, not assumed.
- **Bambu** (`plugin/bambu.c`, `bambu_parse` up to the lookup):
  - admission;
  - reading every field from its block and offset;
  - the production-date rewrite `YYYY_MM_DD_HH_MM` → `YYYY-MM-DD HH:MM`;
  - the lookup of the variant id.

  It is given twice: as functions (`Decode`, `Parse`) and as the source's
  step-by-step procedure (`ParseTag`). The procedure's own postcondition,
  `r == Parse(card, table)`, states that the two agree.
- **Filaments** (`plugin/bambu_filaments.h`) — the variant-id table and its
  exact-match linear scan, which returns the first matching row.
- **Encoder** — the inverse of the decoder. It writes a spool record back into
  the block layout, and `Decode(Encode(rec)) == Some(rec)` pins every field to
  its block and offset.
- **Vectors** — the concrete cases of `test/test_bambu.c`:
  - the helper examples;
  - the hand-built rejection cards;
  - the pink PLA Basic spool and its "Hot Pink" table row.

Bytes are integers 0..255. Text fields are `string`s of printable ASCII. Floats
are kept as their 32-bit words, and the spool width as its raw hundredths of a
millimetre. The card reader's `nfc_device_get_data` becomes a `Card` parameter.

A representation note: the source tests the date separators on the 17-byte,
zero-filled buffer the date was copied into. The model tests the copied string
itself: it has an underscore at positions 4, 7, 10 and 13, which needs at
least 14 characters. `Bambu.RawDateOnBuffer` proves the two tests agree.

## Model

| member | source | states |
|---|---|---|
| Parser.ReadLe16 | plugin/bambu_parser.h:29-32 | the 16-bit value gives back its low byte (value mod 256) and high byte (value div 256), so it is below 65536 |
| Parser.LittleEndianOr16 | plugin/bambu_parser.h:31 | the source's OR of a low byte with a high byte shifted left by 8 equals `lo + 256*hi` |
| Parser.ReadLe32Word | plugin/bambu_parser.h:34-42 | the float's 32-bit word has byte 0 as its least significant byte and byte 3 as its most significant; each byte is recovered from the word |
| Parser.LittleEndianOr32 | plugin/bambu_parser.h:40 | the source's four shifted ORs on bytes equal `b0 + 2^8 b1 + 2^16 b2 + 2^24 b3` |
| Parser.IsPrintableAscii | plugin/bambu_parser.h:44-53 | the scan answers true iff every byte of the window is zero or in 0x20..0x7E and at least one byte is in 0x20..0x7E |
| Parser.CopyAscii | plugin/bambu_parser.h:55-62 | the copy is at most `maxLen` long, is a printable prefix of the source, and stops only at the bound or at a zero or non-printable byte |
| Parser.CopyAsciiString | plugin/bambu_parser.h:56-62 | the source's copy loop meets the same three properties: bounded, printable prefix, maximal |
| Parser.CopyAsciiUnique | plugin/bambu_parser.h:58-61 | any string with those three properties is the copy, so the loop and the function agree |
| Parser.CopyAsciiKeepsPrintablePrefix | plugin/bambu_parser.h:58 | a printable stretch of the source within the bound is copied in full |
| Parser.CopyAsciiLooksOnlyAtBound | plugin/bambu_parser.h:58 | two sources that agree on their first `maxLen` bytes give the same copy |
| Parser.MatchKnownFilamentType | plugin/bambu_parser.h:85-97 | the token loop answers true iff one of the ten known tokens is a byte-for-byte, case-sensitive prefix of block 2 |
| Parser.TagIsValidIff | plugin/bambu_parser.h:73-115 | the admission check holds iff the card is 1K, block 1 has 'G','F' at bytes 8-9, block 2 starts with a known token, block 4 is a printable 16-byte window and the block-5 diameter word lies in one of the two ranges |
| Parser.CheckTag | plugin/bambu_parser.h:73-115 | the check run step by step with early returns gives the same verdict as the admission predicate |
| Float32.UnitsStrictlyIncreasing | plugin/bambu_parser.h:108-109 | for non-negative finite floats, a larger bit pattern is a larger value |
| Float32.AtLeastPositive | plugin/bambu_parser.h:108-109 | `d >= c` against a positive literal holds exactly for the words from c up to +infinity; negative values and NaN fail |
| Float32.AtMostNonNegative | plugin/bambu_parser.h:108-109 | below the sign bit, `d <= c` against a non-negative literal is `word <= c` |
| Float32.PlausibleDiameterBitRanges | plugin/bambu_parser.h:105-112 | the float test (1.6f..2.0f or 2.7f..3.0f) accepts exactly the words in [0x3FCCCCCD, 0x40000000] ∪ [0x402CCCCD, 0x40400000] |
| Float32.OnePointSevenFive | test/test_bambu.c:552-557 | the word 0x3FE00000 is 1.75 exactly |
| Bambu.FormatDate | plugin/bambu.c:77-87 | the rewrite keeps the length; a raw date becomes `YYYY-MM-DD HH:MM`; every other position, and every string that is not raw, is unchanged; the result is never raw |
| Bambu.FormatDateIdempotent | plugin/bambu.c:79-87 | rewriting an already rewritten date changes nothing |
| Bambu.RawDateOnBuffer | plugin/bambu.c:72-82 | the separator test on the zero-filled 17-byte buffer agrees with the string test, including for dates shorter than 14 characters |
| Bambu.Decode | plugin/bambu.c:20-28 | a record is produced iff the admission check passes, and never for a card that is not 1K |
| Bambu.Parse | plugin/bambu.c:18-94 | a parse succeeds iff the admission check passes; a found table row has the decoded variant id; a missing row means no row has that id |
| Bambu.ParseTag | plugin/bambu.c:18-94 | the source's sequence of copies, reads, date rewrite and table scan produces exactly the decoded record and lookup |
| Bambu.CopyIsAsciiText | plugin/bambu_parser.h:58-59 | every copied field is printable ASCII text |
| Bambu.MaterialIdWellFormed | plugin/bambu.c:31-35 | after admission the material id begins with "GF" |
| Bambu.FilamentTypeWellFormed | plugin/bambu.c:37-40 | after admission the filament type has a known token as a prefix |
| Bambu.ProductionDateWellFormed | plugin/bambu.c:72-87 | the decoded date is printable, at most 16 characters, and no longer raw |
| Bambu.DecodedRecordWellFormed | plugin/bambu.c:30-91 | every decoded record has text fields within their buffer sizes, the "GF" marker, a known type prefix, an admitted diameter and a rewritten date |
| Bambu.DecodedFieldOffsets | plugin/bambu.c:47-91 | colour is block 5 bytes 0-3 in R,G,B,A order; weight is bytes 4-5; the block-6 fields are at 0, 2, 8 (max) and 10 (min); the nozzle word is block 8 bytes 12-15; width and length are bytes 4-5 of blocks 10 and 14; a length of 0 stays 0 |
| Bambu.DecodeReadsOnlyFieldBlocks | plugin/bambu_parser.h:17-27 | decoding depends on the card type and blocks 1, 2, 4, 5, 6, 8, 10, 12 and 14 only |
| Filaments.FindIndex | plugin/bambu_filaments.h:284-291 | the scan position holds the key and no earlier row does; no position means no row holds the key |
| Filaments.Lookup | plugin/bambu_filaments.h:282-291 | a returned row has exactly the key and is the first such row in table order; nothing is returned iff no row has the key |
| Filaments.LookupFilament | plugin/bambu_filaments.h:284-291 | the source's loop returns the first row whose key compares equal, or nothing, matching `Lookup` |
| Filaments.LookupFirstMatch | plugin/bambu_filaments.h:285-288 | when row i is the first with the key, the lookup returns row i |
| Filaments.LookupUnique | plugin/bambu_filaments.h:284-291 | in a table with distinct keys, the lookup returns a row iff that row is in the table with that key |
| Filaments.LookupAgreesWithKeyMap | plugin/bambu_filaments.h:284-291 | in a table with distinct keys, the linear scan answers every key as a dictionary would |
| Filaments.TableNotSorted | plugin/bambu_filaments.h:93-109 | the rows are not in variant-id order: the A06 group precedes the A05 group |
| Filaments.TableHasDistinctKeys | plugin/bambu_filaments.h:19-278 | no two rows share a variant id |
| Filaments.KnownLookups | plugin/bambu_filaments.h:53-81 | "A00-R3" finds ("10204", "Hot Pink") and "A01-R4" finds ("11202", "Dark Red") |
| Filaments.UnknownLookup | test/test_bambu.c:590-592 | "UNKNOWN" finds nothing rather than a default row |
| Encoder.Le16Bytes | plugin/bambu_parser.h:30-32 | the two bytes written for a 16-bit value are read back as that value |
| Encoder.Le16BytesOfRead | plugin/bambu_parser.h:30-32 | every byte pair is the encoding of the value read from it |
| Encoder.Le32Bytes | plugin/bambu_parser.h:35-41 | the four bytes written for a word are read back as that word |
| Encoder.CopyPadded | plugin/bambu_parser.h:56-62 | copying a zero-padded printable field back out gives the text, for every bound at least its length |
| Encoder.DateRoundTrips | plugin/bambu.c:79-87 | a raw date is restored by undoing the rewrite, and every non-raw string is the rewrite of its un-rewritten form |
| Encoder.EncodedTagIsValid | plugin/bambu_parser.h:73-115 | every well-formed record, written to a 1K card, passes the admission check, including one with an empty detailed type |
| Encoder.DetailedTypeDecode | plugin/bambu_parser.h:99-103 | block 4 written from a record passes the printable test and its bounded copy (plugin/bambu.c:42-45) gives back the detailed type, also when that is empty |
| Encoder.MaterialIdsDecode | plugin/bambu.c:31-35 | block 1 written from a record gives back its material id and variant id |
| Encoder.ProductionDateDecode | plugin/bambu.c:72-87 | the raw date written to block 12 is copied and rewritten back to the record's date |
| Encoder.ColorWeightDecode | plugin/bambu.c:47-54 | block 5 written from a record gives back its colour, weight and diameter |
| Encoder.TemperaturesDecode | plugin/bambu.c:56-61 | block 6 written from a record gives back its drying temperature, drying hours, hotend maximum and minimum |
| Encoder.NozzleDecode | plugin/bambu.c:63-65 | the nozzle word written to block 8 bytes 12-15 is read back |
| Encoder.Uint16AtFourDecode | plugin/bambu.c:67-69 | a value written to bytes 4-5 of a block is read back from there |
| Encoder.EncodedFieldsDecode | plugin/bambu.c:30-91 | the field reads of `bambu_parse` recover every field of an encoded record |
| Encoder.DecodeEncode | plugin/bambu.c:20-91 | round trip: decoding the card written for a well-formed record gives that record back |
| Encoder.ReencodeDecoded | plugin/bambu.c:20-91 | every decoded record is well formed, and re-encoding it decodes to the same record |
| Vectors.Le16Example | test/test_bambu.c:546-550 | bytes E8 03 read as 1000 |
| Vectors.FloatWordExample | test/test_bambu.c:552-558 | bytes 00 00 E0 3F form the word 0x3FE00000, which is 1.75 |
| Vectors.PrintableWindowExamples | test/test_bambu.c:560-571 | "PLA Basic" with zero padding over 16 bytes is printable; {01,02,'A','B',00} and an all-zero window are not |
| Vectors.CopyExample | test/test_bambu.c:573-579 | copying "PLA Basic" with zero padding and bound 16 gives "PLA Basic" |
| Vectors.DateExamples | plugin/bambu.c:77-87 | "2025_07_21_14_17" becomes "2025-07-21 14:17"; a slash-separated date and a 10-character date are unchanged |
| Vectors.SampleAccepted | plugin/bambu_parser.h:73-115 | the hand-built sample card with "GF", "PLA", "PLA Basic" and a 1.75 diameter is admitted |
| Vectors.MissingMarkerRejected | test/test_bambu.c:424-446 | a card without "GF" at block 1 bytes 8-9 is rejected |
| Vectors.UnknownTypeRejected | test/test_bambu.c:448-470 | a card whose block 2 reads "UNKNOWN" is rejected |
| Vectors.TokenIsRawPrefix | plugin/bambu_parser.h:88-94 | "PLASTIC" passes the token test because it starts with "PLA"; lower-case "pla" fails |
| Vectors.HalfMillimetreRejected | test/test_bambu.c:472-494 | a card with a 0.5 diameter is rejected |
| Vectors.NonPrintableDetailRejected | test/test_bambu.c:496-519 | a card whose block 4 starts 01 02 03 04 is rejected |
| Vectors.FourKRejected | test/test_bambu.c:521-543 | a 4K card decodes to nothing |
| Vectors.LeadingZeroDetailedType | plugin/bambu.c:42-45 | a block 4 that starts with a zero byte passes the printable test yet decodes to an empty detailed type |
| Vectors.PinkRawDate | test/test_bambu.c:184-207 | the card for the pink spool holds the date "2025_07_21_14_17" in raw form |
| Vectors.PinkParses | test/test_bambu.c:184-207 | the pink spool's card parses to the spool and the ("A00-R3", "10204", "Hot Pink") row |
| Vectors.ZeroLengthPassesThrough | plugin/bambu.c:89-91 | a filament length of 0 is decoded as 0 |
| Vectors.EmptyDetailedTypeRoundTrips | plugin/bambu.c:42-45 | the pink spool with an empty detailed type is written and decoded back unchanged |

## Left out

- Output formatting after the lookup (plugin/bambu.c:96-143) is presentation only. This covers the colour and alpha-percent display, the choice between colour name and hex, and hiding a zero length.
- The plugin descriptor and its registration (plugin/bambu.c:148-163) and `nfc_device_get_data` (plugin/bambu.c:18) are platform calls. The card is a parameter instead.
- Float values are not modelled. This covers the float returned by `bambu_read_le_float` and `spool_width_raw / 100.0f` (plugin/bambu.c:70). Diameters stay as 32-bit words and the spool width as its raw integer. The one float comparison that matters, the diameter check, is decided exactly on words. `Float32.ToFloat` handles finite values, infinities and NaN.
- The bit patterns of the literals 1.6f and 2.7f (0x3FCCCCCD and 0x402CCCCD) are constants taken from round-to-nearest conversion. Their derivation from the decimal literals is not modelled.
- Parser.LittleEndianOr32: `data[3] << 24` is evaluated in C's signed `int`. For a top byte of 0x80 or more it shifts into the sign bit. The model takes the two's-complement result every common compiler produces, which the cast to `uint32_t` turns into the intended word.
- The filament table has 193 rows (plugin/bambu_filaments.h:21-277). The model carries 17 of them in source order: the rows the tests use, a few from each group, and the A06 group before the A05 group. The lookup lemmas are proved for every table.
- The sorted-order comment at plugin/bambu_filaments.h:18 is not true of the code. The model follows the code: the scan is linear, and `Filaments.TableNotSorted` records the out-of-order groups.
- The test harness (`load_nfc_file`, `parse_hex_byte`, assertion macros and runner) is file I/O and test scaffolding. The `.nfc` sample files are not part of this model; the pink spool is rebuilt from its expected values.
- An empty detailed type has more than one encoding. The admission check needs a printable byte in block 4, so the encoder writes a zero followed by a space; any block that starts with a zero and holds a printable byte decodes the same way (`Vectors.LeadingZeroDetailedType`). The round trip is proved for the encoder's choice only.
