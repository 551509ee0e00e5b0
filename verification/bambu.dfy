/**
 The layout decoder of `bambu_parse` (plugin/bambu.c, up to the filament
 lookup): once the admission check passes, every field is read from a fixed
 block and byte offset, the production date is reformatted, and the variant
 id is looked up in the filament table. The report text built afterwards is
 not modelled.
 */
module Bambu {
  import opened Wrappers
  import opened Float32
  import opened Parser
  import opened Filaments

  datatype Color = Color(red: Byte, green: Byte, blue: Byte, alpha: Byte)

  /**
   The decoded spool. Floats are kept as their 32-bit words; the spool width
   is kept as its raw value in hundredths of a millimetre.
   */
  datatype SpoolRecord = SpoolRecord(
    materialId: string,
    variantId: string,
    filamentType: string,
    detailedType: string,
    color: Color,
    weightGrams: Uint16,
    diameter: Word32,
    dryingTempC: Uint16,
    dryingHours: Uint16,
    hotendMaxC: Uint16,
    hotendMinC: Uint16,
    nozzleDiameter: Word32,
    spoolWidthRaw: Uint16,
    productionDate: string,
    filamentLengthM: Uint16)

  /** A date as the tag stores it, `YYYY_MM_DD_HH_MM`: underscores at positions 4, 7, 10 and 13. */
  predicate IsRawDate(d: string) {
    |d| > 13 && d[4] == '_' && d[7] == '_' && d[10] == '_' && d[13] == '_'
  }

  /** A date as it is shown, `YYYY-MM-DD HH:MM`. */
  predicate IsFormattedDate(d: string) {
    |d| > 13 && d[4] == '-' && d[7] == '-' && d[10] == ' ' && d[13] == ':'
  }

  predicate IsSeparatorPosition(i: int) {
    i == 4 || i == 7 || i == 10 || i == 13
  }

  /**
   The production-date rewrite: a raw date gets its four separators replaced
   by '-', '-', ' ' and ':'; any other string, including one too short to
   have a separator at position 13, is left exactly as it is.
   */
  function FormatDate(d: string): (r: string)
    ensures |r| == |d|
    ensures IsRawDate(d) ==> IsFormattedDate(r)
    ensures forall i :: 0 <= i < |d| && !(IsRawDate(d) && IsSeparatorPosition(i)) ==> r[i] == d[i]
    ensures !IsRawDate(r)
  {
    if IsRawDate(d) then d[4 := '-'][7 := '-'][10 := ' '][13 := ':'] else d
  }

  /** Rewriting twice is rewriting once: a rewritten date is no longer raw. */
  lemma FormatDateIdempotent(d: string)
    ensures FormatDate(FormatDate(d)) == FormatDate(d)
  {
  }

  /** `s` followed by NUL characters up to `size`: the zero-initialised C buffer holding `s`. */
  function ZeroFilled(s: string, size: nat): (buf: seq<char>)
    requires |s| <= size
  {
    s + seq(size - |s|, _ => '\0')
  }

  /**
   The source tests the separators on the 17-character buffer the date was
   copied into, whose tail is zero. That test agrees with `IsRawDate` on the
   copied text: a text shorter than 14 characters has NUL at position 13.
   */
  lemma RawDateOnBuffer(d: string)
    requires |d| <= 16
    requires IsAsciiText(d)
    ensures var buf := ZeroFilled(d, 17);
            (buf[4] == '_' && buf[7] == '_' && buf[10] == '_' && buf[13] == '_') <==> IsRawDate(d)
  {
    var buf := ZeroFilled(d, 17);
    if |d| <= 13 {
      assert buf[13] == '\0';
    }
  }

  /** The fields of a 1K card, read from their fixed blocks and offsets. */
  function Extract(blocks: BlockStore): SpoolRecord {
    var block1 := blocks[BlockMaterialIds];
    var block5 := blocks[BlockColorWeight];
    var block6 := blocks[BlockTemperatures];
    SpoolRecord(
      materialId := CopyAscii(block1[8..], 6),
      variantId := CopyAscii(block1, 7),
      filamentType := CopyAscii(blocks[BlockFilamentType], 16),
      detailedType := CopyAscii(blocks[BlockDetailedType], 16),
      color := Color(block5[0], block5[1], block5[2], block5[3]),
      weightGrams := ReadLe16(block5[4..]),
      diameter := ReadLe32Word(block5[8..]),
      dryingTempC := ReadLe16(block6[0..]),
      dryingHours := ReadLe16(block6[2..]),
      hotendMaxC := ReadLe16(block6[8..]),
      hotendMinC := ReadLe16(block6[10..]),
      nozzleDiameter := ReadLe32Word(blocks[BlockNozzle][12..]),
      spoolWidthRaw := ReadLe16(blocks[BlockSpoolWidth][4..]),
      productionDate := FormatDate(CopyAscii(blocks[BlockProductionDate], 16)),
      filamentLengthM := ReadLe16(blocks[BlockFilamentLength][4..]))
  }

  /**
   Decoding a card: nothing unless the card is a 1K card that passes the
   admission check; after that, every field unconditionally.
   */
  function Decode(card: Card): (r: Option<SpoolRecord>)
    ensures r.Some? <==> TagIsValid(card)
    ensures card.kind != Type1k ==> r.None?
  {
    if card.kind != Type1k then None
    else if !TagIsValid(card) then None
    else Some(Extract(card.blocks))
  }

  /** The decoded spool together with its row of the filament table, when the variant id has one. */
  datatype Parsed = Parsed(spool: SpoolRecord, filament: Option<FilamentInfo>)

  /**
   `bambu_parse` up to its lookup: decode, then look the variant id up in
   `table`. A missing row is a normal outcome, not a failure.
   */
  function Parse(card: Card, table: seq<FilamentInfo>): (r: Option<Parsed>)
    ensures r.Some? <==> TagIsValid(card)
    ensures r.Some? ==> Decode(card) == Some(r.value.spool)
    ensures r.Some? && r.value.filament.Some? ==>
      r.value.filament.value in table && r.value.filament.value.variantId == r.value.spool.variantId
    ensures r.Some? && r.value.filament.None? ==>
      forall j :: 0 <= j < |table| ==> table[j].variantId != r.value.spool.variantId
  {
    match Decode(card)
    case None => None
    case Some(spool) => Some(Parsed(spool, Lookup(table, spool.variantId)))
  }

  /**
   `bambu_parse` step by step, up to the lookup: the type test, the admission
   check, the copies and reads in the source's order, the date rewrite, then
   the table scan. It agrees with `Parse`.
   */
  method ParseTag(card: Card, table: seq<FilamentInfo>) returns (r: Option<Parsed>)
    ensures r.Some? <==> TagIsValid(card)
    ensures r == Parse(card, table)
  {
    if card.kind != Type1k {
      return None;
    }
    var valid := CheckTag(card);
    if !valid {
      return None;
    }
    var blocks := card.blocks;
    var block1 := blocks[BlockMaterialIds];
    var materialId := CopyAsciiString(block1[8..], 6);
    var variantId := CopyAsciiString(block1, 7);
    var filamentType := CopyAsciiString(blocks[BlockFilamentType], 16);
    var detailedType := CopyAsciiString(blocks[BlockDetailedType], 16);
    var block5 := blocks[BlockColorWeight];
    var block6 := blocks[BlockTemperatures];
    var rawDate := CopyAsciiString(blocks[BlockProductionDate], 16);
    CopyAsciiUnique(block1[8..], 6, materialId);
    CopyAsciiUnique(block1, 7, variantId);
    CopyAsciiUnique(blocks[BlockFilamentType], 16, filamentType);
    CopyAsciiUnique(blocks[BlockDetailedType], 16, detailedType);
    CopyAsciiUnique(blocks[BlockProductionDate], 16, rawDate);
    var spool := SpoolRecord(
      materialId := materialId,
      variantId := variantId,
      filamentType := filamentType,
      detailedType := detailedType,
      color := Color(block5[0], block5[1], block5[2], block5[3]),
      weightGrams := ReadLe16(block5[4..]),
      diameter := ReadLe32Word(block5[8..]),
      dryingTempC := ReadLe16(block6[0..]),
      dryingHours := ReadLe16(block6[2..]),
      hotendMaxC := ReadLe16(block6[8..]),
      hotendMinC := ReadLe16(block6[10..]),
      nozzleDiameter := ReadLe32Word(blocks[BlockNozzle][12..]),
      spoolWidthRaw := ReadLe16(blocks[BlockSpoolWidth][4..]),
      productionDate := FormatDate(rawDate),
      filamentLengthM := ReadLe16(blocks[BlockFilamentLength][4..]));
    var filament := LookupFilament(table, variantId);
    return Some(Parsed(spool, filament));
  }

  /** `s` starts with one of the known filament-family tokens. */
  predicate HasKnownTypePrefix(s: string) {
    exists k :: 0 <= k < |KnownFilamentTypes| && KnownFilamentTypes[k] <= s
  }

  /** What every decoded record satisfies. */
  predicate WellFormedRecord(rec: SpoolRecord) {
    && IsAsciiText(rec.materialId) && |rec.materialId| <= 6 && "GF" <= rec.materialId
    && IsAsciiText(rec.variantId) && |rec.variantId| <= 7
    && IsAsciiText(rec.filamentType) && |rec.filamentType| <= 16 && HasKnownTypePrefix(rec.filamentType)
    && IsAsciiText(rec.detailedType) && |rec.detailedType| <= 16
    && InDiameterBitRanges(rec.diameter)
    && IsAsciiText(rec.productionDate) && |rec.productionDate| <= 16 && !IsRawDate(rec.productionDate)
  }

  lemma CopyIsAsciiText(src: seq<Byte>, maxLen: nat)
    requires maxLen <= |src|
    ensures IsAsciiText(CopyAscii(src, maxLen))
  {
    var s := CopyAscii(src, maxLen);
    forall i | 0 <= i < |s|
      ensures ' ' <= s[i] <= '~'
    {
      assert IsPrintable(src[i]);
    }
  }

  /** A printable prefix of the source block is a prefix of the copied text. */
  lemma CopyKeepsTextPrefix(src: seq<Byte>, maxLen: nat, token: string)
    requires maxLen <= |src|
    requires |token| <= maxLen
    requires IsAsciiText(token)
    requires StartsWithText(src, token)
    ensures token <= CopyAscii(src, maxLen)
  {
    CopyAsciiKeepsPrintablePrefix(src, maxLen, |token|);
    var s := CopyAscii(src, maxLen);
    assert s[..|token|] == token;
  }

  lemma KnownFilamentTypesAreText()
    ensures forall k :: 0 <= k < |KnownFilamentTypes| ==> IsAsciiText(KnownFilamentTypes[k]) && |KnownFilamentTypes[k]| <= 4
  {
  }

  lemma MaterialIdWellFormed(block1: Block)
    requires block1[8] == 'G' as int && block1[9] == 'F' as int
    ensures var m := CopyAscii(block1[8..], 6); IsAsciiText(m) && "GF" <= m
  {
    CopyIsAsciiText(block1[8..], 6);
    CopyKeepsTextPrefix(block1[8..], 6, "GF");
  }

  lemma FilamentTypeWellFormed(block2: Block)
    requires HasKnownFilamentType(block2)
    ensures var t := CopyAscii(block2, 16); IsAsciiText(t) && HasKnownTypePrefix(t)
  {
    CopyIsAsciiText(block2, 16);
    KnownFilamentTypesAreText();
    var k :| 0 <= k < |KnownFilamentTypes| && StartsWithText(block2, KnownFilamentTypes[k]);
    CopyKeepsTextPrefix(block2, 16, KnownFilamentTypes[k]);
  }

  lemma ProductionDateWellFormed(block12: Block)
    ensures var d := FormatDate(CopyAscii(block12, 16));
            IsAsciiText(d) && |d| <= 16 && !IsRawDate(d)
  {
    var raw := CopyAscii(block12, 16);
    CopyIsAsciiText(block12, 16);
    var d := FormatDate(raw);
    forall i | 0 <= i < |d|
      ensures ' ' <= d[i] <= '~'
    {
      assert ' ' <= raw[i] <= '~';
    }
  }

  /**
   A decoded record has printable text fields within their buffer sizes, a
   material id starting with "GF", a filament type starting with a known
   token, a diameter word in the admitted ranges, and a production date that
   is no longer in raw form.
   */
  lemma DecodedRecordWellFormed(card: Card)
    ensures Decode(card).Some? ==> WellFormedRecord(Decode(card).value)
  {
    if Decode(card).None? {
      return;
    }
    var blocks := card.blocks;
    var rec := Extract(blocks);
    assert Decode(card) == Some(rec);
    var block1 := blocks[BlockMaterialIds];
    assert block1[8] == 'G' as int && block1[9] == 'F' as int;
    assert HasKnownFilamentType(blocks[BlockFilamentType]);
    assert PlausibleDiameter(DiameterWord(card));
    PlausibleDiameterBitRanges(DiameterWord(card));
    assert InDiameterBitRanges(rec.diameter);
    MaterialIdWellFormed(block1);
    assert IsAsciiText(rec.materialId) && "GF" <= rec.materialId;
    CopyIsAsciiText(block1, 7);
    assert IsAsciiText(rec.variantId);
    FilamentTypeWellFormed(blocks[BlockFilamentType]);
    assert IsAsciiText(rec.filamentType) && HasKnownTypePrefix(rec.filamentType);
    CopyIsAsciiText(blocks[BlockDetailedType], 16);
    assert IsAsciiText(rec.detailedType);
    ProductionDateWellFormed(blocks[BlockProductionDate]);
    assert IsAsciiText(rec.productionDate) && !IsRawDate(rec.productionDate);
  }

  /**
   Where each numeric field comes from: colour is block 5 bytes 0..3 in
   R, G, B, A order; weight is block 5 bytes 4-5; the drying temperature and
   hours are block 6 bytes 0-1 and 2-3; the hotend maximum (bytes 8-9) is
   stored before the minimum (bytes 10-11); the nozzle word is block 8 bytes
   12..15; the spool width and the filament length are bytes 4-5 of blocks 10
   and 14. All are little-endian, and a length of 0 is passed through.
   */
  lemma DecodedFieldOffsets(card: Card)
    ensures Decode(card).Some? ==>
            var rec := Decode(card).value;
            var b5, b6 := card.blocks[BlockColorWeight], card.blocks[BlockTemperatures];
            var b8 := card.blocks[BlockNozzle];
            var b10, b14 := card.blocks[BlockSpoolWidth], card.blocks[BlockFilamentLength];
            && rec.color == Color(b5[0], b5[1], b5[2], b5[3])
            && rec.weightGrams == b5[4] as int + 0x100 * b5[5] as int
            && rec.diameter == b5[8] as int + 0x100 * b5[9] as int + 0x1_0000 * b5[10] as int + 0x100_0000 * b5[11] as int
            && rec.dryingTempC == b6[0] as int + 0x100 * b6[1] as int
            && rec.dryingHours == b6[2] as int + 0x100 * b6[3] as int
            && rec.hotendMaxC == b6[8] as int + 0x100 * b6[9] as int
            && rec.hotendMinC == b6[10] as int + 0x100 * b6[11] as int
            && rec.nozzleDiameter == b8[12] as int + 0x100 * b8[13] as int + 0x1_0000 * b8[14] as int + 0x100_0000 * b8[15] as int
            && rec.spoolWidthRaw == b10[4] as int + 0x100 * b10[5] as int
            && rec.filamentLengthM == b14[4] as int + 0x100 * b14[5] as int
  {
  }

  /** The blocks a decode reads: 1, 2, 4, 5, 6, 8, 10, 12 and 14. */
  const FieldBlocks: set<nat> := {BlockMaterialIds, BlockFilamentType, BlockDetailedType, BlockColorWeight,
    BlockTemperatures, BlockNozzle, BlockSpoolWidth, BlockProductionDate, BlockFilamentLength}

  /** Two cards that agree on every block a decode reads. */
  predicate SameFieldBlocks(a: Card, b: Card) {
    forall k :: k in FieldBlocks ==> a.blocks[k] == b.blocks[k]
  }

  /** Decoding depends on the card type and the nine field blocks only; the other 55 blocks are never read. */
  lemma DecodeReadsOnlyFieldBlocks(a: Card, b: Card)
    requires a.kind == b.kind
    requires SameFieldBlocks(a, b)
    ensures Decode(a) == Decode(b)
  {
    assert a.blocks[BlockMaterialIds] == b.blocks[BlockMaterialIds];
    assert a.blocks[BlockFilamentType] == b.blocks[BlockFilamentType];
    assert a.blocks[BlockDetailedType] == b.blocks[BlockDetailedType];
    assert a.blocks[BlockColorWeight] == b.blocks[BlockColorWeight];
    assert a.blocks[BlockTemperatures] == b.blocks[BlockTemperatures];
    assert a.blocks[BlockNozzle] == b.blocks[BlockNozzle];
    assert a.blocks[BlockSpoolWidth] == b.blocks[BlockSpoolWidth];
    assert a.blocks[BlockProductionDate] == b.blocks[BlockProductionDate];
    assert a.blocks[BlockFilamentLength] == b.blocks[BlockFilamentLength];
  }
}
