/**
 The inverse of the layout decoder: a spool record written back into the
 fixed block layout. It serves as the independent partner of `Decode`:
 decoding an encoded record gives the record back, which pins every field to
 its block and offset at once.
 */
module Encoder {
  import opened Wrappers
  import opened Float32
  import opened Parser
  import opened Bambu

  /** The bytes of a printable ASCII string. */
  function TextBytes(s: string): (b: seq<Byte>)
    requires IsAsciiText(s)
    ensures |b| == |s|
    ensures forall i :: 0 <= i < |s| ==> IsPrintable(b[i]) && b[i] == s[i] as int
  {
    seq(|s|, i requires 0 <= i < |s| => s[i] as int)
  }

  /** A string in a zero-padded field of `size` bytes. */
  function Padded(s: string, size: nat): (b: seq<Byte>)
    requires IsAsciiText(s) && |s| <= size
    ensures |b| == size
    ensures forall i :: 0 <= i < |s| ==> IsPrintable(b[i]) && b[i] == s[i] as int
    ensures forall i :: |s| <= i < size ==> b[i] == 0
  {
    TextBytes(s) + seq(size - |s|, _ => 0)
  }

  /** Copying a padded field back out gives the string, whatever bound at least its length is used. */
  lemma CopyPadded(s: string, size: nat, maxLen: nat)
    requires IsAsciiText(s) && |s| <= maxLen <= size
    ensures CopyAscii(Padded(s, size), maxLen) == s
  {
    CopyAsciiUnique(Padded(s, size), maxLen, s);
  }

  /** The two little-endian bytes of a 16-bit value; `ReadLe16` reads the value back. */
  function Le16Bytes(v: Uint16): (b: seq<Byte>)
    ensures |b| == 2 && ReadLe16(b) == v
  {
    [v % 0x100, v / 0x100]
  }

  /** The four little-endian bytes of a 32-bit word; `ReadLe32Word` reads the word back. */
  function Le32Bytes(w: Word32): (b: seq<Byte>)
    ensures |b| == 4 && ReadLe32Word(b) == w
  {
    Le16Bytes(w % 0x1_0000) + Le16Bytes(w / 0x1_0000)
  }

  /** Each 16-bit value has exactly one little-endian byte pair. */
  lemma Le16BytesOfRead(b: seq<Byte>)
    requires |b| == 2
    ensures Le16Bytes(ReadLe16(b)) == b
  {
  }

  /** The inverse of `FormatDate` on formatted dates: the separators go back to underscores. */
  function UnformatDate(d: string): (r: string)
  {
    if IsFormattedDate(d) then d[4 := '_'][7 := '_'][10 := '_'][13 := '_'] else d
  }

  /** Formatting is undone by unformatting, and every string that is not raw is a formatted image. */
  lemma DateRoundTrips(d: string)
    ensures IsRawDate(d) ==> UnformatDate(FormatDate(d)) == d
    ensures !IsRawDate(d) ==> FormatDate(UnformatDate(d)) == d
  {
    if IsRawDate(d) {
      var u := UnformatDate(FormatDate(d));
      assert |u| == |d|;
      forall i | 0 <= i < |d|
        ensures u[i] == d[i]
      {
        if !IsSeparatorPosition(i) {
          assert FormatDate(d)[i] == d[i];
        }
      }
    } else if IsFormattedDate(d) {
      var u := UnformatDate(d);
      assert IsRawDate(u);
      var f := FormatDate(u);
      assert |f| == |d|;
      forall i | 0 <= i < |d|
        ensures f[i] == d[i]
      {
        if !IsSeparatorPosition(i) {
          assert f[i] == u[i];
        }
      }
    }
  }

  lemma UnformatKeepsText(d: string)
    requires IsAsciiText(d)
    ensures IsAsciiText(UnformatDate(d)) && |UnformatDate(d)| == |d|
  {
  }

  /** A card whose blocks are all zero. */
  function ZeroStore(): BlockStore {
    seq<Block>(64, _ => ZeroBlock)
  }

  function Zeros(n: nat): (b: seq<Byte>)
    ensures |b| == n && forall i :: 0 <= i < n ==> b[i] == 0
  {
    seq(n, _ => 0)
  }

  function MaterialIdsBlock(rec: SpoolRecord): Block
    requires WellFormedRecord(rec)
  {
    Padded(rec.variantId, 8) + Padded(rec.materialId, 8)
  }

  function ColorWeightBlock(rec: SpoolRecord): Block {
    var c := rec.color;
    [c.red, c.green, c.blue, c.alpha] + Le16Bytes(rec.weightGrams) + Zeros(2) + Le32Bytes(rec.diameter) + Zeros(4)
  }

  function TemperaturesBlock(rec: SpoolRecord): Block {
    Le16Bytes(rec.dryingTempC) + Le16Bytes(rec.dryingHours) + Zeros(4)
      + Le16Bytes(rec.hotendMaxC) + Le16Bytes(rec.hotendMinC) + Zeros(4)
  }

  /**
   Block 4 for a detailed type. An empty one is written as a zero followed by
   a space: the admission check needs a printable byte in the block, and the
   leading zero stops the copy before it.
   */
  function DetailedTypeBlock(rec: SpoolRecord): Block
    requires WellFormedRecord(rec)
  {
    if rec.detailedType == "" then [0, ' ' as int] + Zeros(14) else Padded(rec.detailedType, 16)
  }

  /** Block 4 passes the admission check and gives the detailed type back, empty or not. */
  lemma DetailedTypeDecode(rec: SpoolRecord)
    requires WellFormedRecord(rec)
    ensures PrintableWindow(DetailedTypeBlock(rec), 16)
    ensures CopyAscii(DetailedTypeBlock(rec), 16) == rec.detailedType
  {
    var b := DetailedTypeBlock(rec);
    if rec.detailedType == "" {
      assert IsPrintable(b[1]);
    } else {
      CopyPadded(rec.detailedType, 16, 16);
      assert IsPrintable(b[0]);
    }
  }

  /** A 16-bit value at bytes 4-5 of an otherwise zero block. */
  function Uint16AtFour(v: Uint16): Block {
    Zeros(4) + Le16Bytes(v) + Zeros(10)
  }

  /** The 1K card a Bambu printer would write for `rec`; blocks no field uses are zero. */
  function Encode(rec: SpoolRecord): (card: Card)
    requires WellFormedRecord(rec)
    ensures card.kind == Type1k
  {
    UnformatKeepsText(rec.productionDate);
    var blocks := ZeroStore()
      [BlockMaterialIds := MaterialIdsBlock(rec)]
      [BlockFilamentType := Padded(rec.filamentType, 16)]
      [BlockDetailedType := DetailedTypeBlock(rec)]
      [BlockColorWeight := ColorWeightBlock(rec)]
      [BlockTemperatures := TemperaturesBlock(rec)]
      [BlockNozzle := Zeros(12) + Le32Bytes(rec.nozzleDiameter)]
      [BlockSpoolWidth := Uint16AtFour(rec.spoolWidthRaw)]
      [BlockProductionDate := Padded(UnformatDate(rec.productionDate), 16)]
      [BlockFilamentLength := Uint16AtFour(rec.filamentLengthM)];
    Card(Type1k, blocks)
  }

  lemma EncodedTagIsValid(rec: SpoolRecord)
    requires WellFormedRecord(rec)
    ensures TagIsValid(Encode(rec))
  {
    var card := Encode(rec);
    var block1 := card.blocks[BlockMaterialIds];
    assert block1[8..] == Padded(rec.materialId, 8);
    assert block1[8] == 'G' as int && block1[9] == 'F' as int by {
      assert rec.materialId[0] == 'G' && rec.materialId[1] == 'F';
    }
    var k :| 0 <= k < |KnownFilamentTypes| && KnownFilamentTypes[k] <= rec.filamentType;
    KnownFilamentTypesAreText();
    var token := KnownFilamentTypes[k];
    assert StartsWithText(card.blocks[BlockFilamentType], token) by {
      forall i | 0 <= i < |token|
        ensures card.blocks[BlockFilamentType][i] == token[i] as int
      {
        assert token[i] == rec.filamentType[i];
      }
    }
    DetailedTypeDecode(rec);
    var block5 := card.blocks[BlockColorWeight];
    assert block5[8..12] == Le32Bytes(rec.diameter);
    PlausibleDiameterBitRanges(rec.diameter);
  }

  /** Each field block of an encoded card is the block its builder produced. */
  lemma EncodedBlocks(rec: SpoolRecord)
    requires WellFormedRecord(rec)
    ensures var b := Encode(rec).blocks;
      && b[BlockMaterialIds] == MaterialIdsBlock(rec)
      && b[BlockFilamentType] == Padded(rec.filamentType, 16)
      && b[BlockDetailedType] == DetailedTypeBlock(rec)
      && b[BlockColorWeight] == ColorWeightBlock(rec)
      && b[BlockTemperatures] == TemperaturesBlock(rec)
      && b[BlockNozzle] == Zeros(12) + Le32Bytes(rec.nozzleDiameter)
      && b[BlockSpoolWidth] == Uint16AtFour(rec.spoolWidthRaw)
      && b[BlockProductionDate] == Padded(UnformatDate(rec.productionDate), 16)
      && b[BlockFilamentLength] == Uint16AtFour(rec.filamentLengthM)
  {
  }

  /** Block 1 gives both identifiers back. */
  lemma MaterialIdsDecode(rec: SpoolRecord)
    requires WellFormedRecord(rec)
    ensures CopyAscii(MaterialIdsBlock(rec)[8..], 6) == rec.materialId
    ensures CopyAscii(MaterialIdsBlock(rec), 7) == rec.variantId
  {
    var block1 := MaterialIdsBlock(rec);
    assert block1[8..] == Padded(rec.materialId, 8);
    CopyPadded(rec.materialId, 8, 6);
    assert block1[..8] == Padded(rec.variantId, 8);
    CopyPadded(rec.variantId, 8, 7);
    CopyAsciiLooksOnlyAtBound(block1, Padded(rec.variantId, 8), 7);
  }

  /** The production-date block gives the formatted date back. */
  lemma ProductionDateDecode(rec: SpoolRecord)
    requires WellFormedRecord(rec)
    ensures FormatDate(CopyAscii(Padded(UnformatDate(rec.productionDate), 16), 16)) == rec.productionDate
  {
    UnformatKeepsText(rec.productionDate);
    CopyPadded(UnformatDate(rec.productionDate), 16, 16);
    DateRoundTrips(rec.productionDate);
  }

  /** Block 5 gives the colour, the weight and the diameter back. */
  lemma ColorWeightDecode(rec: SpoolRecord)
    ensures var b := ColorWeightBlock(rec);
      && Color(b[0], b[1], b[2], b[3]) == rec.color
      && ReadLe16(b[4..]) == rec.weightGrams
      && ReadLe32Word(b[8..]) == rec.diameter
  {
    var b := ColorWeightBlock(rec);
    assert b[4..6] == Le16Bytes(rec.weightGrams);
    assert b[8..12] == Le32Bytes(rec.diameter);
  }

  /** Block 6 gives the four temperature and time fields back. */
  lemma TemperaturesDecode(rec: SpoolRecord)
    ensures var b := TemperaturesBlock(rec);
      && ReadLe16(b[0..]) == rec.dryingTempC
      && ReadLe16(b[2..]) == rec.dryingHours
      && ReadLe16(b[8..]) == rec.hotendMaxC
      && ReadLe16(b[10..]) == rec.hotendMinC
  {
    var b := TemperaturesBlock(rec);
    assert b[0..2] == Le16Bytes(rec.dryingTempC);
    assert b[2..4] == Le16Bytes(rec.dryingHours);
    assert b[8..10] == Le16Bytes(rec.hotendMaxC);
    assert b[10..12] == Le16Bytes(rec.hotendMinC);
  }

  /** A value stored at bytes 4-5 is read back from there. */
  lemma Uint16AtFourDecode(v: Uint16)
    ensures ReadLe16(Uint16AtFour(v)[4..]) == v
  {
    assert Uint16AtFour(v)[4..6] == Le16Bytes(v);
  }

  lemma NozzleDecode(w: Word32)
    ensures ReadLe32Word((Zeros(12) + Le32Bytes(w))[12..]) == w
  {
    assert (Zeros(12) + Le32Bytes(w))[12..] == Le32Bytes(w);
  }

  /** Every field written by `Encode` is read back by `Extract`. */
  lemma EncodedFieldsDecode(rec: SpoolRecord)
    requires WellFormedRecord(rec)
    ensures Extract(Encode(rec).blocks) == rec
  {
    EncodedBlocks(rec);
    MaterialIdsDecode(rec);
    CopyPadded(rec.filamentType, 16, 16);
    DetailedTypeDecode(rec);
    ProductionDateDecode(rec);
    ColorWeightDecode(rec);
    TemperaturesDecode(rec);
    NozzleDecode(rec.nozzleDiameter);
    Uint16AtFourDecode(rec.spoolWidthRaw);
    Uint16AtFourDecode(rec.filamentLengthM);
  }

  /** Round trip: decoding the layout written for a record gives that record back. */
  lemma DecodeEncode(rec: SpoolRecord)
    requires WellFormedRecord(rec)
    ensures Decode(Encode(rec)) == Some(rec)
  {
    EncodedTagIsValid(rec);
    EncodedFieldsDecode(rec);
  }

  /** Re-encoding any decoded record decodes to the same record. */
  lemma ReencodeDecoded(card: Card)
    requires Decode(card).Some?
    ensures WellFormedRecord(Decode(card).value)
    ensures Decode(Encode(Decode(card).value)) == Decode(card)
  {
    DecodedRecordWellFormed(card);
    DecodeEncode(Decode(card).value);
  }
}
