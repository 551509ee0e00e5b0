/**
 Concrete cases from the repository's test suite (test/test_bambu.c), stated
 on the model: the helper examples, the rejection cards the suite builds by
 hand, and the pink PLA Basic spool.
 */
module Vectors {
  import opened Wrappers
  import opened Float32
  import opened Parser
  import opened Filaments
  import opened Bambu
  import opened Encoder

  /** A 1.75 mm diameter, the value every sample spool carries. */
  const OnePointSevenFiveWord: Word32 := 0x3FE0_0000
  /** 0.5f, a diameter the admission check refuses. */
  const HalfWord: Word32 := 0x3F00_0000

  lemma Le16Example()
    ensures ReadLe16([0xE8, 0x03]) == 1000
  {
  }

  /** Bytes 00 00 E0 3F are the word 0x3FE00000, which is 1.75f. */
  lemma FloatWordExample()
    ensures ReadLe32Word([0x00, 0x00, 0xE0, 0x3F]) == OnePointSevenFiveWord
    ensures ToFloat(OnePointSevenFiveWord) == Finite(7 * Pow2(147))
  {
    OnePointSevenFive();
  }

  lemma PrintableWindowExamples()
    ensures PrintableWindow(Padded("PLA Basic", 16), 16)
    ensures !PrintableWindow([0x01, 0x02, 'A' as int, 'B' as int, 0x00], 5)
    ensures !PrintableWindow([0x00, 0x00, 0x00, 0x00], 4)
  {
    assert IsPrintable(Padded("PLA Basic", 16)[0]);
    var bad: seq<Byte> := [0x01, 0x02, 'A' as int, 'B' as int, 0x00];
    assert !(bad[0] == 0 || IsPrintable(bad[0]));
    var zeros: seq<Byte> := [0x00, 0x00, 0x00, 0x00];
    assert forall i :: 0 <= i < 4 ==> !IsPrintable(zeros[i]);
  }

  lemma CopyExample()
    ensures CopyAscii(Padded("PLA Basic", 16), 16) == "PLA Basic"
  {
    CopyPadded("PLA Basic", 16, 16);
  }

  lemma DateExamples()
    ensures FormatDate("2025_07_21_14_17") == "2025-07-21 14:17"
    ensures FormatDate("2025/07/21/14/17") == "2025/07/21/14/17"
    ensures FormatDate("2025_07_21") == "2025_07_21"
  {
  }

  /** The card the suite's rejection tests start from: zero except for blocks 1, 2, 4 and 5. */
  function SampleCard(kind: CardType, block1: Block, block2: Block, block4: Block, block5: Block): (card: Card)
    ensures card.kind == kind
    ensures card.blocks[1] == block1 && card.blocks[2] == block2
    ensures card.blocks[4] == block4 && card.blocks[5] == block5
  {
    Card(kind, ZeroStore()[1 := block1][2 := block2][4 := block4][5 := block5])
  }

  /** Block 1 holding variant id "A00-R3" and, at byte 8, `marker`. */
  function IdsBlock(marker: string): Block
    requires IsAsciiText(marker) && |marker| <= 8
  {
    Padded("A00-R3", 8) + Padded(marker, 8)
  }

  /** Block 5 with only the diameter word set. */
  function DiameterBlock(w: Word32): Block {
    Zeros(8) + Le32Bytes(w) + Zeros(4)
  }

  function NonPrintableBlock(): Block {
    [0x01, 0x02, 0x03, 0x04] + Zeros(12)
  }

  lemma DiameterBlockWord(kind: CardType, b1: Block, b2: Block, b4: Block, w: Word32)
    ensures DiameterWord(SampleCard(kind, b1, b2, b4, DiameterBlock(w))) == w
  {
    assert DiameterBlock(w)[8..12] == Le32Bytes(w);
  }

  /** The well-formed sample the rejection tests each spoil in one place is itself accepted. */
  lemma SampleAccepted()
    ensures TagIsValid(SampleCard(Type1k, IdsBlock("GFA00"), Padded("PLA", 16), Padded("PLA Basic", 16),
                                  DiameterBlock(OnePointSevenFiveWord)))
  {
    var card := SampleCard(Type1k, IdsBlock("GFA00"), Padded("PLA", 16), Padded("PLA Basic", 16),
                           DiameterBlock(OnePointSevenFiveWord));
    assert StartsWithText(card.blocks[2], KnownFilamentTypes[0]);
    assert IsPrintable(card.blocks[4][0]);
    DiameterBlockWord(Type1k, IdsBlock("GFA00"), Padded("PLA", 16), Padded("PLA Basic", 16), OnePointSevenFiveWord);
    PlausibleDiameterBitRanges(OnePointSevenFiveWord);
  }

  lemma MissingMarkerRejected()
    ensures !TagIsValid(SampleCard(Type1k, IdsBlock("XX"), Padded("PLA", 16), Padded("PLA Basic", 16),
                                   DiameterBlock(OnePointSevenFiveWord)))
  {
    assert IdsBlock("XX")[8] == 'X' as int;
  }

  lemma UnknownTypeRejected()
    ensures !TagIsValid(SampleCard(Type1k, IdsBlock("GFA00"), Padded("UNKNOWN", 16), Padded("PLA Basic", 16),
                                   DiameterBlock(OnePointSevenFiveWord)))
  {
    var block2 := Padded("UNKNOWN", 16);
    forall k | 0 <= k < |KnownFilamentTypes|
      ensures !StartsWithText(block2, KnownFilamentTypes[k])
    {
      assert block2[0] == 'U' as int;
      assert KnownFilamentTypes[k][0] != 'U';
    }
  }

  /** The source compares raw bytes: a longer word that starts with a token passes, lower case does not. */
  lemma TokenIsRawPrefix()
    ensures HasKnownFilamentType(Padded("PLASTIC", 16))
    ensures !HasKnownFilamentType(Padded("pla", 16))
  {
    assert StartsWithText(Padded("PLASTIC", 16), KnownFilamentTypes[0]);
    var block2 := Padded("pla", 16);
    forall k | 0 <= k < |KnownFilamentTypes|
      ensures !StartsWithText(block2, KnownFilamentTypes[k])
    {
      assert block2[0] == 'p' as int;
      assert 'A' <= KnownFilamentTypes[k][0] <= 'Z';
    }
  }

  lemma HalfMillimetreRejected()
    ensures !TagIsValid(SampleCard(Type1k, IdsBlock("GFA00"), Padded("PLA", 16), Padded("PLA Basic", 16),
                                   DiameterBlock(HalfWord)))
  {
    DiameterBlockWord(Type1k, IdsBlock("GFA00"), Padded("PLA", 16), Padded("PLA Basic", 16), HalfWord);
    PlausibleDiameterBitRanges(HalfWord);
  }

  lemma NonPrintableDetailRejected()
    ensures !TagIsValid(SampleCard(Type1k, IdsBlock("GFA00"), Padded("PLA", 16), NonPrintableBlock(),
                                   DiameterBlock(OnePointSevenFiveWord)))
  {
    assert NonPrintableBlock()[0] == 0x01;
  }

  lemma FourKRejected()
    ensures Decode(SampleCard(Type4k, IdsBlock("GFA00"), Padded("PLA", 16), Padded("PLA Basic", 16),
                              DiameterBlock(OnePointSevenFiveWord))) == None
  {
  }

  /**
   Padding counts as printable-window content but stops the copy: a detailed
   type block that starts with a zero passes the admission check and still
   decodes to an empty detailed type.
   */
  lemma LeadingZeroDetailedType()
    ensures var card := SampleCard(Type1k, IdsBlock("GFA00"), Padded("PLA", 16), [0] + Padded("PLA", 15),
                                   DiameterBlock(OnePointSevenFiveWord));
            Decode(card).Some? && Decode(card).value.detailedType == ""
  {
    var block4: Block := [0] + Padded("PLA", 15);
    var card := SampleCard(Type1k, IdsBlock("GFA00"), Padded("PLA", 16), block4, DiameterBlock(OnePointSevenFiveWord));
    assert StartsWithText(card.blocks[2], KnownFilamentTypes[0]);
    assert IsPrintable(block4[1]);
    assert PrintableWindow(block4, 16);
    DiameterBlockWord(Type1k, IdsBlock("GFA00"), Padded("PLA", 16), block4, OnePointSevenFiveWord);
    PlausibleDiameterBitRanges(OnePointSevenFiveWord);
  }

  /** The pink PLA Basic spool of the suite, as decoded (the date already rewritten). */
  const Pink: SpoolRecord := SpoolRecord(
    materialId := "GFA00",
    variantId := "A00-R3",
    filamentType := "PLA",
    detailedType := "PLA Basic",
    color := Color(0xF5, 0x54, 0x7C, 0xFF),
    weightGrams := 1000,
    diameter := OnePointSevenFiveWord,
    dryingTempC := 55,
    dryingHours := 8,
    hotendMaxC := 230,
    hotendMinC := 190,
    nozzleDiameter := 0x3E4C_CCCD,
    spoolWidthRaw := 3212,
    productionDate := "2025-07-21 14:17",
    filamentLengthM := 330)

  lemma PinkWellFormed()
    ensures WellFormedRecord(Pink)
  {
    assert "PLA" == KnownFilamentTypes[0];
    assert HasKnownTypePrefix(Pink.filamentType);
  }

  /** The card written for the pink spool holds the date in its raw, underscored form. */
  lemma PinkRawDate()
    ensures WellFormedRecord(Pink) && Encode(Pink).blocks[BlockProductionDate] == Padded("2025_07_21_14_17", 16)
  {
    PinkWellFormed();
    var rec := Pink;
    EncodedBlocks(rec);
    assert UnformatDate(rec.productionDate) == "2025_07_21_14_17";
  }

  /** That card is parsed back to the pink spool and its "Hot Pink" table row. */
  lemma PinkParses()
    ensures WellFormedRecord(Pink)
            && Parse(Encode(Pink), BambuTable) == Some(Parsed(Pink, Some(FilamentInfo("A00-R3", "10204", "Hot Pink"))))
  {
    PinkWellFormed();
    DecodeEncode(Pink);
    KnownLookups();
  }

  /** A filament length of zero is decoded as zero rather than treated as missing. */
  lemma ZeroLengthPassesThrough()
    ensures var rec := Pink.(filamentLengthM := 0);
            WellFormedRecord(rec) && Decode(Encode(rec)) == Some(rec) && Decode(Encode(rec)).value.filamentLengthM == 0
  {
    PinkWellFormed();
    DecodeEncode(Pink.(filamentLengthM := 0));
  }

  /** A spool without a detailed type is written and read back unchanged. */
  lemma EmptyDetailedTypeRoundTrips()
    ensures var rec := Pink.(detailedType := "");
            WellFormedRecord(rec) && Decode(Encode(rec)) == Some(rec) && Decode(Encode(rec)).value.detailedType == ""
  {
    PinkWellFormed();
    DecodeEncode(Pink.(detailedType := ""));
  }
}
