/**
 Field-access primitives and the admission check for Bambu Lab spool tags
 (plugin/bambu_parser.h).

 A tag is a MIFARE Classic card read as 64 blocks of 16 bytes. The primitives
 read little-endian integers and ASCII runs out of a block; `TagIsValid` is the
 five-step plausibility gate the decoder runs before trusting any field.
 */
module Parser {
  import opened Float32

  type Byte = b: int | 0 <= b < 0x100
  type Uint16 = x: int | 0 <= x < 0x1_0000

  const BlockSize: nat := 16
  const BlockCount: nat := 64

  type Block = b: seq<Byte> | |b| == BlockSize witness seq(16, _ => 0)
  /** A block of zero bytes, the content of a freshly cleared card. */
  const ZeroBlock: Block := seq(16, _ => 0)
  type BlockStore = s: seq<Block> | |s| == BlockCount witness seq<Block>(64, _ => ZeroBlock)

  datatype CardType = Type1k | Type4k

  /** The card as the reader hands it over: its type and its 64 blocks. */
  datatype Card = Card(kind: CardType, blocks: BlockStore)

  /** Where each field lives. Blocks 3, 7, 11, ... are sector trailers and carry no field. */
  const BlockMaterialIds: nat := 1
  const BlockFilamentType: nat := 2
  const BlockDetailedType: nat := 4
  const BlockColorWeight: nat := 5
  const BlockTemperatures: nat := 6
  const BlockNozzle: nat := 8
  const BlockSpoolWidth: nat := 10
  const BlockProductionDate: nat := 12
  const BlockFilamentLength: nat := 14

  /** A byte in the printable ASCII range 0x20..0x7E (zero is not printable). */
  predicate IsPrintable(b: int) {
    0x20 <= b <= 0x7E
  }

  /** A string made only of printable ASCII characters. */
  predicate IsAsciiText(s: string) {
    forall i :: 0 <= i < |s| ==> ' ' <= s[i] <= '~'
  }

  /**
   `bambu_read_le16`: the first byte OR-ed with the second shifted up by 8.
   The two bytes occupy disjoint bits, so the OR is their weighted sum
   (`LittleEndianOr16`); the value gives both bytes back.
   */
  function ReadLe16(data: seq<Byte>): (v: Uint16)
    requires |data| >= 2
    ensures v % 0x100 == data[0] && v / 0x100 == data[1]
  {
    data[0] as int + 0x100 * data[1] as int
  }

  /** The source's `lo | (hi << 8)` on bytes is `lo + 0x100 * hi`. */
  lemma LittleEndianOr16(lo: bv16, hi: bv16)
    requires lo < 0x100 && hi < 0x100
    ensures lo | (hi << 8) == lo + 0x100 * hi
  {
  }

  /**
   The 32-bit word `bambu_read_le_float` reinterprets as a float: byte k
   OR-ed in shifted up by 8k, so byte 0 is the least significant. The bytes
   occupy disjoint bits, so the OR is their weighted sum (`LittleEndianOr32`);
   the word gives all four bytes back.
   */
  function ReadLe32Word(data: seq<Byte>): (w: Word32)
    requires |data| >= 4
    ensures w % 0x100 == data[0] && (w / 0x100) % 0x100 == data[1]
    ensures (w / 0x1_0000) % 0x100 == data[2] && w / 0x100_0000 == data[3]
  {
    var high := ReadLe16(data[2..]);
    var w := ReadLe16(data) + 0x1_0000 * high;
    SplitHalves(ReadLe16(data), high);
    SplitBytes(data[0], data[1] + 0x100 * high);
    w
  }

  /** A word assembled from a low 16-bit half and a high part gives both back. */
  lemma SplitHalves(lo: int, hi: int)
    requires 0 <= lo < 0x1_0000
    ensures (lo + 0x1_0000 * hi) / 0x1_0000 == hi && (lo + 0x1_0000 * hi) % 0x1_0000 == lo
  {
  }

  /** A number assembled from a low byte and a high part gives both back. */
  lemma SplitBytes(lo: int, hi: int)
    requires 0 <= lo < 0x100
    ensures (lo + 0x100 * hi) / 0x100 == hi && (lo + 0x100 * hi) % 0x100 == lo
  {
  }

  /** The source's four shifted ORs on bytes are the weighted sum `ReadLe32Word` computes. */
  lemma LittleEndianOr32(b0: bv32, b1: bv32, b2: bv32, b3: bv32)
    requires b0 < 0x100 && b1 < 0x100 && b2 < 0x100 && b3 < 0x100
    ensures b0 | (b1 << 8) | (b2 << 16) | (b3 << 24) == b0 + 0x100 * b1 + 0x1_0000 * b2 + 0x100_0000 * b3
  {
  }

  /**
   `bambu_is_printable_ascii` as a property: among the first `len` bytes, every
   nonzero byte is printable, and at least one byte is printable. Zero bytes
   are padding; an all-zero window is not printable.
   */
  predicate PrintableWindow(data: seq<Byte>, len: nat)
    requires len <= |data|
  {
    && (forall i :: 0 <= i < len ==> data[i] == 0 || IsPrintable(data[i]))
    && (exists i :: 0 <= i < len && IsPrintable(data[i]))
  }

  /** `bambu_is_printable_ascii`: the scan with its early exit and its found-a-printable flag. */
  method IsPrintableAscii(data: seq<Byte>, len: nat) returns (printable: bool)
    requires len <= |data|
    ensures printable <==> PrintableWindow(data, len)
  {
    var foundPrintable := false;
    var i := 0;
    while i < len
      invariant 0 <= i <= len
      invariant forall j :: 0 <= j < i ==> data[j] == 0 || IsPrintable(data[j])
      invariant foundPrintable <==> exists j :: 0 <= j < i && IsPrintable(data[j])
    {
      if data[i] != 0 {
        if data[i] < 0x20 || data[i] > 0x7E {
          return false;
        }
        foundPrintable := true;
      }
      i := i + 1;
    }
    return foundPrintable;
  }

  /**
   `bambu_copy_ascii_string`: the longest printable run at the start of `src`,
   cut off after `maxLen` bytes. The copy stops silently at the first zero or
   non-printable byte; it never fails.
   */
  function CopyAscii(src: seq<Byte>, maxLen: nat): (s: string)
    requires maxLen <= |src|
    ensures |s| <= maxLen
    ensures forall i :: 0 <= i < |s| ==> IsPrintable(src[i]) && s[i] == src[i] as char
    ensures |s| < maxLen ==> !IsPrintable(src[|s|])
  {
    if maxLen == 0 || !IsPrintable(src[0]) then ""
    else [src[0] as char] + CopyAscii(src[1..], maxLen - 1)
  }

  /** `bambu_copy_ascii_string` as the source's loop, which copies until the bound or the first bad byte. */
  method CopyAsciiString(src: seq<Byte>, maxLen: nat) returns (dest: string)
    requires maxLen <= |src|
    ensures |dest| <= maxLen
    ensures forall i :: 0 <= i < |dest| ==> IsPrintable(src[i]) && dest[i] == src[i] as char
    ensures |dest| < maxLen ==> !IsPrintable(src[|dest|])
  {
    dest := "";
    var i := 0;
    while i < maxLen && src[i] != 0 && src[i] >= 0x20 && src[i] <= 0x7E
      invariant i <= maxLen && |dest| == i
      invariant forall j :: 0 <= j < i ==> IsPrintable(src[j]) && dest[j] == src[j] as char
    {
      dest := dest + [src[i] as char];
      i := i + 1;
    }
  }

  /** The copy is determined by its three properties: any string that has them is the copy. */
  lemma {:induction false} CopyAsciiUnique(src: seq<Byte>, maxLen: nat, s: string)
    requires maxLen <= |src|
    requires |s| <= maxLen
    requires forall i :: 0 <= i < |s| ==> IsPrintable(src[i]) && s[i] == src[i] as char
    requires |s| < maxLen ==> !IsPrintable(src[|s|])
    ensures s == CopyAscii(src, maxLen)
  {
    var c := CopyAscii(src, maxLen);
    assert |s| == |c|;
  }

  /** A printable stretch of `src` up to the bound is copied in full. */
  lemma CopyAsciiKeepsPrintablePrefix(src: seq<Byte>, maxLen: nat, k: nat)
    requires k <= maxLen <= |src|
    requires forall i :: 0 <= i < k ==> IsPrintable(src[i])
    ensures k <= |CopyAscii(src, maxLen)|
  {
    var c := CopyAscii(src, maxLen);
  }

  /** The copy never looks past the first `maxLen` bytes. */
  lemma CopyAsciiLooksOnlyAtBound(a: seq<Byte>, b: seq<Byte>, maxLen: nat)
    requires maxLen <= |a| && maxLen <= |b|
    requires a[..maxLen] == b[..maxLen]
    ensures CopyAscii(a, maxLen) == CopyAscii(b, maxLen)
  {
    var c := CopyAscii(a, maxLen);
    assert forall i :: 0 <= i < maxLen ==> a[i] == b[i] by {
      forall i | 0 <= i < maxLen
        ensures a[i] == b[i]
      {
        assert a[..maxLen][i] == b[..maxLen][i];
      }
    }
    CopyAsciiUnique(b, maxLen, c);
  }

  /** The filament-family tokens block 2 must start with. */
  const KnownFilamentTypes: seq<string> := ["PLA", "PETG", "ABS", "TPU", "PA", "PC", "ASA", "PVA", "HIPS", "PET"]

  /** `memcmp(data, token, strlen(token)) == 0`: a raw, case-sensitive byte-prefix comparison. */
  predicate StartsWithText(data: seq<Byte>, token: string) {
    |token| <= |data| && forall i :: 0 <= i < |token| ==> data[i] == token[i] as int
  }

  /** The filament-type step of the admission check: some known token is a prefix of the block. */
  predicate HasKnownFilamentType(data: seq<Byte>) {
    exists k :: 0 <= k < |KnownFilamentTypes| && StartsWithText(data, KnownFilamentTypes[k])
  }

  /** The filament-type step as the source's loop over the tokens, leaving at the first match. */
  method MatchKnownFilamentType(data: seq<Byte>) returns (valid: bool)
    ensures valid <==> HasKnownFilamentType(data)
  {
    valid := false;
    var k := 0;
    while k < |KnownFilamentTypes|
      invariant 0 <= k <= |KnownFilamentTypes|
      invariant !valid
      invariant forall j :: 0 <= j < k ==> !StartsWithText(data, KnownFilamentTypes[j])
    {
      var token := KnownFilamentTypes[k];
      if |token| <= |data| && data[..|token|] == seq(|token|, i requires 0 <= i < |token| => token[i] as int) {
        assert StartsWithText(data, token) by {
          forall i | 0 <= i < |token|
            ensures data[i] == token[i] as int
          {
            assert data[..|token|][i] == data[i];
          }
        }
        return true;
      }
      k := k + 1;
    }
  }

  /** The diameter float of block 5, bytes 8..11, as its 32-bit word. */
  function DiameterWord(card: Card): Word32 {
    ReadLe32Word(card.blocks[BlockColorWeight][8..12])
  }

  /**
   `bambu_tag_is_valid`: the checks in the source's order, the first failure
   deciding. The card must be a 1K card; block 1 must hold "GF" at bytes 8-9;
   block 2 must start with a known filament token; block 4 must be a
   printable window of 16 bytes; the block-5 diameter must lie in 1.6..2.0 or
   2.7..3.0 as floats.
   */
  predicate TagIsValid(card: Card) {
    if card.kind != Type1k then false
    else
      var block1 := card.blocks[BlockMaterialIds];
      if block1[8] != 'G' as int || block1[9] != 'F' as int then false
      else if !HasKnownFilamentType(card.blocks[BlockFilamentType]) then false
      else if !PrintableWindow(card.blocks[BlockDetailedType], 16) then false
      else PlausibleDiameter(DiameterWord(card))
  }

  /**
   The admission check holds exactly when all five conditions hold, with the
   diameter condition stated on the raw word: it lies in
   [0x3FCCCCCD, 0x40000000] or [0x402CCCCD, 0x40400000].
   */
  lemma TagIsValidIff(card: Card)
    ensures TagIsValid(card) <==>
      && card.kind == Type1k
      && StartsWithText(card.blocks[BlockMaterialIds][8..], "GF")
      && HasKnownFilamentType(card.blocks[BlockFilamentType])
      && PrintableWindow(card.blocks[BlockDetailedType], 16)
      && (var b := card.blocks[BlockColorWeight];
          var w := b[8] as int + 0x100 * b[9] as int + 0x1_0000 * b[10] as int + 0x100_0000 * b[11] as int;
          (0x3FCC_CCCD <= w <= 0x4000_0000) || (0x402C_CCCD <= w <= 0x4040_0000))
  {
    PlausibleDiameterBitRanges(DiameterWord(card));
  }

  /**
   `bambu_tag_is_valid` as the source runs it: the type test, the marker
   bytes, the token loop, the printable scan and the diameter ranges, each
   returning false at the first failure.
   */
  method CheckTag(card: Card) returns (valid: bool)
    ensures valid <==> TagIsValid(card)
  {
    if card.kind != Type1k {
      return false;
    }
    var block1 := card.blocks[BlockMaterialIds];
    if block1[8] != 'G' as int || block1[9] != 'F' as int {
      return false;
    }
    var validType := MatchKnownFilamentType(card.blocks[BlockFilamentType]);
    if !validType {
      return false;
    }
    var printable := IsPrintableAscii(card.blocks[BlockDetailedType], 16);
    if !printable {
      return false;
    }
    var diameter := ReadLe32Word(card.blocks[BlockColorWeight][8..]);
    PlausibleDiameterBitRanges(diameter);
    valid := InDiameterBitRanges(diameter);
  }
}
