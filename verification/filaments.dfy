/**
 The reference table of Bambu Lab filaments (plugin/bambu_filaments.h): each
 row maps a variant id, the key printed on the tag, to a five-digit filament
 code and a colour name. Lookup is an exact, case-sensitive linear scan that
 returns the first matching row, or nothing.
 */
module Filaments {
  import opened Wrappers

  datatype FilamentInfo = FilamentInfo(variantId: string, filamentCode: string, colorName: string)

  /** A representative part of the table, in the source's row order. */
  const BambuTable: seq<FilamentInfo> := [
    FilamentInfo("A00-K0", "10101", "Black"),
    FilamentInfo("A00-R0", "10200", "Red"),
    FilamentInfo("A00-R3", "10204", "Hot Pink"),
    FilamentInfo("A00-W1", "10100", "Jade White"),
    FilamentInfo("A01-K1", "11101", "Charcoal"),
    FilamentInfo("A01-R4", "11202", "Dark Red"),
    FilamentInfo("A01-W2", "11100", "Ivory White"),
    FilamentInfo("A02-B2", "13600", "Cobalt Blue Metallic"),
    FilamentInfo("A06-B0", "13603", "Baby Blue"),
    FilamentInfo("A06-Y1", "13405", "Gold"),
    FilamentInfo("A05-M1", "13906", "South Beach"),
    FilamentInfo("A05-T5", "13905", "Velvet Eclipse"),
    FilamentInfo("A16-W0", "13106", "White Oak"),
    FilamentInfo("B00-D1", "40102", "Silver"),
    FilamentInfo("G01-B0", "32600", "Translucent Light Blue"),
    FilamentInfo("G02-K0", "33102", "Black"),
    FilamentInfo("U02-K0", "53101", "Black")
  ]

  /** The scan of `bambu_lookup_filament`: the position of the first row whose variant id is `key`. */
  function FindIndex(table: seq<FilamentInfo>, key: string): (r: Option<nat>)
    ensures r.Some? ==> r.value < |table| && table[r.value].variantId == key
    ensures r.Some? ==> forall j :: 0 <= j < r.value ==> table[j].variantId != key
    ensures r.None? ==> forall j :: 0 <= j < |table| ==> table[j].variantId != key
  {
    if |table| == 0 then None
    else if table[0].variantId == key then Some(0)
    else
      match FindIndex(table[1..], key)
      case None => None
      case Some(i) => Some(i + 1)
  }

  /**
   `bambu_lookup_filament`: the first row whose variant id equals `key`
   exactly, or None when no row has that variant id. Absence is not replaced
   by a default row.
   */
  function Lookup(table: seq<FilamentInfo>, key: string): (r: Option<FilamentInfo>)
    ensures r.Some? ==> r.value.variantId == key
    ensures r.Some? ==> exists i :: 0 <= i < |table| && table[i] == r.value
                                    && forall j :: 0 <= j < i ==> table[j].variantId != key
    ensures r.None? <==> forall j :: 0 <= j < |table| ==> table[j].variantId != key
  {
    match FindIndex(table, key)
    case None => None
    case Some(i) => Some(table[i])
  }

  /** `bambu_lookup_filament` as the source's loop: the first row whose key compares equal, or nothing. */
  method LookupFilament(table: seq<FilamentInfo>, key: string) returns (r: Option<FilamentInfo>)
    ensures r.Some? ==> r.value.variantId == key
    ensures r.Some? ==> exists i :: 0 <= i < |table| && table[i] == r.value
                                    && forall j :: 0 <= j < i ==> table[j].variantId != key
    ensures r.None? <==> forall j :: 0 <= j < |table| ==> table[j].variantId != key
    ensures r == Lookup(table, key)
  {
    var i := 0;
    while i < |table|
      invariant 0 <= i <= |table|
      invariant forall j :: 0 <= j < i ==> table[j].variantId != key
    {
      if table[i].variantId == key {
        LookupFirstMatch(table, key, i);
        return Some(table[i]);
      }
      i := i + 1;
    }
    return None;
  }

  /** When row `i` is the first with the key, the scan returns row `i`. */
  lemma LookupFirstMatch(table: seq<FilamentInfo>, key: string, i: nat)
    requires i < |table| && table[i].variantId == key
    requires forall j :: 0 <= j < i ==> table[j].variantId != key
    ensures Lookup(table, key) == Some(table[i])
  {
    var r := Lookup(table, key);
    var k :| 0 <= k < |table| && table[k] == r.value
             && forall j :: 0 <= j < k ==> table[j].variantId != key;
    assert k == i;
  }

  /** No two rows share a variant id. */
  predicate DistinctKeys(table: seq<FilamentInfo>) {
    forall i, j :: 0 <= i < j < |table| ==> table[i].variantId != table[j].variantId
  }

  /** With distinct keys the answer is the one row that has the key, wherever it sits. */
  lemma LookupUnique(table: seq<FilamentInfo>, key: string, e: FilamentInfo)
    requires DistinctKeys(table)
    ensures Lookup(table, key) == Some(e) <==> e in table && e.variantId == key
  {
    if e in table && e.variantId == key {
      var k :| 0 <= k < |table| && table[k] == e;
      var r := Lookup(table, key);
      var i :| 0 <= i < |table| && table[i] == r.value
               && forall j :: 0 <= j < i ==> table[j].variantId != key;
      assert i == k;
    }
  }

  /** The table as a dictionary keyed by variant id. */
  function KeyMap(table: seq<FilamentInfo>): (m: map<string, FilamentInfo>)
    requires DistinctKeys(table)
  {
    map i | 0 <= i < |table| :: table[i].variantId := table[i]
  }

  /** A keyed dictionary answers every query exactly as the linear scan does. */
  lemma LookupAgreesWithKeyMap(table: seq<FilamentInfo>, key: string)
    requires DistinctKeys(table)
    ensures Lookup(table, key) == (if key in KeyMap(table) then Some(KeyMap(table)[key]) else None)
  {
    var m := KeyMap(table);
    if key in m {
      var k :| 0 <= k < |table| && table[k].variantId == key;
      LookupUnique(table, key, table[k]);
    }
  }

  /** Lexicographic order on strings, by character code. */
  predicate TextLess(a: string, b: string) {
    if |b| == 0 then false
    else if |a| == 0 then true
    else if a[0] != b[0] then a[0] < b[0]
    else TextLess(a[1..], b[1..])
  }

  predicate SortedByVariant(table: seq<FilamentInfo>) {
    forall i, j :: 0 <= i < j < |table| ==> !TextLess(table[j].variantId, table[i].variantId)
  }

  /** The rows are not in variant-id order: the A06 group comes before the A05 group. */
  lemma TableNotSorted()
    ensures !SortedByVariant(BambuTable)
  {
    assert BambuTable[9].variantId == "A06-Y1" && BambuTable[10].variantId == "A05-M1";
    assert TextLess("A05-M1", "A06-Y1");
  }

  lemma TableHasDistinctKeys()
    ensures DistinctKeys(BambuTable)
  {
  }

  /** The rows the test suite looks up. */
  lemma KnownLookups()
    ensures Lookup(BambuTable, "A00-R3") == Some(FilamentInfo("A00-R3", "10204", "Hot Pink"))
    ensures Lookup(BambuTable, "A01-R4") == Some(FilamentInfo("A01-R4", "11202", "Dark Red"))
  {
    TableHasDistinctKeys();
    LookupUnique(BambuTable, "A00-R3", BambuTable[2]);
    LookupUnique(BambuTable, "A01-R4", BambuTable[5]);
  }

  /** An unknown variant finds nothing rather than a default row. */
  lemma UnknownLookup()
    ensures Lookup(BambuTable, "UNKNOWN") == None
  {
    assert forall j :: 0 <= j < |BambuTable| ==> |BambuTable[j].variantId| == 6;
  }
}
