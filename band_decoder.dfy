/**
  BandDecoder.cs: the frequency (Hz, as received text) to band-number mapping.
  Band 0 is "none"; bands 1..10 are 160 m, 80 m, 40 m, 30 m, 20 m, 17 m,
  15 m, 12 m, 10 m and 6 m.
*/
module BandDecoding {
  import opened Base
  import opened Text

  /** Lower and upper edge (Hz, both inclusive) of band b, as a table. */
  function LowerEdge(b: int): int
    requires 1 <= b <= 10
  {
    match b
    case 1 => 1_810_000  case 2 => 3_500_000  case 3 => 7_000_000  case 4 => 10_100_000
    case 5 => 14_000_000  case 6 => 18_068_000  case 7 => 21_000_000  case 8 => 24_890_000
    case 9 => 28_000_000  case _ => 50_000_000
  }

  function UpperEdge(b: int): int
    requires 1 <= b <= 10
  {
    match b
    case 1 => 2_000_000  case 2 => 3_800_000  case 3 => 7_200_000  case 4 => 10_150_000
    case 5 => 14_350_000  case 6 => 18_168_000  case 7 => 21_450_000  case 8 => 24_990_000
    case 9 => 29_700_000  case _ => 54_000_000
  }

  predicate InBand(f: int, b: int)
    requires 1 <= b <= 10
  {
    LowerEdge(b) <= f <= UpperEdge(b)
  }

  /** The switch expression of DecodeBand on a parsed frequency. */
  function BandOf(f: int): (b: int)
    ensures 0 <= b <= 10
    ensures b != 0 ==> InBand(f, b)
    ensures b == 0 ==> forall k :: 1 <= k <= 10 ==> !InBand(f, k)
  {
    if 1_810_000 <= f <= 2_000_000 then 1
    else if 3_500_000 <= f <= 3_800_000 then 2
    else if 7_000_000 <= f <= 7_200_000 then 3
    else if 10_100_000 <= f <= 10_150_000 then 4
    else if 14_000_000 <= f <= 14_350_000 then 5
    else if 18_068_000 <= f <= 18_168_000 then 6
    else if 21_000_000 <= f <= 21_450_000 then 7
    else if 24_890_000 <= f <= 24_990_000 then 8
    else if 28_000_000 <= f <= 29_700_000 then 9
    else if 50_000_000 <= f <= 54_000_000 then 10
    else 0
  }

  /** long.TryParse: None for absent, empty, malformed or out-of-range text. */
  function TryParseLong(frequency: Option<string>): Option<int>
  {
    match frequency
    case None => None
    case Some(s) => TryParseInteger(s, Int64Min, Int64Max)
  }

  /** The band number DecodeBand stores for the given text. */
  function DecodeFrequency(frequency: Option<string>): (b: int)
    ensures 0 <= b <= 10
    ensures TryParseLong(frequency).None? ==> b == 0
  {
    match TryParseLong(frequency)
    case None => 0
    case Some(f) => BandOf(f)
  }

  /** The bands are disjoint and increasing: the band number never drops as the frequency rises. */
  lemma BandOfMonotone(f1: int, f2: int)
    requires f1 <= f2 && BandOf(f1) != 0 && BandOf(f2) != 0
    ensures BandOf(f1) <= BandOf(f2)
  {
    EdgesIncrease();
  }

  /** Every band ends below the start of the next one. */
  lemma EdgesIncrease()
    ensures forall j, k :: 1 <= j < k <= 10 ==> UpperEdge(j) < LowerEdge(k)
  {
    forall j, k | 1 <= j < k <= 10 ensures UpperEdge(j) < LowerEdge(k) {
      assert UpperEdge(j) < LowerEdge(j + 1);
      if j + 1 < k {
        assert LowerEdge(j + 1) < LowerEdge(k);
      }
    }
  }

  /** No frequency lies in two bands. */
  lemma BandsDisjoint(f: int, j: int, k: int)
    requires 1 <= j <= 10 && 1 <= k <= 10 && InBand(f, j) && InBand(f, k)
    ensures j == k
  {
    EdgesIncrease();
  }

  /** The edges of 160 m and 6 m are exact; text that is not a number decodes to 0. */
  lemma BoundaryExamples()
    ensures BandOf(1_809_999) == 0 && BandOf(1_810_000) == 1
    ensures BandOf(2_000_000) == 1 && BandOf(2_000_001) == 0
    ensures BandOf(50_000_000) == 10 && BandOf(54_000_000) == 10 && BandOf(54_000_001) == 0
  {
  }

  /** Absent, empty or non-integer text decodes to band 0. */
  lemma UnparsableExamples()
    ensures DecodeFrequency(None) == 0 && DecodeFrequency(Some("")) == 0
    ensures DecodeFrequency(Some("14.195")) == 0
  {
    TrimUnchanged("14.195");
    assert !IsDigit("14.195"[2]);
  }

  /** Decoding the decimal text of a 64-bit frequency is the band of that frequency. */
  lemma DecodeFormattedFrequency(f: int)
    requires Int64Min <= f <= Int64Max
    ensures DecodeFrequency(Some(IntToString(f))) == BandOf(f)
  {
    ParseIntToString(f, Int64Min, Int64Max);
  }

  /** BandDecoder: the last decoded band number. */
  class BandDecoder {
    var BandNumber: int

    constructor ()
      ensures BandNumber == 0
    {
      BandNumber := 0;
    }

    /** Stores the band of the frequency text; only the latest argument matters. */
    method DecodeBand(frequency: Option<string>)
      modifies this
      ensures BandNumber == DecodeFrequency(frequency)
      ensures 0 <= BandNumber <= 10
    {
      var freq := TryParseLong(frequency);
      if freq.None? {
        BandNumber := 0;
        return;
      }
      BandNumber := BandOf(freq.value);
    }
  }
}
