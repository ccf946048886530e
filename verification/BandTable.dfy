/**
 The amplifier's sub-band table and the amateur band edges (spe/spe_band_table.py).
 Table values are in kHz; frequencies from the radio are in MHz.
 */
module BandTable {
  import opened Text

  datatype Band = M160 | M80 | M60 | M40 | M30 | M20 | M17 | M15 | M12 | M10 | M6

  function Name(b: Band): string {
    match b
    case M160 => "160m" case M80 => "80m" case M60 => "60m" case M40 => "40m"
    case M30 => "30m" case M20 => "20m" case M17 => "17m" case M15 => "15m"
    case M12 => "12m" case M10 => "10m" case M6 => "6m"
  }

  /** The table's own order. */
  const BANDS := [M160, M80, M60, M40, M30, M20, M17, M15, M12, M10, M6]

  function Spaced(first: int, step: int, n: nat): (s: seq<int>)
    ensures |s| == n && forall i :: 0 <= i < n ==> s[i] == first + step * i
  {
    seq(n, i => first + step * i)
  }

  /** Sub-band centres. Most of the manual's lists are evenly spaced. */
  function Centers(b: Band): seq<int> {
    match b
    case M160 => Spaced(1785, 10, 24)
    case M80 => Spaced(3470, 20, 29)
    case M60 => [5357]
    case M40 => Spaced(6963, 25, 16)
    case M30 => Spaced(10075, 50, 3)
    case M20 => Spaced(13975, 50, 9)
    case M17 => [18075, 18125, 18165]
    case M15 => Spaced(20975, 50, 11)
    case M12 => [24891, 24963, 25038]
    case M10 => Spaced(28050, 100, 18)
    case M6 => Spaced(49875, 250, 18)
  }

  function Low(b: Band): int {
    match b
    case M160 => 1800 case M80 => 3500 case M60 => 5351 case M40 => 7000
    case M30 => 10100 case M20 => 14000 case M17 => 18068 case M15 => 21000
    case M12 => 24890 case M10 => 28000 case M6 => 50000
  }

  function High(b: Band): int {
    match b
    case M160 => 2000 case M80 => 4000 case M60 => 5367 case M40 => 7300
    case M30 => 10150 case M20 => 14350 case M17 => 18168 case M15 => 21450
    case M12 => 24990 case M10 => 29700 case M6 => 54000
  }

  predicate Inside(b: Band, kHz: real) {
    Low(b) as real <= kHz <= High(b) as real
  }

  function FirstInside(kHz: real, from: nat): (r: Option<Band>)
    requires from <= |BANDS|
    ensures r.Some? ==> Inside(r.value, kHz)
    ensures r.None? ==> forall i :: from <= i < |BANDS| ==> !Inside(BANDS[i], kHz)
    decreases |BANDS| - from
  {
    if from == |BANDS| then None
    else if Inside(BANDS[from], kHz) then Some(BANDS[from])
    else FirstInside(kHz, from + 1)
  }

  /** The amateur band that contains a frequency: the search stops at the first match. */
  function BandForFreq(mHz: real): Option<Band> {
    FirstInside(mHz * 1000.0, 0)
  }

  function Rank(b: Band): (i: nat)
    ensures i < |BANDS| && BANDS[i] == b
  {
    match b
    case M160 => 0 case M80 => 1 case M60 => 2 case M40 => 3 case M30 => 4 case M20 => 5
    case M17 => 6 case M15 => 7 case M12 => 8 case M10 => 9 case M6 => 10
  }

  lemma BandsAreApart(a: Band, b: Band)
    requires Rank(a) < Rank(b)
    ensures High(a) < Low(b)
  {
  }

  predicate Contains(b: Band, mHz: real) {
    Inside(b, mHz * 1000.0)
  }

  /** The search finds a band exactly when one contains the frequency, and then it is the only
      one: stopping at the first match loses nothing. */
  lemma BandForFreqUnique(mHz: real)
    ensures BandForFreq(mHz).Some? <==> exists b :: Contains(b, mHz)
    ensures forall b :: Contains(b, mHz) ==> BandForFreq(mHz) == Some(b)
  {
    var r := BandForFreq(mHz);
    assert r.Some? ==> Contains(r.value, mHz);
    forall b | Contains(b, mHz)
      ensures r == Some(b)
    {
      assert BANDS[Rank(b)] == b;
      if r.Some? && Rank(r.value) < Rank(b) {
        BandsAreApart(r.value, b);
      } else if r.Some? && Rank(b) < Rank(r.value) {
        BandsAreApart(b, r.value);
      } else if r.Some? {
        assert BANDS[Rank(r.value)] == r.value;
      }
    }
  }

  // ------------------------------------------------------------ lookup

  function InBand(centers: seq<int>, b: Band): seq<int> {
    if centers == [] then []
    else (if Inside(b, centers[0] as real) then [centers[0]] else []) + InBand(centers[1..], b)
  }

  function Named(key: string): (r: Option<Band>)
    ensures r.Some? ==> Name(r.value) == key
  {
    if key == "160m" then Some(M160) else if key == "80m" then Some(M80)
    else if key == "60m" then Some(M60) else if key == "40m" then Some(M40)
    else if key == "30m" then Some(M30) else if key == "20m" then Some(M20)
    else if key == "17m" then Some(M17) else if key == "15m" then Some(M15)
    else if key == "12m" then Some(M12) else if key == "10m" then Some(M10)
    else if key == "6m" then Some(M6) else None
  }

  /** The sub-band centres of a band name; None is the KeyError. */
  function Lookup(band: string, inBandOnly: bool): Option<seq<int>> {
    var key := Lower(Strip(band));
    var found :=
      if Named(key).Some? then Named(key)
      else if key == "" || key[|key| - 1] != 'm' then Named(key + "m")
      else None;
    match found
    case None => None
    case Some(b) => Some(if inBandOnly then InBand(Centers(b), b) else Centers(b))
  }

  predicate Ascending(s: seq<int>) {
    forall i, j :: 0 <= i < j < |s| ==> s[i] < s[j]
  }

  lemma AscendingCons(x: int, s: seq<int>)
    requires Ascending(s) && forall y :: y in s ==> x < y
    ensures Ascending([x] + s)
  {
    var t := [x] + s;
    forall i, j | 0 <= i < j < |t|
      ensures t[i] < t[j]
    {
      assert t[j] == s[j - 1] && s[j - 1] in s;
      assert i > 0 ==> t[i] == s[i - 1];
    }
  }

  lemma CentersAscend(b: Band)
    ensures Ascending(Centers(b))
  {
  }

  /** The in-band centres are the centres inside the edges, in table order. */
  lemma {:induction false} InBandExact(centers: seq<int>, b: Band)
    ensures forall x :: x in InBand(centers, b) <==> x in centers && Inside(b, x as real)
    ensures Ascending(centers) ==> Ascending(InBand(centers, b))
  {
    if centers != [] {
      var rest := centers[1..];
      InBandExact(rest, b);
      assert centers == [centers[0]] + rest;
      if Ascending(centers) {
        assert forall i :: 0 <= i < |rest| ==> rest[i] == centers[i + 1];
        forall x | x in InBand(rest, b)
          ensures centers[0] < x
        {
          var k :| 0 <= k < |rest| && rest[k] == x;
          assert centers[0] < centers[k + 1];
        }
        AscendingCons(centers[0], InBand(rest, b));
      }
    }
  }

  lemma SomeCenterInside(b: Band)
    ensures exists x :: x in Centers(b) && Inside(b, x as real)
  {
    var i := match b
      case M160 => 2 case M80 => 2 case M60 => 0 case M40 => 2 case M30 => 1 case M20 => 1
      case M17 => 0 case M15 => 1 case M12 => 0 case M10 => 0 case M6 => 1;
    var x := Centers(b)[i];
    assert x in Centers(b) && Low(b) <= x <= High(b);
  }

  lemma LowerOfName(b: Band)
    ensures Lower(Strip(Name(b))) == Name(b) && Named(Name(b)) == Some(b)
  {
    StripTight(Name(b));
  }

  /** Looking up any band of the table never fails, and gives a nonempty, strictly ascending
      list of exactly its centres inside the amateur edges. */
  lemma LookupTotal(b: Band)
    ensures var r := Lookup(Name(b), true);
            && r.Some? && r.value != [] && Ascending(r.value)
            && (forall x :: x in r.value <==> x in Centers(b) && Inside(b, x as real))
    ensures Lookup(Name(b), false) == Some(Centers(b))
  {
    LowerOfName(b);
    CentersAscend(b);
    InBandExact(Centers(b), b);
    SomeCenterInside(b);
  }
}
