/** The AQI colour scale of aqi.go: a piecewise-constant map from an
    Air Quality Index reading to an RGB colour. */
module ColourScale {
  import opened Results

  datatype Colour = Colour(r: int, g: int, b: int)

  /** The six colours of the scale, from least to most polluted. */
  const Good := Colour(0, 152, 0)
  const Moderate := Colour(255, 152, 0)
  const UnhealthyForSensitive := Colour(255, 50, 0)
  const Unhealthy := Colour(255, 0, 0)
  const VeryUnhealthy := Colour(255, 0, 152)
  const Hazardous := Colour(255, 0, 35)

  /** What the switch's default case would return. */
  const Black := Colour(0, 0, 0)

  const Palette: set<Colour> :=
    {Good, Moderate, UnhealthyForSensitive, Unhealthy, VeryUnhealthy, Hazardous}

  predicate IsComponent(x: int)
  {
    0 <= x <= 255
  }

  /** The cases of RGB's switch statement, in source order. */
  datatype Case = UpTo50 | UpTo100 | UpTo150 | UpTo200 | UpTo300 | Over300 | Default

  /** The first case whose guard holds, exactly as a Go expressionless
      switch tries them. */
  function SelectCase(aqi: int): Case
  {
    if aqi <= 50 then UpTo50
    else if aqi <= 100 then UpTo100
    else if aqi <= 150 then UpTo150
    else if aqi <= 200 then UpTo200
    else if aqi <= 300 then UpTo300
    else if aqi > 300 then Over300
    else Default
  }

  /** The colour each case returns. */
  function CaseColour(c: Case): Colour
  {
    match c
    case UpTo50 => Good
    case UpTo100 => Moderate
    case UpTo150 => UnhealthyForSensitive
    case UpTo200 => Unhealthy
    case UpTo300 => VeryUnhealthy
    case Over300 => Hazardous
    case Default => Black
  }

  /** RGB(aqi): the colour for a reading. Every integer, negative ones
      included, gets one of the six scale colours, never the default's black,
      and every component is a valid 8-bit channel value. */
  function RGB(aqi: int): (c: Colour)
    ensures c in Palette
    ensures c != Black
    ensures IsComponent(c.r) && IsComponent(c.g) && IsComponent(c.b)
  {
    CaseColour(SelectCase(aqi))
  }

  /** The default case of the switch cannot be reached: the guards before it
      already cover every integer. */
  lemma DefaultUnreachable(aqi: int)
    ensures SelectCase(aqi) != Default
  {
  }

  /** Readings at or below 50, negative ones included, are green; 50 is in
      the first bucket and 51 is not. */
  lemma LowReadingsAreGood(aqi: int)
    ensures aqi <= 50 ==> RGB(aqi) == Good
    ensures aqi > 50 ==> RGB(aqi) != Good
    ensures RGB(50) == Good && RGB(51) == Moderate
  {
  }

  // ---------------------------------------------------------------------
  // The published AQI bands, with the colours aqi.go gives them, as a table
  // of inclusive bands: an independent description of where the bucket
  // edges lie, against which RGB's guards are checked.
  // ---------------------------------------------------------------------

  /** An inclusive range of readings; a missing bound is unbounded. */
  datatype Band = Band(lo: Option<int>, hi: Option<int>, colour: Colour)

  predicate InBand(b: Band, x: int)
  {
    (b.lo.None? || b.lo.value <= x) && (b.hi.None? || x <= b.hi.value)
  }

  predicate NonEmpty(b: Band)
  {
    b.lo.None? || b.hi.None? || b.lo.value <= b.hi.value
  }

  /** The AQI bands published on aqicn.org, coloured as aqi.go colours
      them. */
  const Scale: seq<Band> := [
    Band(None, Some(50), Good),
    Band(Some(51), Some(100), Moderate),
    Band(Some(101), Some(150), UnhealthyForSensitive),
    Band(Some(151), Some(200), Unhealthy),
    Band(Some(201), Some(300), VeryUnhealthy),
    Band(Some(301), None, Hazardous)
  ]

  /** The upper edges of the first five bands. */
  const Edges: seq<int> := [50, 100, 150, 200, 300]

  /** A band table with no gaps and no overlaps: it starts unbounded below,
      ends unbounded above, every band is non-empty, and each band starts
      right after the previous one ends. */
  predicate Contiguous(bands: seq<Band>)
  {
    && |bands| > 0
    && bands[0].lo.None?
    && bands[|bands| - 1].hi.None?
    && (forall i :: 0 <= i < |bands| ==> NonEmpty(bands[i]))
    && (forall i :: 0 <= i < |bands| - 1 ==>
          bands[i].hi.Some? && bands[i + 1].lo == Some(bands[i].hi.value + 1))
  }

  /** In a contiguous table, every band ends strictly before any later band
      starts. */
  lemma {:induction false} BandsAscend(bands: seq<Band>, i: int, j: int)
    requires Contiguous(bands)
    requires 0 <= i < j < |bands|
    ensures bands[i].hi.Some? && bands[j].lo.Some?
    ensures bands[i].hi.value < bands[j].lo.value
  {
    if j > i + 1 {
      BandsAscend(bands, i, j - 1);
      assert NonEmpty(bands[j - 1]);
      assert bands[j - 1].hi.Some?;
    }
  }

  /** In a contiguous table no reading lies in two bands. */
  lemma BandsDisjoint(bands: seq<Band>, x: int, i: int, j: int)
    requires Contiguous(bands)
    requires 0 <= i < |bands| && 0 <= j < |bands|
    requires InBand(bands[i], x) && InBand(bands[j], x)
    ensures i == j
  {
    if i < j {
      BandsAscend(bands, i, j);
    } else if j < i {
      BandsAscend(bands, j, i);
    }
  }

  /** Looks a reading up in a contiguous table by scanning the bands in
      order, as the switch does: the band found contains the reading and is
      the only one that does, and on the AQI table its colour is RGB's. */
  method FindBand(bands: seq<Band>, x: int) returns (i: nat)
    requires Contiguous(bands)
    ensures i < |bands| && InBand(bands[i], x)
    ensures forall j :: 0 <= j < |bands| && InBand(bands[j], x) ==> j == i
    ensures bands == Scale ==> RGB(x) == bands[i].colour
  {
    i := 0;
    while !InBand(bands[i], x)
      invariant i < |bands|
      invariant bands[i].lo.None? || bands[i].lo.value <= x
      decreases |bands| - i
    {
      i := i + 1;
    }
    forall j | 0 <= j < |bands| && InBand(bands[j], x)
      ensures j == i
    {
      BandsDisjoint(bands, x, i, j);
    }
    if bands == Scale {
      RgbFollowsScale(x, i);
    }
  }

  lemma ScaleIsContiguous()
    ensures Contiguous(Scale)
    ensures |Scale| == 6 && |Edges| == 5
    ensures forall k :: 0 <= k < |Edges| ==> Scale[k].hi == Some(Edges[k])
  {
  }

  /** RGB agrees with the band table: whichever band a reading falls
      in, RGB returns that band's colour. */
  lemma RgbFollowsScale(x: int, i: int)
    requires 0 <= i < |Scale| && InBand(Scale[i], x)
    ensures RGB(x) == Scale[i].colour
  {
  }

  /** Totality: every reading lies in exactly one band of the table, and
      RGB returns that band's colour. */
  lemma RgbTotal(x: int)
    ensures exists i :: 0 <= i < |Scale| && InBand(Scale[i], x) && RGB(x) == Scale[i].colour
    ensures forall i, j :: 0 <= i < |Scale| && 0 <= j < |Scale| && InBand(Scale[i], x) && InBand(Scale[j], x) ==> i == j
  {
    var i := if x <= 50 then 0 else if x <= 100 then 1 else if x <= 150 then 2
      else if x <= 200 then 3 else if x <= 300 then 4 else 5;
    assert InBand(Scale[i], x);
    ScaleIsContiguous();
    forall i, j | 0 <= i < |Scale| && 0 <= j < |Scale| && InBand(Scale[i], x) && InBand(Scale[j], x)
      ensures i == j
    {
      BandsDisjoint(Scale, x, i, j);
    }
  }

  /** Each edge value (50, 100, 150, 200, 300) is the last reading of its
      bucket: it and the next integer land in adjacent buckets with different
      colours. */
  lemma EdgesSplitBuckets(k: int)
    requires 0 <= k < |Edges|
    ensures RGB(Edges[k]) == Scale[k].colour
    ensures RGB(Edges[k] + 1) == Scale[k + 1].colour
    ensures RGB(Edges[k]) != RGB(Edges[k] + 1)
  {
  }

  /** The colour depends only on the bucket: two readings in the same band
      get the same colour. */
  lemma ConstantWithinBand(x: int, y: int, i: int)
    requires 0 <= i < |Scale| && InBand(Scale[i], x) && InBand(Scale[i], y)
    ensures RGB(x) == RGB(y)
  {
    RgbFollowsScale(x, i);
    RgbFollowsScale(y, i);
  }
}
