/** Exclusion regions: the parts of a page image that are painted white before
    recognition (page headers, footers, stamps). A selector keeps an ordered
    list of specifications and resolves them against each page's pixel size. */
module Regions {
  import opened Common

  /** An absolute rectangle `(x1, y1, x2, y2)` in the page image's pixel space. */
  datatype Rect = Rect(x1: real, y1: real, x2: real, y2: real)

  /** One stored exclusion specification. */
  datatype ExclusionSpec =
    | Top(heightPercentage: real)
    | Bottom(heightPercentage: real)
    | Pixel(coordinates: Rect)

  const DefaultTopPercentage: real := 10.0
  const DefaultBottomPercentage: real := 5.0

  /** The rectangle a specification covers on a page of the given size. */
  function Resolve(spec: ExclusionSpec, pageWidth: nat, pageHeight: nat): Rect {
    match spec
    case Top(p) =>
      var height := pageHeight as real * p / 100.0;
      Rect(0.0, 0.0, pageWidth as real, height)
    case Bottom(p) =>
      var height := pageHeight as real * p / 100.0;
      var bottomY := pageHeight as real - height;
      Rect(0.0, bottomY, pageWidth as real, pageHeight as real)
    case Pixel(c) => c
  }

  /** The rectangles of all specifications, one per specification, in order. */
  function ResolveAll(specs: seq<ExclusionSpec>, pageWidth: nat, pageHeight: nat): (r: seq<Rect>)
    ensures |r| == |specs|
    ensures forall i :: 0 <= i < |specs| ==> r[i] == Resolve(specs[i], pageWidth, pageHeight)
  {
    if |specs| == 0 then []
    else ResolveAll(specs[..|specs| - 1], pageWidth, pageHeight)
         + [Resolve(specs[|specs| - 1], pageWidth, pageHeight)]
  }

  /** One region object of a parsed configuration file: the `type` key, the
      optional `height_percentage` and the optional `coordinates` list; a
      `None` field is a key the object does not have. */
  datatype RegionEntry = RegionEntry(
    kind: Option<string>,
    heightPercentage: Option<real>,
    coordinates: Option<seq<real>>)

  /** The exceptions reading a region object can raise. */
  datatype ConfigError = MissingKey(key: string) | IndexOutOfRange

  /** The text `str(e)` gives for each exception. */
  function ErrorMessage(e: ConfigError): string {
    match e
    case MissingKey(k) => "'" + k + "'"
    case IndexOutOfRange => "list index out of range"
  }

  /** What one region object does to the selector. */
  datatype EntryEffect = Append(spec: ExclusionSpec) | Ignore | Raise(error: ConfigError)

  function Interpret(e: RegionEntry): EntryEffect {
    match e.kind
    case None => Raise(MissingKey("type"))
    case Some(k) =>
      if k == "top" then Append(Top(e.heightPercentage.GetOr(DefaultTopPercentage)))
      else if k == "bottom" then Append(Bottom(e.heightPercentage.GetOr(DefaultBottomPercentage)))
      else if k == "pixel" then
        match e.coordinates
        case None => Raise(MissingKey("coordinates"))
        case Some(c) =>
          if |c| < 4 then Raise(IndexOutOfRange)
          else Append(Pixel(Rect(c[0], c[1], c[2], c[3])))
      else Ignore
  }

  /** The specifications appended by reading a list of region objects, and the
      exception that stopped the reading, if any. */
  datatype Applied = Applied(specs: seq<ExclusionSpec>, error: Option<ConfigError>)

  /** Reading stops at the first object that raises; what was appended before it stays. */
  function ApplyConfig(entries: seq<RegionEntry>): Applied {
    if |entries| == 0 then Applied([], None)
    else
      var prev := ApplyConfig(entries[..|entries| - 1]);
      if prev.error.Some? then prev
      else match Interpret(entries[|entries| - 1])
        case Append(s) => Applied(prev.specs + [s], None)
        case Ignore => prev
        case Raise(err) => Applied(prev.specs, Some(err))
  }

  /** The selector itself: `exclude_regions` is appended to in place. */
  class RegionSelector {
    var excludeRegions: seq<ExclusionSpec>

    constructor()
      ensures excludeRegions == []
    {
      excludeRegions := [];
    }

    method AddTopRegion(heightPercentage: real := DefaultTopPercentage)
      modifies this
      ensures excludeRegions == old(excludeRegions) + [Top(heightPercentage)]
    {
      excludeRegions := excludeRegions + [Top(heightPercentage)];
    }

    method AddBottomRegion(heightPercentage: real := DefaultBottomPercentage)
      modifies this
      ensures excludeRegions == old(excludeRegions) + [Bottom(heightPercentage)]
    {
      excludeRegions := excludeRegions + [Bottom(heightPercentage)];
    }

    method AddPixelRegion(x1: real, y1: real, x2: real, y2: real)
      modifies this
      ensures excludeRegions == old(excludeRegions) + [Pixel(Rect(x1, y1, x2, y2))]
    {
      excludeRegions := excludeRegions + [Pixel(Rect(x1, y1, x2, y2))];
    }

    /** Adds the region objects of a configuration in order; an object that
        raises stops the loop, and the exception is returned. */
    method AddRegionsFromConfig(regionsConfig: seq<RegionEntry>) returns (error: Option<ConfigError>)
      modifies this
      ensures excludeRegions == old(excludeRegions) + ApplyConfig(regionsConfig).specs
      ensures error == ApplyConfig(regionsConfig).error
    {
      var i := 0;
      while i < |regionsConfig|
        invariant 0 <= i <= |regionsConfig|
        invariant ApplyConfig(regionsConfig[..i]).error == None
        invariant excludeRegions == old(excludeRegions) + ApplyConfig(regionsConfig[..i]).specs
      {
        var region := regionsConfig[i];
        assert regionsConfig[..i + 1][..i] == regionsConfig[..i];
        if region.kind.None? {
          ErrorIsFinal(regionsConfig[..i + 1], regionsConfig[i + 1..]);
          assert regionsConfig[..i + 1] + regionsConfig[i + 1..] == regionsConfig;
          return Some(MissingKey("type"));
        }
        var kind := region.kind.value;
        if kind == "top" {
          AddTopRegion(region.heightPercentage.GetOr(DefaultTopPercentage));
        } else if kind == "bottom" {
          AddBottomRegion(region.heightPercentage.GetOr(DefaultBottomPercentage));
        } else if kind == "pixel" {
          if region.coordinates.None? {
            ErrorIsFinal(regionsConfig[..i + 1], regionsConfig[i + 1..]);
            assert regionsConfig[..i + 1] + regionsConfig[i + 1..] == regionsConfig;
            return Some(MissingKey("coordinates"));
          }
          var coords := region.coordinates.value;
          if |coords| < 4 {
            ErrorIsFinal(regionsConfig[..i + 1], regionsConfig[i + 1..]);
            assert regionsConfig[..i + 1] + regionsConfig[i + 1..] == regionsConfig;
            return Some(IndexOutOfRange);
          }
          AddPixelRegion(coords[0], coords[1], coords[2], coords[3]);
        }
        i := i + 1;
      }
      assert regionsConfig[..i] == regionsConfig;
      error := None;
    }

    /** The absolute rectangles for a page of the given pixel size. */
    method GetExcludeRegionsForPage(pageWidth: nat, pageHeight: nat) returns (regions: seq<Rect>)
      ensures regions == ResolveAll(excludeRegions, pageWidth, pageHeight)
    {
      regions := [];
      var i := 0;
      while i < |excludeRegions|
        invariant 0 <= i <= |excludeRegions|
        invariant regions == ResolveAll(excludeRegions[..i], pageWidth, pageHeight)
      {
        assert excludeRegions[..i + 1][..i] == excludeRegions[..i];
        var region := excludeRegions[i];
        var rect: Rect;
        match region {
          case Top(p) =>
            var height := pageHeight as real * p / 100.0;
            rect := Rect(0.0, 0.0, pageWidth as real, height);
          case Bottom(p) =>
            var height := pageHeight as real * p / 100.0;
            var bottomY := pageHeight as real - height;
            rect := Rect(0.0, bottomY, pageWidth as real, pageHeight as real);
          case Pixel(c) =>
            rect := c;
        }
        assert rect == Resolve(region, pageWidth, pageHeight);
        regions := regions + [rect];
        i := i + 1;
      }
      assert excludeRegions[..i] == excludeRegions;
    }
  }

  /** Once an exception has stopped the reading, later objects change nothing. */
  lemma {:induction false} ErrorIsFinal(done: seq<RegionEntry>, rest: seq<RegionEntry>)
    requires ApplyConfig(done).error.Some?
    ensures ApplyConfig(done + rest) == ApplyConfig(done)
    decreases |rest|
  {
    if |rest| > 0 {
      var shorter := rest[..|rest| - 1];
      assert (done + rest)[..|done + rest| - 1] == done + shorter;
      ErrorIsFinal(done, shorter);
    } else {
      assert done + rest == done;
    }
  }

  /** Reading two lists one after the other is reading their concatenation. */
  lemma {:induction false} ApplyConfigAppend(a: seq<RegionEntry>, b: seq<RegionEntry>)
    requires ApplyConfig(a).error == None
    ensures ApplyConfig(a + b)
         == Applied(ApplyConfig(a).specs + ApplyConfig(b).specs, ApplyConfig(b).error)
    decreases |b|
  {
    if |b| == 0 {
      assert a + b == a;
    } else {
      var shorter := b[..|b| - 1];
      assert (a + b)[..|a + b| - 1] == a + shorter;
      assert (a + b)[|a + b| - 1] == b[|b| - 1];
      ApplyConfigAppend(a, shorter);
    }
  }

  /** A region object of an unknown type is skipped wherever it stands. */
  lemma UnknownTypeSkipped(a: seq<RegionEntry>, u: RegionEntry, b: seq<RegionEntry>)
    requires Interpret(u) == Ignore
    ensures ApplyConfig(a + [u] + b) == ApplyConfig(a + b)
  {
    if ApplyConfig(a).error.Some? {
      ErrorIsFinal(a, [u] + b);
      ErrorIsFinal(a, b);
      assert a + [u] + b == a + ([u] + b);
    } else {
      assert ApplyConfig([u]) == Applied([], None) by {
        assert [u][..0] == [];
      }
      ApplyConfigAppend(a, [u]);
      ApplyConfigAppend(a + [u], b);
      ApplyConfigAppend(a, b);
    }
  }

  /** Reading fails exactly when some object raises, and then with the first such exception. */
  lemma {:induction false} ApplyConfigError(entries: seq<RegionEntry>)
    ensures ApplyConfig(entries).error == None
        <==> forall i :: 0 <= i < |entries| ==> !Interpret(entries[i]).Raise?
    ensures ApplyConfig(entries).error.Some? ==>
      exists i :: 0 <= i < |entries| && Interpret(entries[i]) == Raise(ApplyConfig(entries).error.value)
        && forall j :: 0 <= j < i ==> !Interpret(entries[j]).Raise?
    decreases |entries|
  {
    if |entries| > 0 {
      var n := |entries| - 1;
      var prefix := entries[..n];
      ApplyConfigError(prefix);
      assert forall i :: 0 <= i < n ==> prefix[i] == entries[i];
      if ApplyConfig(prefix).error.Some? {
        var i :| 0 <= i < n && Interpret(prefix[i]) == Raise(ApplyConfig(prefix).error.value)
          && forall j :: 0 <= j < i ==> !Interpret(prefix[j]).Raise?;
        assert Interpret(entries[i]) == Raise(ApplyConfig(entries).error.value);
      } else if Interpret(entries[n]).Raise? {
        assert Interpret(entries[n]) == Raise(ApplyConfig(entries).error.value);
      }
    }
  }

  /** A `top` or `bottom` object without `height_percentage` uses 10 or 5 percent. */
  lemma ConfigDefaults(coordinates: Option<seq<real>>)
    ensures Interpret(RegionEntry(Some("top"), None, coordinates)) == Append(Top(10.0))
    ensures Interpret(RegionEntry(Some("bottom"), None, coordinates)) == Append(Bottom(5.0))
  {
  }

  /** Between 0 and 100 percent of a non-negative length lies between 0 and that length. */
  lemma PercentOfWithin(h: real, p: real)
    requires 0.0 <= h && 0.0 <= p <= 100.0
    ensures 0.0 <= h * p / 100.0 <= h
  {
    assert 0.0 <= h * p;
    assert h * (100.0 - p) >= 0.0;
    assert h * p <= h * 100.0;
  }

  /** A top band starts at y = 0, spans the page width, and is `p` percent of
      the page height tall, so it stays within the page for 0 <= p <= 100. */
  lemma TopBandWithinPage(p: real, pageWidth: nat, pageHeight: nat)
    requires 0.0 <= p <= 100.0
    ensures var r := Resolve(Top(p), pageWidth, pageHeight);
      && r.x1 == 0.0 && r.y1 == 0.0 && r.x2 == pageWidth as real
      && r.y2 == pageHeight as real * p / 100.0
      && 0.0 <= r.y2 <= pageHeight as real
  {
    PercentOfWithin(pageHeight as real, p);
  }

  /** A bottom band always ends exactly at the page height and is `p` percent
      of it tall, whatever `p` is. */
  lemma BottomBandEndsAtPage(p: real, pageWidth: nat, pageHeight: nat)
    ensures var r := Resolve(Bottom(p), pageWidth, pageHeight);
      && r.x1 == 0.0 && r.x2 == pageWidth as real
      && r.y2 == pageHeight as real
      && r.y2 - r.y1 == pageHeight as real * p / 100.0
  {
  }

  /** For 0 <= p <= 100 the top edge of a bottom band lies within the page. */
  lemma BottomBandWithinPage(p: real, pageWidth: nat, pageHeight: nat)
    requires 0.0 <= p <= 100.0
    ensures var r := Resolve(Bottom(p), pageWidth, pageHeight);
      0.0 <= r.y1 <= r.y2 == pageHeight as real
  {
    PercentOfWithin(pageHeight as real, p);
  }

  /** A pixel region is used as stored, whatever the page size. */
  lemma PixelIgnoresPageSize(c: Rect, w1: nat, h1: nat, w2: nat, h2: nat)
    ensures Resolve(Pixel(c), w1, h1) == c == Resolve(Pixel(c), w2, h2)
  {
  }

  /** A 1000 x 1400 page with a 10 percent top band masks (0, 0, 1000, 140). */
  lemma TopTenPercentExample()
    ensures Resolve(Top(10.0), 1000, 1400) == Rect(0.0, 0.0, 1000.0, 140.0)
  {
  }
}
