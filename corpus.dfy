/**
 * Corpus-level steps: brand names from the ranking rows, logo file names,
 * one dominant colour per logo, the seven-entry tally, and the composition
 * of these that the program runs for a chosen year.
 */
module Corpus {
  import opened Counting
  import opened Pixels
  import opened Palette
  import opened Dominant

  const AssetsDir: string := "Assets/"
  const Extension: string := ".png"

  /** Outcome of taking column 0 from every row after the header. */
  datatype RawData =
    | Brands(brands: seq<string>)
      /** `data[row]` has no column 0, so indexing it raises IndexError. */
    | IndexError(row: nat)

  /** The brand names in rank order: the header row dropped, column 0 of every other row kept. */
  method ProcessingRawData(data: seq<seq<string>>) returns (r: RawData)
    ensures r.IndexError? <==> exists j :: 1 <= j < |data| && |data[j]| == 0
    ensures r.IndexError? ==>
      1 <= r.row < |data| && |data[r.row]| == 0 && forall j :: 1 <= j < r.row ==> |data[j]| > 0
    ensures r.Brands? ==>
      |r.brands| == (if |data| == 0 then 0 else |data| - 1) &&
      forall i :: 0 <= i < |r.brands| ==> r.brands[i] == data[i + 1][0]
  {
    var dataWithoutHeader := if |data| == 0 then [] else data[1..];
    var cleanData: seq<string> := [];
    var i := 0;
    while i < |dataWithoutHeader|
      invariant 0 <= i <= |dataWithoutHeader|
      invariant |dataWithoutHeader| == (if |data| == 0 then 0 else |data| - 1)
      invariant forall k :: 0 <= k < |dataWithoutHeader| ==> dataWithoutHeader[k] == data[k + 1]
      invariant |cleanData| == i
      invariant forall j :: 1 <= j <= i ==> |data[j]| > 0
      invariant forall k :: 0 <= k < i ==> cleanData[k] == dataWithoutHeader[k][0]
    {
      if |dataWithoutHeader[i]| == 0 {
        return IndexError(i + 1);
      }
      cleanData := cleanData + [dataWithoutHeader[i][0]];
      i := i + 1;
    }
    return Brands(cleanData);
  }

  /** The logo file name of a brand. */
  function FileName(brand: string): (filename: string)
    ensures |filename| == |brand| + 4 && filename[..|brand|] == brand
  {
    brand + Extension
  }

  /** Distinct brands have distinct file names. */
  lemma FileNameInjective(a: string, b: string)
    requires FileName(a) == FileName(b)
    ensures a == b
  {
  }

  /** One file name per brand, in the same order; two entries share a file name only if they share a brand. */
  method ListOfFilenames(data: seq<string>) returns (filenames: seq<string>)
    ensures |filenames| == |data|
    ensures forall i :: 0 <= i < |data| ==> filenames[i] == FileName(data[i])
    ensures forall i, j :: 0 <= i < |data| && 0 <= j < |data| ==>
              (filenames[i] == filenames[j] <==> data[i] == data[j])
  {
    filenames := [];
    for k := 0 to |data|
      invariant |filenames| == k
      invariant forall i :: 0 <= i < k ==> filenames[i] == FileName(data[i])
    {
      var filename := FileName(data[k]);
      filenames := filenames + [filename];
    }
    forall i, j | 0 <= i < |data| && 0 <= j < |data| && filenames[i] == filenames[j]
      ensures data[i] == data[j]
    {
      FileNameInjective(data[i], data[j]);
    }
  }

  /**
   * The dominant colour of one decoded image: background removed, the rest
   * converted by `rgb2hsl`, then counted and chosen.
   */
  function ClassifyImage(rgbaValues: seq<Pixel>, rgb2hsl: seq<real> -> Hsl): (c: Colour)
    ensures ImageScan(rgbaValues) == [] ==> c == Yellow
    ensures c == Monochrome ==> ImageScan(rgbaValues) != []
  {
    DominantOf(Tally(RgbToHsl(ImageScan(rgbaValues), rgb2hsl)))
  }

  /** An image with no ink pixels (all transparent or RGB white) is classified yellow. */
  lemma BackgroundOnlyImageIsYellow(rgbaValues: seq<Pixel>, rgb2hsl: seq<real> -> Hsl)
    requires forall i :: 0 <= i < |rgbaValues| ==> IsBackground(rgbaValues[i])
    ensures ClassifyImage(rgbaValues, rgb2hsl) == Yellow
  {
    ImageScanAllBackground(rgbaValues);
    assert RgbToHsl([], rgb2hsl) == [];
    EmptyIsYellow();
  }

  /**
   * Two opaque red pixels, one opaque white RGBA pixel and one transparent
   * pixel: three pixels survive the filter. With the standard hue of 0 for
   * pure red and for white, all three take the else branch, so the image is
   * monochrome rather than red.
   */
  lemma RedAndWhiteImageIsMonochrome(rgb2hsl: seq<real> -> Hsl)
    requires rgb2hsl([1.0, 0.0, 0.0]).hue == 0.0 && rgb2hsl([1.0, 1.0, 1.0]).hue == 0.0
    ensures ClassifyImage([[255, 0, 0, 255], [255, 0, 0, 255], [255, 255, 255, 255], [0, 0, 0, 0]], rgb2hsl)
            == Monochrome
  {
    var red: Pixel, white: Pixel := [255, 0, 0, 255], [255, 255, 255, 255];
    RedAndWhiteInk();
    assert ProcessingRgba(red) == [1.0, 0.0, 0.0];
    assert ProcessingRgba(white) == [1.0, 1.0, 1.0];
    var hslList := RgbToHsl([red, red, white], rgb2hsl);
    assert forall i :: 0 <= i < |hslList| ==> hslList[i].hue == 0.0;
    MonochromeOnlyWithoutHue(hslList);
  }

  lemma RedAndWhiteInk()
    ensures ImageScan([[255, 0, 0, 255], [255, 0, 0, 255], [255, 255, 255, 255], [0, 0, 0, 0]])
         == [[255, 0, 0, 255], [255, 0, 0, 255], [255, 255, 255, 255]]
  {
  }

  /** One colour label per file name, in order: the colour of the image stored under that name. */
  method ProcessDominantColour(filenames: seq<string>, decode: string -> seq<Pixel>, rgb2hsl: seq<real> -> Hsl)
    returns (colourList: seq<string>)
    ensures |colourList| == |filenames|
    ensures forall i :: 0 <= i < |filenames| ==>
              colourList[i] == ClassifyImage(decode(AssetsDir + filenames[i]), rgb2hsl).Label()
    ensures forall i :: 0 <= i < |filenames| ==> IsLabel(colourList[i])
  {
    colourList := [];
    ghost var colours: seq<Colour> := [];
    for k := 0 to |filenames|
      invariant |colourList| == k && |colours| == k
      invariant forall i :: 0 <= i < k ==> colours[i] == ClassifyImage(decode(AssetsDir + filenames[i]), rgb2hsl)
      invariant forall i :: 0 <= i < k ==> colourList[i] == colours[i].Label()
    {
      var rgbaValues := ImageScan(decode(AssetsDir + filenames[k]));
      var colour := FindDominantColour(RgbToHsl(rgbaValues, rgb2hsl));
      colourList := colourList + [colour.Label()];
      colours := colours + [colour];
    }
    forall i | 0 <= i < |filenames|
      ensures IsLabel(colourList[i])
    {
      var c := ClassifyImage(decode(AssetsDir + filenames[i]), rgb2hsl);
      assert c.Label() == colourList[i];
    }
  }

  /** How many times each of the seven labels occurs, in the fixed order. */
  function CountOccurrences(colourList: seq<string>): (count: seq<nat>)
    ensures |count| == |Order|
    ensures forall k :: 0 <= k < |Order| ==> count[k] == Count(colourList, Order[k].Label())
  {
    [Count(colourList, "yellow"), Count(colourList, "orange"), Count(colourList, "red"),
     Count(colourList, "pink"), Count(colourList, "blue"), Count(colourList, "green"),
     Count(colourList, "monochrome")]
  }

  function Sum(count: seq<nat>): nat {
    if |count| == 0 then 0 else count[0] + Sum(count[1..])
  }

  lemma SumOfSeven(count: seq<nat>)
    requires |count| == 7
    ensures Sum(count) == count[0] + count[1] + count[2] + count[3] + count[4] + count[5] + count[6]
  {
    assert Sum(count[6..]) == count[6] + Sum(count[7..]);
    assert Sum(count[5..]) == count[5] + Sum(count[6..]);
    assert Sum(count[4..]) == count[4] + Sum(count[5..]);
    assert Sum(count[3..]) == count[3] + Sum(count[4..]);
    assert Sum(count[2..]) == count[2] + Sum(count[3..]);
    assert Sum(count[1..]) == count[1] + Sum(count[2..]);
  }

  /** When every entry is a colour label, the tally accounts for every entry exactly once. */
  lemma {:induction false} CountOccurrencesTotal(colourList: seq<string>)
    requires forall i :: 0 <= i < |colourList| ==> IsLabel(colourList[i])
    ensures Sum(CountOccurrences(colourList)) == |colourList|
  {
    var count := CountOccurrences(colourList);
    SumOfSeven(count);
    LabelCountsSum(colourList);
  }

  lemma {:induction false} LabelCountsSum(s: seq<string>)
    requires forall i :: 0 <= i < |s| ==> IsLabel(s[i])
    ensures Count(s, "yellow") + Count(s, "orange") + Count(s, "red") + Count(s, "pink")
          + Count(s, "blue") + Count(s, "green") + Count(s, "monochrome") == |s|
  {
    if |s| > 0 {
      var front := s[..|s| - 1];
      LabelCountsSum(front);
      var c: Colour :| c.Label() == s[|s| - 1];
      match c
      case Yellow =>
      case Orange =>
      case Red =>
      case Pink =>
      case Blue =>
      case Green =>
      case Monochrome =>
    }
  }

  /** The tally of a corpus split in two is the entry-wise sum of the tallies of the parts. */
  lemma CountOccurrencesSplit(a: seq<string>, b: seq<string>)
    ensures forall k :: 0 <= k < |Order| ==>
      CountOccurrences(a + b)[k] == CountOccurrences(a)[k] + CountOccurrences(b)[k]
  {
    forall k | 0 <= k < |Order|
      ensures CountOccurrences(a + b)[k] == CountOccurrences(a)[k] + CountOccurrences(b)[k]
    {
      CountAppend(a, b, Order[k].Label());
    }
  }

  /** The tally does not depend on the order of the colour list. */
  lemma CountOccurrencesOrderFree(a: seq<string>, b: seq<string>)
    requires multiset(a) == multiset(b)
    ensures CountOccurrences(a) == CountOccurrences(b)
  {
    forall k | 0 <= k < |Order|
      ensures CountOccurrences(a)[k] == CountOccurrences(b)[k]
    {
      CountIsMultiplicity(a, Order[k].Label());
      CountIsMultiplicity(b, Order[k].Label());
    }
  }

  /** Three reds, one blue and one yellow tally as [1, 0, 3, 0, 1, 0, 0]. */
  lemma CountOccurrencesExample()
    ensures CountOccurrences(["red", "red", "blue", "yellow", "red"]) == [1, 0, 3, 0, 1, 0, 0]
  {
    var s := ["red", "red", "blue", "yellow", "red"];
    ExampleCount(s, "yellow");
    ExampleCount(s, "orange");
    ExampleCount(s, "red");
    ExampleCount(s, "pink");
    ExampleCount(s, "blue");
    ExampleCount(s, "green");
    ExampleCount(s, "monochrome");
  }

  lemma ExampleCount(s: seq<string>, name: string)
    requires s == ["red", "red", "blue", "yellow", "red"]
    ensures Count(s, name) == if name == "red" then 3 else if name == "blue" || name == "yellow" then 1 else 0
  {
    var s1: seq<string> := ["red"];
    var s2 := s1 + ["red"];
    var s3 := s2 + ["blue"];
    var s4 := s3 + ["yellow"];
    assert s == s4 + ["red"];
    assert s1 == [] + ["red"];
    CountSnoc([], "red", name);
    CountSnoc(s1, "red", name);
    CountSnoc(s2, "blue", name);
    CountSnoc(s3, "yellow", name);
    CountSnoc(s4, "red", name);
  }

  /** Everything the program computes for one ranking table. */
  datatype Analysis =
    | Analysis(brands: seq<string>, filenames: seq<string>, colourList: seq<string>, count: seq<nat>)
    | AnalysisIndexError(row: nat)

  /** Brand names, file names, colours and the tally for the rows of one ranking table. */
  method Secondary(data: seq<seq<string>>, decode: string -> seq<Pixel>, rgb2hsl: seq<real> -> Hsl)
    returns (r: Analysis)
    ensures r.AnalysisIndexError? <==> exists j :: 1 <= j < |data| && |data[j]| == 0
    ensures r.AnalysisIndexError? ==>
      1 <= r.row < |data| && |data[r.row]| == 0 && forall j :: 1 <= j < r.row ==> |data[j]| > 0
    ensures r.Analysis? ==>
      |r.brands| == (if |data| == 0 then 0 else |data| - 1) &&
      |r.filenames| == |r.brands| && |r.colourList| == |r.brands| &&
      (forall i :: 0 <= i < |r.brands| ==>
         r.brands[i] == data[i + 1][0] &&
         r.filenames[i] == FileName(r.brands[i]) &&
         r.colourList[i] == ClassifyImage(decode(AssetsDir + FileName(r.brands[i])), rgb2hsl).Label()) &&
      r.count == CountOccurrences(r.colourList) && |r.count| == 7 && Sum(r.count) == |r.brands|
  {
    var raw := ProcessingRawData(data);
    if raw.IndexError? {
      return AnalysisIndexError(raw.row);
    }
    var brands := raw.brands;
    var filenames := ListOfFilenames(brands);
    var colourList := ProcessDominantColour(filenames, decode, rgb2hsl);
    CountOccurrencesTotal(colourList);
    r := Analysis(brands, filenames, colourList, CountOccurrences(colourList));
  }
}
