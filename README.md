# Brand logo colour classification — Dafny model

This project models the logo-colour logic of `Main.py`, a script that finds
the dominant colour of each brand logo in a ranking table and counts how many
logos fall into each of seven colours: yellow, orange, red, pink, blue, green
and monochrome.

The pipeline for one logo:

1. `image_scan` removes background pixels. The test is tuple equality: only
   the exact tuples `(255, 255, 255)` and `(0, 0, 0, 0)` are removed. An opaque
   white RGBA pixel `(255, 255, 255, 255)` stays.
2. `processing_rgba` keeps the first three channels and divides each by 255.
3. `rgb_to_hsl` converts each pixel with the external colour library.
4. `find_dominant_colour` runs a loop that bins each pixel by `hue * 360`
   into one of six open hue bands, or into the final else branch. It then
   takes the largest of the seven counters. Ties go to the first colour in
   the order yellow, orange, red, pink, blue, green, monochrome.

Corpus-level steps:

- `processing_raw_data` takes the brand names from the ranking rows.
- `list_of_filenames` appends `.png` to each brand name.
- `process_dominant_colour` classifies the logo stored under each file name.
- `count_occurances` tallies the colour labels into a seven-entry list.
- `secondary` chains these steps for one table.

The modules follow the pipeline:

- `Counting`: `list.count` as `Count`.
- `Pixels`: the filter, the rescaling and the HSL map.
- `Palette`: the colours, the hue bands and the per-pixel branch.
- `Dominant`: the counter loop and the tie-break.
- `Corpus`: the table, file-name and tally steps.

Modelling choices:

- **Real numbers instead of floats.** Channels and hues are `real`, so
  `x / 255` and `hue * 360` are exact.
- **External code as parameters.** The decoded image is a parameter
  `decode: string -> seq<Pixel>`. The colour library's conversion is a
  parameter `rgb2hsl: seq<real> -> Hsl`.
- **The else-branch bug is kept.** Main.py:122 writes `monochrome =+ 1`. This
  parses as `monochrome = +1`, so the monochrome counter is a flag (0 or 1)
  and not a count. The model keeps this (`Dominant.Tally`,
  `Dominant.FindDominantColour`). The consequence is proved in
  `Dominant.MonochromeOnlyWithoutHue`: a logo is monochrome only when no
  pixel at all falls in a hue band.
- **Empty images give yellow.** A logo with no ink pixels gets yellow through
  the tie-break (`Dominant.EmptyIsYellow`, `Corpus.BackgroundOnlyImageIsYellow`).
- **A missing column 0 is an error value.** A ranking row after the header
  with no column 0 makes the source raise `IndexError`. The model returns
  this as the `IndexError` constructor instead of requiring it away.

Behaviour of the code worth knowing:

- `(255, 255, 255, 255)` is kept by the filter, because the test is tuple
  equality with the 3-tuple `(255, 255, 255)` (`Pixels.OpaqueWhiteIsInk`).
- The 2x2 image `[(255,0,0,255), (255,0,0,255), (255,255,255,255),
  (0,0,0,0)]` is monochrome, not red. Three pixels survive the filter. With
  the standard hue 0 for pure red and for white, all three sit on the band
  edge 0 and take the else branch (`Corpus.RedAndWhiteImageIsMonochrome`).
- `processing_rgba` checks neither the channel count nor the range: the
  slice `[0:3]` takes whatever channels exist, and `Pixels.ProcessingRgba`
  models the slice.

## Model

| member | source | states |
|---|---|---|
| `Pixels.ImageScan` | Main.py:66 | the result is no longer than the input, and every pixel in it comes from the input and is neither `[255,255,255]` nor `[0,0,0,0]` |
| `Pixels.ImageScanAppend` | Main.py:66 | filtering a concatenation is the concatenation of the filtered parts, so relative order is kept |
| `Pixels.ImageScanMultiplicity` | Main.py:66 | a background tuple occurs 0 times in the result; any other tuple occurs exactly as often as in the input, so duplicates are kept |
| `Pixels.ImageScanAllBackground` | Main.py:66 | an image made only of background tuples leaves no ink pixels |
| `Pixels.OpaqueWhiteIsInk` | Main.py:66 | the opaque white RGBA pixel `[255,255,255,255]` is kept by the filter |
| `Pixels.ProcessingRgba` | Main.py:76-79 | the result has min(3, channels) values; multiplying value k by 255 gives back channel k; for channels in 0..255 every value is in [0,1] |
| `Pixels.ProcessingRgbaIgnoresAlpha` | Main.py:77 | adding an alpha channel to an RGB triple does not change the rescaled triple |
| `Pixels.RgbToHsl` | Main.py:89 | one HSL triple per ink pixel, in order, each the converter applied to that pixel's rescaled channels (proved from the head-then-tail recursion) |
| `Pixels.RgbToHslAppend` | Main.py:89 | converting a concatenation is the concatenation of the converted parts |
| `Pixels.InkHslAppend` | Main.py:66-89 | filtering then converting a concatenated image gives the HSL lists of the parts one after the other, so pixel order is kept through the pipeline |
| `Dominant.Bin` | Main.py:109-122 | the branch a pixel takes from `hue * 360`: a hued colour only when the value is in that colour's band, the else branch only when it is in none |
| `Dominant.Tally` | Main.py:99-122 | the counters after the loop: each at most the number of pixels, and the monochrome counter at most 1 (the `=+` flag) |
| `Palette.OrderIsRank` | Main.py:126-139 | the fixed order lists each of the seven colours once, at its rank; ranks and labels both tell colours apart |
| `Palette.Classify` | Main.py:109-122 | a hued branch is taken only when the degree value lies in that colour's open band; the else branch only when it lies in no band |
| `Palette.BandsDisjoint` | Main.py:109-120 | no degree value lies in two bands, so a pixel increments at most one of yellow..green |
| `Palette.ClassifyByBand` | Main.py:109-120 | for a hued colour, the pixel takes that colour's branch if and only if its degree value lies in that colour's band |
| `Palette.BoundaryIsMonochrome` | Main.py:109-122 | degree values 0, 25, 37.5, 82.5, 157.5, 262.5, 337.5, any value ≤ 0 and any value ≥ 360 take the else branch |
| `Dominant.Counters.Max` | Main.py:124 | the result is one of the seven counters and no counter exceeds it |
| `Dominant.DominantOf` | Main.py:124-139 | the chosen colour's counter is the maximum; every colour earlier in the order has a strictly smaller counter |
| `Dominant.DominantOfUnique` | Main.py:124-139 | exactly one colour has both properties, so the tie-break determines the result |
| `Dominant.FindDominantColour` | Main.py:94-140 | the loop leaves each hued counter equal to the number of pixels in its band and the monochrome counter equal to 1 if any pixel took the else branch (0 otherwise); the result has the maximal counter, and every earlier colour in the order has a strictly smaller one |
| `Dominant.TallyTotals` | Main.py:107-122 | the six hued counters sum to the number of pixels minus the number of else-branch pixels; the monochrome counter is 1 exactly when some pixel took the else branch |
| `Dominant.EmptyIsYellow` | Main.py:124-127 | an empty HSL list gives yellow |
| `Dominant.MonochromeOnlyWithoutHue` | Main.py:122-139 | monochrome is returned if and only if the list is non-empty and no pixel lies in a hue band |
| `Counting.Count` | Main.py:158-164 | the count is at most the length, and it is 0 exactly when the value does not occur |
| `Counting.CountIsMultiplicity` | Main.py:158-164 | the count equals the value's multiplicity, so it does not depend on order |
| `Corpus.ProcessingRawData` | Main.py:27-39 | when every row after the header has a column 0: one name per such row, `result[i] == data[i+1][0]`, and length `len(data)-1` (0 for no rows); otherwise IndexError at the first row without column 0 |
| `Corpus.FileName` | Main.py:48 | the file name is the brand name followed by four more characters |
| `Corpus.FileNameInjective` | Main.py:48 | distinct brand names give distinct file names |
| `Corpus.ListOfFilenames` | Main.py:42-51 | same length and order, `filenames[i] == FileName(data[i])`, that is `data[i] + ".png"`, and two entries share a file name exactly when they share a brand name |
| `Corpus.BackgroundOnlyImageIsYellow` | Main.py:62-66 | a logo whose pixels are all background tuples is classified yellow |
| `Corpus.RedAndWhiteImageIsMonochrome` | Main.py:66-139 | with hue 0 for pure red and for white, the 2x2 image of two red, one opaque white and one transparent pixel is monochrome |
| `Corpus.ClassifyImage` | Main.py:149 | the colour of one decoded image: yellow when no ink pixel survives the filter, and monochrome only when some ink pixel survives (`Dominant.MonochromeOnlyWithoutHue` gives the exact condition) |
| `Corpus.ProcessDominantColour` | Main.py:143-151 | one label per file name, in order; entry i is the label of the colour of the image stored at `"Assets/" + filenames[i]`; every entry is one of the seven labels |
| `Corpus.CountOccurrences` | Main.py:154-167 | a seven-entry list; entry k is the number of occurrences of the k-th label in the fixed order |
| `Corpus.CountOccurrencesTotal` | Main.py:158-166 | when every element is one of the seven labels, the entries sum to the length of the list |
| `Corpus.CountOccurrencesSplit` | Main.py:158-166 | the tally of a corpus split in two is the entry-wise sum of the tallies of the two parts |
| `Corpus.CountOccurrencesOrderFree` | Main.py:158-166 | two colour lists with the same elements in any order give the same tally |
| `Corpus.CountOccurrencesExample` | Main.py:158-166 | `["red","red","blue","yellow","red"]` tallies to `[1,0,3,0,1,0,0]` |
| `Corpus.Secondary` | Main.py:226-242 | for a well-formed table: brands, file names and colours line up index by index with the rows after the header, the tally is `CountOccurrences` of the colour list and sums to the number of brands; otherwise IndexError at the first row after the header with no column 0, which exists exactly when some such row is empty |

## Left out

- Reading the CSV file (`import_csv`, Main.py:16-24). The rows are a parameter of `Corpus.ProcessingRawData` and `Corpus.Secondary`.
- Opening and decoding the image files (`Image.open`, `getdata`, Main.py:62-63). This is the `decode` parameter. A missing or corrupt file, which raises in the source, is not modelled.
- The internals of the colour library's `rgb2hsl` (Main.py:13, 89). This is the `rgb2hsl` parameter. `Corpus.RedAndWhiteImageIsMonochrome` states the hue values it relies on as a precondition.
- The `rgb2hsl` parameter is total, but the colour library raises unless it receives exactly three values in [0,1]. The one-label-per-file results of `Corpus.ProcessDominantColour` and `Corpus.Secondary` therefore hold for the program only when every ink pixel has 3 or 4 channels in 0..255; `Pixels.ProcessingRgba` maps such channels into [0,1]. A 2-channel pixel (an LA-mode image) or a channel above 255 makes the program raise there, and palette- or grayscale-mode images decode to plain integers, which `list(rgba)` at Main.py:76 rejects. The model does not represent these exceptions.
- IEEE floating-point rounding in `x/255` and `hsl[0]*360`. The model uses exact reals. A Python value that lands exactly on a band edge could fall differently after rounding.
- Pie-chart rendering (`create_pie_chart`, Main.py:170-190).
- The lookups by rank and by name, which print and show images using module globals (Main.py:193-223).
- The interactive year selection, the menu and the recursive re-entry through `main()` and `menu()` (Main.py:245-363). This includes the rank loop that tests the wrong variable (Main.py:332).
