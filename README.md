# PDF OCR converter: region model, text layer and batch glue

This project models the coordination logic of a tool that makes image-only PDF
pages searchable. The tool rasterises each page, masks exclusion regions on the
page image, and runs OCR on the masked image. It then inserts every recognised
word as invisible text at the word's position on the original page. The model
covers five parts of that logic:

- **Regions** (`region_selector.dfy`). The `RegionSelector` class holds a list
  of exclusion specifications: a top band or a bottom band given as a
  percentage of the page height, or a fixed pixel rectangle. The list can be
  extended from configuration objects. Reading stops at the first object that
  raises, and whatever was appended before it stays in the list. The selector
  resolves its specifications into absolute rectangles for a page of a given
  pixel size.
- **Config** (`config.dfy`). `get_regions_for_file` returns the `global`
  region list. A `specific_files` entry for the file's basename replaces that
  list outright when the entry has a `regions` key.
- **PdfProcessing** (`pdf_processor.dfy`). The processor defaults its output
  path to the input path. For each page image it asks the recogniser for
  tokens, using the selector's rectangles for that image's size. It then adds
  one transparent insertion per token whose text is not blank, scaled from the
  raster's dpi to 72 points per inch. Finally it chooses an incremental save
  (which keeps the document's encryption) when writing in place, and a full
  save otherwise. The insertions are modelled as a per-page log.
- **Batch** (`batch_handler.dfy`). For each file it does the following:
  - chooses the output path: the input itself with overwrite, otherwise the
    output directory joined with the file's basename;
  - builds the file's selector in a fixed order: top band, bottom band, custom
    pixel regions, then the configuration's regions;
  - runs the page pipeline, turning any exception into
    `(False, "<path>: <message>")`.

  It then reports how many files succeeded and lists the error lines.
- **Paths** (`paths.dfy`) and **Common** (`common.dfy`) hold shared pieces.
  Paths has POSIX `os.path.basename` and `os.path.join`. Common has an
  `Option` type, Python's `x if x else default` for strings, and `FilterIndices`.
  `FilterIndices` gives the positions a test keeps, in order. It is the
  reference definition for "one output per kept element, in order".

Arithmetic is exact. Percentages, resolved rectangles, the 72/dpi scale and
placed positions and font sizes are `real`. Page image sizes and the dpi are
`nat`, and the recogniser's token boxes are `int`, as the OCR engine reports
them.

Behaviour of the code worth noting:
- A resolved region is not clamped to the page. A percentage outside 0..100
  or a pixel rectangle outside the image passes through unchanged.
  `TopBandWithinPage` and `BottomBandWithinPage` hold only for 0 <= p <= 100.
- A malformed region object does not stop the run at start-up. It raises
  while that file's selector is being built, so it becomes that file's failure
  line (`FileOutcome`). A configuration file path that does not exist is
  ignored, and the default configuration is used.
- Batch results are collected in file order, because the futures are read
  back in submission order. The error lines are therefore listed in file order.
- The batch never passes a dpi, so every file is rasterised at the default 300.

## Model

| member | source | states |
|---|---|---|
| Paths.BasenameIsLastComponent | pdf_ocr_converter/config.py:30 | the basename contains no '/' and is the suffix of the path after its last '/' (the whole path when it has none) |
| Paths.BasenameOfJoin | pdf_ocr_converter/batch_handler.py:48-49 | joining a directory with a name that contains no '/' and taking the basename gives back the name |
| Regions.ResolveAll | pdf_ocr_converter/region_selector.py:44-58 | one rectangle per specification, in order, each resolved against the page size |
| Regions.RegionSelector.constructor | pdf_ocr_converter/region_selector.py:9-10 | a new selector has no specifications |
| Regions.RegionSelector.AddTopRegion | pdf_ocr_converter/region_selector.py:12-17 | appends a top band of the given percentage (default 10), keeping earlier entries |
| Regions.RegionSelector.AddBottomRegion | pdf_ocr_converter/region_selector.py:19-24 | appends a bottom band of the given percentage (default 5), keeping earlier entries |
| Regions.RegionSelector.AddPixelRegion | pdf_ocr_converter/region_selector.py:26-31 | appends the pixel rectangle (x1, y1, x2, y2), keeping earlier entries |
| Regions.RegionSelector.AddRegionsFromConfig | pdf_ocr_converter/region_selector.py:33-42 | appends the specifications of the objects read before the first one that raises, and returns that exception (none if no object raises) |
| Regions.RegionSelector.GetExcludeRegionsForPage | pdf_ocr_converter/region_selector.py:44-58 | returns exactly the resolved rectangles of the stored specifications for the given page size, in order, without changing the selector |
| Regions.ErrorIsFinal | pdf_ocr_converter/region_selector.py:35-42 | once an object has raised, later objects change neither the appended list nor the exception |
| Regions.ApplyConfigAppend | pdf_ocr_converter/region_selector.py:35-42 | reading two lists one after the other is reading their concatenation |
| Regions.UnknownTypeSkipped | pdf_ocr_converter/region_selector.py:36-42 | an object whose type is not top, bottom or pixel can be removed from any position without changing the outcome |
| Regions.ApplyConfigError | pdf_ocr_converter/region_selector.py:36-42 | reading fails if and only if some object raises, and then with the exception of the first such object |
| Regions.ConfigDefaults | pdf_ocr_converter/region_selector.py:36-39 | a top object without height_percentage gives 10 percent, a bottom object 5 percent |
| Regions.TopBandWithinPage | pdf_ocr_converter/region_selector.py:48-50 | a top band is (0, 0, width, height*p/100) and lies within the page for 0 <= p <= 100 |
| Regions.BottomBandEndsAtPage | pdf_ocr_converter/region_selector.py:51-54 | a bottom band spans the page width, ends exactly at the page height and is height*p/100 tall, for every p |
| Regions.BottomBandWithinPage | pdf_ocr_converter/region_selector.py:51-54 | for 0 <= p <= 100 the top edge of a bottom band lies between 0 and the page height |
| Regions.PixelIgnoresPageSize | pdf_ocr_converter/region_selector.py:55-57 | a pixel rectangle resolves to itself whatever the page size |
| Regions.TopTenPercentExample | pdf_ocr_converter/region_selector.py:48-50 | a 10 percent top band on a 1000x1400 page is (0, 0, 1000, 140) |
| Config.DefaultHasNoRegions | pdf_ocr_converter/config.py:12-15 | with the default configuration no file has any region |
| Config.NoEntryUsesGlobal | pdf_ocr_converter/config.py:23-31 | a file without a specific_files entry gets the global list, or nothing when there is none |
| Config.EntryReplacesGlobal | pdf_ocr_converter/config.py:31-34 | an entry with a regions key replaces the global list by its own list |
| Config.EmptyEntryMasksNothing | pdf_ocr_converter/config.py:31-34 | an entry with an empty regions list gives no regions even when the global list has some |
| Config.EntryWithoutRegionsUsesGlobal | pdf_ocr_converter/config.py:31-32 | an entry without a regions key falls back to the global list |
| Config.SameBasenameSameRegions | pdf_ocr_converter/config.py:30 | two paths with the same basename get the same regions |
| Config.FileInDirectoryUsesItsName | pdf_ocr_converter/config.py:30 | a file inside any directory is looked up by its bare name |
| PdfProcessing.PdfProcessor.constructor | pdf_ocr_converter/pdf_processor.py:14-17 | the output path is the given one unless it is absent or empty, then the input path |
| PdfProcessing.PdfProcessor.AddTextLayer | pdf_ocr_converter/pdf_processor.py:62-92 | the page's insertions are the earlier ones followed by the text layer of the tokens |
| PdfProcessing.PdfProcessor.Process | pdf_ocr_converter/pdf_processor.py:20-60 | page i gets the text layer of what the recogniser returns for image i masked with the selector's rectangles for that image's size (none without a selector); the save goes to the output path, incrementally exactly when it equals the input path |
| PdfProcessing.TextLayerMatchesVisibleTokens | pdf_ocr_converter/pdf_processor.py:72-92 | the layer has one insertion per token whose text is not blank, and the k-th insertion is the placement of the k-th such token |
| PdfProcessing.TextLayerTransparent | pdf_ocr_converter/pdf_processor.py:87-92 | every insertion is fully transparent and carries the unstripped text of a visible token |
| PdfProcessing.BlankTokenAddsNothing | pdf_ocr_converter/pdf_processor.py:73 | a token whose text is all whitespace adds no insertion |
| PdfProcessing.StripEmptyIffAllSpace | pdf_ocr_converter/pdf_processor.py:73 | stripping gives the empty string if and only if every character is whitespace |
| PdfProcessing.StripLeadingEmpty | pdf_ocr_converter/pdf_processor.py:73 | stripping leading whitespace leaves nothing if and only if every character is whitespace |
| PdfProcessing.StripTrailingKeepsHead | pdf_ocr_converter/pdf_processor.py:73 | a text that starts with a non-whitespace character keeps it when trailing whitespace is stripped |
| PdfProcessing.NonEmptyStripLeadingHead | pdf_ocr_converter/pdf_processor.py:73 | a non-empty result of stripping leading whitespace starts with a non-whitespace character |
| PdfProcessing.PlaceScalesBox | pdf_ocr_converter/pdf_processor.py:82-92 | position and font size are the pixel box scaled by 72/dpi, and scaling back by dpi/72 recovers the pixel box |
| PdfProcessing.PlaceExample | pdf_ocr_converter/pdf_processor.py:82-92 | at 300 dpi, pixel (100, 200) with height 60 is placed at (24, 48) in 14.4 point transparent type |
| Batch.PixelSpecs | pdf_ocr_converter/batch_handler.py:61-63 | one pixel specification per custom region, in order |
| Batch.BatchProcessor.constructor | pdf_ocr_converter/batch_handler.py:16-32 | the output directory is the given one unless it is absent or empty, then the input directory; every other setting is stored as given |
| Batch.BatchProcessor.BuildRegionSelector | pdf_ocr_converter/batch_handler.py:51-68 | a fresh selector holding the assembled specifications of the file, together with the exception reading the configuration raised |
| Batch.BatchProcessor.ProcessSingleFile | pdf_ocr_converter/batch_handler.py:42-76 | the result is the file's outcome: the configuration's exception or the pipeline's failure as a "path: message" line, otherwise success with the path |
| Batch.BatchProcessor.ProcessAll | pdf_ocr_converter/batch_handler.py:78-111 | no summary for an empty listing; otherwise the total, the number of successes and the error lines of the results of the files, in file order |
| Batch.BatchProcessor.OverwriteWritesInPlace | pdf_ocr_converter/batch_handler.py:45-46 | with overwrite each file is written over itself |
| Batch.BatchProcessor.OutputKeepsFileName | pdf_ocr_converter/batch_handler.py:47-49 | without overwrite the output has the same basename as the input |
| Batch.BatchProcessor.DefaultOutputDirWritesInPlace | pdf_ocr_converter/batch_handler.py:45-49 | when the output directory is the input directory, a file found there is written over itself even without overwrite |
| Batch.BatchProcessor.FixedOrder | pdf_ocr_converter/batch_handler.py:54-63 | the specifications before the configuration are the top band if enabled, then the bottom band if enabled, then the custom pixel regions in order |
| Batch.BatchProcessor.AssemblyOrder | pdf_ocr_converter/batch_handler.py:51-68 | a file's specifications are top band, bottom band, custom pixel regions, then exactly the configuration's specifications for the file |
| Batch.BatchProcessor.FileOutcomeShape | pdf_ocr_converter/batch_handler.py:74-76 | a file succeeds if and only if reading the configuration raises nothing and the pipeline passes, and then the detail is its own path; a configuration exception gives "path: " followed by that exception's text, and a pipeline failure gives "path: " followed by the pipeline's message |
| Batch.SummaryBalance | pdf_ocr_converter/batch_handler.py:107-111 | the success count plus the number of error lines is the number of results |
| Batch.SuccessCountCountsSuccesses | pdf_ocr_converter/batch_handler.py:107 | the success count is the number of successful results |
| Batch.ErrorsAreFailureMessages | pdf_ocr_converter/batch_handler.py:111 | the error lines are exactly the messages of the failed results, in result order |

## Left out

- Rasterising, masking and OCR are outside the model. The recogniser is a
  function parameter of `Process`. It receives a page image and the optional
  rectangles, and it covers both the masking of a copy of the image and the
  call to the OCR engine.
- The OCR engine's parallel-list result is modelled as a sequence of token
  records, one per index of those lists.
- Opening, saving and closing documents, and creating the output directory,
  are outside the model. `Process` returns the save request (path and mode)
  instead of performing it.
- In batch mode the whole page pipeline of a file is a function parameter
  `Job -> Outcome`. It sees the input path, output path, specifications,
  language and dpi. Any exception it raises is its `Fail` message.
- The thread pool and the progress bar are not modelled. The files are
  processed one after the other, and results are read back in submission
  order, as the source does.
- Printed messages are not modelled. `ProcessAll` returns the figures it
  would print, and returns `None` for the early return on an empty listing.
- The directory listing (`glob`) is not modelled. `ProcessAll` takes the list
  of files found.
- The command-line entry point and the configuration helper are not part of
  this model.
- Loading the configuration from JSON is not modelled: the configuration is a
  typed value. A JSON value of a wrong type (a string where a list is
  expected, a null percentage) is not modelled.
- Floating-point rounding is not modelled: all arithmetic is exact over the
  reals.
- Text orientation, the `AUTO` orientation default and the `orientation`
  argument that the batch passes to `process` are not modelled. The
  recognition engine defines no orientation and `process` takes no such
  parameter.
- PdfProcessing.PdfProcessor.AddTextLayer: requires dpi > 0. The source would
  raise a division by zero on the first visible token.
- PdfProcessing.PdfProcessor.Process: requires dpi > 0. It also requires as
  many page images as the document has pages, which is how the rasteriser's
  output relates to the document.
- Batch.BatchProcessor.BuildRegionSelector is lines 51-68 of
  `process_single_file`, taken out as a method of its own. It returns the
  configuration's exception instead of raising it.
