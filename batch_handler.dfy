/** Processing every PDF of a directory: for each file, choose the output path,
    assemble its exclusion regions in a fixed order, run the page pipeline, and
    turn any exception into a failed result; then summarise the results. */
module Batch {
  import opened Common
  import opened Paths
  import opened Regions
  import opened Config
  import opened PdfProcessing

  /** What the page pipeline (`PdfProcessor.process` with its rasteriser,
      recogniser and document library) is asked to do for one file. */
  datatype Job = Job(inputPdf: string, outputPdf: string, specs: seq<ExclusionSpec>,
                     language: string, dpi: nat)

  /** `(True, path)` for a processed file, `(False, "path: message")` for a failed one. */
  datatype FileResult = FileResult(success: bool, detail: string)

  /** What is reported at the end: files found, files processed, error lines. */
  datatype Summary = Summary(total: nat, successCount: nat, errors: seq<string>)

  predicate Succeeded(r: FileResult) { r.success }

  predicate Failed(r: FileResult) { !r.success }

  /** One pixel specification per custom region, in order. */
  function PixelSpecs(regions: seq<Rect>): (r: seq<ExclusionSpec>)
    ensures |r| == |regions| && forall i :: 0 <= i < |regions| ==> r[i] == Pixel(regions[i])
  {
    if |regions| == 0 then []
    else PixelSpecs(regions[..|regions| - 1]) + [Pixel(regions[|regions| - 1])]
  }

  /** The number of successful results. */
  function SuccessCount(results: seq<FileResult>): nat {
    if |results| == 0 then 0
    else SuccessCount(results[..|results| - 1]) + (if results[|results| - 1].success then 1 else 0)
  }

  /** The messages of the failed results, in result order. */
  function Errors(results: seq<FileResult>): seq<string> {
    if |results| == 0 then []
    else
      var last := results[|results| - 1];
      Errors(results[..|results| - 1]) + (if last.success then [] else [last.detail])
  }

  class BatchProcessor {
    const inputDir: string
    const outputDir: string
    const language: string
    const excludeConfig: Option<ConfigData>
    const excludeTop: bool
    const topPercentage: real
    const excludeBottom: bool
    const bottomPercentage: real
    const customRegions: Option<seq<Rect>>
    const overwrite: bool
    const maxWorkers: nat

    constructor(inputDir: string, outputDir: Option<string> := None, language: string := "jpn",
                excludeConfig: Option<ConfigData> := None,
                excludeTop: bool := false, topPercentage: real := 10.0,
                excludeBottom: bool := false, bottomPercentage: real := 5.0,
                customRegions: Option<seq<Rect>> := None, overwrite: bool := false,
                maxWorkers: nat := 4)
      ensures this.inputDir == inputDir && this.outputDir == NonEmptyOr(outputDir, inputDir)
      ensures this.language == language && this.excludeConfig == excludeConfig
      ensures this.excludeTop == excludeTop && this.topPercentage == topPercentage
      ensures this.excludeBottom == excludeBottom && this.bottomPercentage == bottomPercentage
      ensures this.customRegions == customRegions && this.overwrite == overwrite
      ensures this.maxWorkers == maxWorkers
    {
      this.inputDir := inputDir;
      this.outputDir := NonEmptyOr(outputDir, inputDir);
      this.language := language;
      this.excludeConfig := excludeConfig;
      this.excludeTop := excludeTop;
      this.topPercentage := topPercentage;
      this.excludeBottom := excludeBottom;
      this.bottomPercentage := bottomPercentage;
      this.customRegions := customRegions;
      this.overwrite := overwrite;
      this.maxWorkers := maxWorkers;
    }

    /** Where a file's result is written. */
    function OutputPath(pdfPath: string): string {
      if overwrite then pdfPath else Join(outputDir, Basename(pdfPath))
    }

    /** The specifications added before the configuration is read: the top
        band, the bottom band, then the custom pixel regions. */
    function FixedSpecs(): seq<ExclusionSpec> {
      (if excludeTop then [Top(topPercentage)] else [])
      + (if excludeBottom then [Bottom(bottomPercentage)] else [])
      + (if customRegions.Some? then PixelSpecs(customRegions.value) else [])
    }

    /** What the configuration adds for a file, and the exception reading it raised, if any. */
    function ConfigPart(pdfPath: string): Applied {
      match excludeConfig
      case None => Applied([], None)
      case Some(config) => ApplyConfig(RegionsForFile(config, pdfPath))
    }

    /** The specifications a file's selector ends with, together with the
        exception reading the configuration raised, if any. */
    function AssembledSpecs(pdfPath: string): Applied {
      Applied(FixedSpecs() + ConfigPart(pdfPath).specs, ConfigPart(pdfPath).error)
    }

    /** The job handed to the page pipeline for a file whose regions are `specs`. */
    function JobFor(pdfPath: string, specs: seq<ExclusionSpec>): Job {
      Job(pdfPath, NonEmptyOr(Some(OutputPath(pdfPath)), pdfPath), specs, language, DefaultDpi)
    }

    /** The outcome of processing one file with the given page pipeline. */
    function FileOutcome(pdfPath: string, pipeline: Job -> Outcome): FileResult {
      var assembled := AssembledSpecs(pdfPath);
      if assembled.error.Some? then
        FileResult(false, pdfPath + ": " + ErrorMessage(assembled.error.value))
      else
        match pipeline(JobFor(pdfPath, assembled.specs))
        case Pass => FileResult(true, pdfPath)
        case Fail(message) => FileResult(false, pdfPath + ": " + message)
    }

    /** The results of all files, in file order. */
    function Outcomes(pdfFiles: seq<string>, pipeline: Job -> Outcome): (r: seq<FileResult>)
      ensures |r| == |pdfFiles|
      ensures forall i :: 0 <= i < |pdfFiles| ==> r[i] == FileOutcome(pdfFiles[i], pipeline)
    {
      seq(|pdfFiles|, i requires 0 <= i < |pdfFiles| => FileOutcome(pdfFiles[i], pipeline))
    }

    /** Builds a file's region selector: top band, bottom band, the custom
        pixel regions, then the configuration's regions; a configuration
        exception is returned instead of raised. */
    method BuildRegionSelector(pdfPath: string) returns (regionSelector: RegionSelector, error: Option<ConfigError>)
      ensures fresh(regionSelector)
      ensures regionSelector.excludeRegions == AssembledSpecs(pdfPath).specs
      ensures error == AssembledSpecs(pdfPath).error
    {
      regionSelector := new RegionSelector();
      if excludeTop {
        regionSelector.AddTopRegion(topPercentage);
      }
      if excludeBottom {
        regionSelector.AddBottomRegion(bottomPercentage);
      }
      ghost var bands := regionSelector.excludeRegions;
      assert bands == (if excludeTop then [Top(topPercentage)] else [])
                      + (if excludeBottom then [Bottom(bottomPercentage)] else []);
      if customRegions.Some? {
        var regions := customRegions.value;
        var i := 0;
        while i < |regions|
          invariant 0 <= i <= |regions|
          invariant regionSelector.excludeRegions == bands + PixelSpecs(regions[..i])
        {
          assert regions[..i + 1][..i] == regions[..i];
          assert PixelSpecs(regions[..i + 1]) == PixelSpecs(regions[..i]) + [Pixel(regions[i])];
          var region := regions[i];
          assert Rect(region.x1, region.y1, region.x2, region.y2) == region;
          regionSelector.AddPixelRegion(region.x1, region.y1, region.x2, region.y2);
          assert regionSelector.excludeRegions
              == bands + (PixelSpecs(regions[..i]) + [Pixel(region)]);
          i := i + 1;
        }
        assert regions[..i] == regions;
      }
      assert regionSelector.excludeRegions == FixedSpecs();
      error := None;
      if excludeConfig.Some? {
        var regionsConfig := RegionsForFile(excludeConfig.value, pdfPath);
        error := regionSelector.AddRegionsFromConfig(regionsConfig);
      }
    }

    /** Processes one file; every exception becomes a failed result. */
    method ProcessSingleFile(pdfPath: string, pipeline: Job -> Outcome) returns (result: FileResult)
      ensures result == FileOutcome(pdfPath, pipeline)
    {
      var outputPath: string;
      if overwrite {
        outputPath := pdfPath;
      } else {
        var filename := Basename(pdfPath);
        outputPath := Join(outputDir, filename);
      }

      var regionSelector, error := BuildRegionSelector(pdfPath);
      if error.Some? {
        return FileResult(false, pdfPath + ": " + ErrorMessage(error.value));
      }

      var processor := new PdfProcessor(pdfPath, Some(outputPath), language);
      var job := Job(processor.inputPdf, processor.outputPdf, regionSelector.excludeRegions,
                     processor.language, DefaultDpi);
      match pipeline(job) {
        case Pass => result := FileResult(true, pdfPath);
        case Fail(message) => result := FileResult(false, pdfPath + ": " + message);
      }
    }

    /** Processes the files the directory listing found, one after the other,
        and summarises; an empty listing returns early with nothing processed. */
    method ProcessAll(pdfFiles: seq<string>, pipeline: Job -> Outcome) returns (summary: Option<Summary>)
      ensures |pdfFiles| == 0 ==> summary == None
      ensures |pdfFiles| > 0 ==> summary == Some(Summary(|pdfFiles|,
        SuccessCount(Outcomes(pdfFiles, pipeline)), Errors(Outcomes(pdfFiles, pipeline))))
    {
      var totalFiles := |pdfFiles|;
      if totalFiles == 0 {
        return None;
      }
      ghost var expected := Outcomes(pdfFiles, pipeline);
      var results: seq<FileResult> := [];
      var i := 0;
      while i < totalFiles
        invariant 0 <= i <= totalFiles
        invariant results == expected[..i]
      {
        var result := ProcessSingleFile(pdfFiles[i], pipeline);
        PrefixExtend(expected, i);
        results := results + [result];
        i := i + 1;
      }
      assert results == expected;
      summary := Some(Summary(totalFiles, SuccessCount(results), Errors(results)));
    }

    /** With overwrite set, each file is written over itself. */
    lemma OverwriteWritesInPlace(pdfPath: string)
      requires overwrite
      ensures OutputPath(pdfPath) == pdfPath
    {
    }

    /** Without overwrite, the output keeps the input's file name. */
    lemma OutputKeepsFileName(pdfPath: string)
      requires !overwrite
      ensures Basename(OutputPath(pdfPath)) == Basename(pdfPath)
    {
      BasenameIsLastComponent(pdfPath);
      BasenameOfJoin(outputDir, Basename(pdfPath));
    }

    /** When the output directory is the input directory (the default), a file
        the listing found there is written over itself, so the pipeline is
        asked for an incremental save, even without overwrite. */
    lemma DefaultOutputDirWritesInPlace(name: string)
      requires outputDir == inputDir && '/' !in name
      ensures OutputPath(Join(inputDir, name)) == Join(inputDir, name)
    {
      BasenameOfJoin(inputDir, name);
    }

    /** The specifications added before the configuration: the top band if
        enabled, the bottom band if enabled, then every custom pixel region in order. */
    lemma FixedOrder()
      ensures var fixed := FixedSpecs();
        var t := if excludeTop then 1 else 0;
        var b := if excludeBottom then 1 else 0;
        var custom := if customRegions.Some? then customRegions.value else [];
        && |fixed| == t + b + |custom|
        && (excludeTop ==> fixed[0] == Top(topPercentage))
        && (excludeBottom ==> fixed[t] == Bottom(bottomPercentage))
        && fixed[t + b..] == PixelSpecs(custom)
    {
      var top := if excludeTop then [Top(topPercentage)] else [];
      var bottom := if excludeBottom then [Bottom(bottomPercentage)] else [];
      var pixels := if customRegions.Some? then PixelSpecs(customRegions.value) else [];
      var fixed := FixedSpecs();
      var bands := top + bottom;
      assert fixed == bands + pixels;
      assert excludeTop ==> fixed[0] == bands[0] == Top(topPercentage);
      assert excludeBottom ==> fixed[|top|] == bands[|top|] == Bottom(bottomPercentage);
      assert fixed[|bands|..] == pixels;
    }

    /** The regions are assembled in a fixed order: the top band if enabled,
        the bottom band if enabled, every custom pixel region in order, then the
        regions the configuration gives for the file. */
    lemma AssemblyOrder(pdfPath: string)
      ensures var specs := AssembledSpecs(pdfPath).specs;
        var t := if excludeTop then 1 else 0;
        var b := if excludeBottom then 1 else 0;
        var custom := if customRegions.Some? then customRegions.value else [];
        && |specs| >= t + b + |custom|
        && (excludeTop ==> specs[0] == Top(topPercentage))
        && (excludeBottom ==> specs[t] == Bottom(bottomPercentage))
        && specs[t + b..t + b + |custom|] == PixelSpecs(custom)
        && specs[t + b + |custom|..] == ConfigPart(pdfPath).specs
    {
      var fixed := FixedSpecs();
      var specs := AssembledSpecs(pdfPath).specs;
      FixedOrder();
      assert specs[..|fixed|] == fixed;
      assert specs[|fixed|..] == ConfigPart(pdfPath).specs;
    }

    /** A file fails exactly when reading the configuration raises or the
        page pipeline raises. A configuration exception gives the line
        "path: message" with that exception's text, and so does a pipeline
        failure with its own message. Otherwise the result is success with
        the file's own path. */
    lemma FileOutcomeShape(pdfPath: string, pipeline: Job -> Outcome)
      ensures var r := FileOutcome(pdfPath, pipeline);
        var assembled := AssembledSpecs(pdfPath);
        && (r.success <==> assembled.error.None? && pipeline(JobFor(pdfPath, assembled.specs)).Pass?)
        && (r.success ==> r.detail == pdfPath)
        && (assembled.error.Some? ==> r.detail == pdfPath + ": " + ErrorMessage(assembled.error.value))
        && (assembled.error.None? && pipeline(JobFor(pdfPath, assembled.specs)).Fail? ==>
              r.detail == pdfPath + ": " + pipeline(JobFor(pdfPath, assembled.specs)).message)
    {
    }
  }

  /** The success count and the error list account for every result. */
  lemma {:induction false} SummaryBalance(results: seq<FileResult>)
    ensures SuccessCount(results) + |Errors(results)| == |results|
    decreases |results|
  {
    if |results| > 0 {
      SummaryBalance(results[..|results| - 1]);
    }
  }

  /** The success count is the number of successful results. */
  lemma {:induction false} SuccessCountCountsSuccesses(results: seq<FileResult>)
    ensures SuccessCount(results) == |FilterIndices(results, Succeeded)|
    decreases |results|
  {
    if |results| > 0 {
      SuccessCountCountsSuccesses(results[..|results| - 1]);
    }
  }

  /** The error list holds exactly the messages of the failed results, in order:
      its k-th line is the message of the k-th failed result. */
  lemma {:induction false} ErrorsAreFailureMessages(results: seq<FileResult>)
    ensures var failed := FilterIndices(results, Failed);
      && |Errors(results)| == |failed|
      && forall k :: 0 <= k < |failed| ==> Errors(results)[k] == results[failed[k]].detail
    decreases |results|
  {
    if |results| > 0 {
      var prefix := results[..|results| - 1];
      ErrorsAreFailureMessages(prefix);
      var failed := FilterIndices(prefix, Failed);
      assert forall k :: 0 <= k < |failed| ==> results[failed[k]] == prefix[failed[k]];
    }
  }
}
