/** Placing the recognised text over each page as an invisible, searchable
    layer, and choosing how the document is saved. Rasterising, opening,
    recognising and saving are done by libraries outside the model: their
    results come in as parameters, and `insert_text` appends a record to the
    page's insertion log. */
module PdfProcessing {
  import opened Common
  import opened Regions

  /** Python's `str.isspace` for one character. */
  predicate IsSpace(c: char) {
    || ('\U{0009}' <= c <= '\U{000D}') || ('\U{001C}' <= c <= '\U{0020}')
    || c == '\U{0085}' || c == '\U{00A0}' || c == '\U{1680}'
    || ('\U{2000}' <= c <= '\U{200A}') || c == '\U{2028}' || c == '\U{2029}'
    || c == '\U{202F}' || c == '\U{205F}' || c == '\U{3000}'
  }

  function StripLeading(s: string): string {
    if |s| > 0 && IsSpace(s[0]) then StripLeading(s[1..]) else s
  }

  function StripTrailing(s: string): string {
    if |s| > 0 && IsSpace(s[|s| - 1]) then StripTrailing(s[..|s| - 1]) else s
  }

  /** `str.strip()`: the string without leading and trailing whitespace. */
  function Strip(s: string): string {
    StripTrailing(StripLeading(s))
  }

  /** One recognised word: its text and its pixel box in the page image. */
  datatype Token = Token(text: string, left: int, top: int, width: int, height: int)

  /** A token whose stripped text is non-empty. */
  predicate IsVisible(t: Token) {
    Strip(t.text) != ""
  }

  type Colour = (int, int, int, int)

  /** Fully transparent RGBA. */
  const Transparent: Colour := (0, 0, 0, 0)

  /** One `insert_text` call: position, text, font size and colour. */
  datatype Insertion = Insertion(x: real, y: real, text: string, fontSize: real, colour: Colour)

  /** Points per inch of the PDF coordinate space. */
  const PointsPerInch: real := 72.0

  const DefaultDpi: nat := 300

  /** The insertion for one token: its box scaled from the image's dpi to points. */
  function Place(t: Token, dpi: nat): Insertion
    requires dpi > 0
  {
    var scale := PointsPerInch / dpi as real;
    var x, y, w, h := t.left as real * scale, t.top as real * scale,
                      t.width as real * scale, t.height as real * scale;
    Insertion(x, y, t.text, h, Transparent)
  }

  /** The insertions for a page's tokens, in token order. */
  function TextLayer(tokens: seq<Token>, dpi: nat): seq<Insertion>
    requires dpi > 0
  {
    if |tokens| == 0 then []
    else
      var last := tokens[|tokens| - 1];
      TextLayer(tokens[..|tokens| - 1], dpi) + (if IsVisible(last) then [Place(last, dpi)] else [])
  }

  /** A rasterised page: its pixel size and its (uninterpreted) pixels. */
  datatype PageImage = PageImage(width: nat, height: nat, pixels: seq<int>)

  /** A page of the open document; `insertions` logs the text placed on it. */
  class Page {
    var insertions: seq<Insertion>

    constructor()
      ensures insertions == []
    {
      insertions := [];
    }
  }

  /** The open document: its pages in order. */
  class Document {
    const pages: seq<Page>

    constructor(pages: seq<Page>)
      ensures this.pages == pages
    {
      this.pages := pages;
    }

    /** No page object occurs twice. */
    predicate Valid() {
      forall i, j :: 0 <= i < j < |pages| ==> pages[i] != pages[j]
    }
  }

  /** How the document is written back: incrementally with its encryption
      kept, or as a complete new file. */
  datatype SaveMode = IncrementalKeepEncryption | FullSave

  datatype SaveRequest = SaveRequest(path: string, mode: SaveMode)

  /** The regions handed to the recogniser for a page image: none without a
      selector, otherwise the selector's rectangles for that image's size. */
  function PageRegions(specs: Option<seq<ExclusionSpec>>, image: PageImage): Option<seq<Rect>> {
    match specs
    case None => None
    case Some(s) => Some(ResolveAll(s, image.width, image.height))
  }

  class PdfProcessor {
    const inputPdf: string
    const outputPdf: string
    const language: string

    constructor(inputPdf: string, outputPdf: Option<string> := None, language: string := "jpn")
      ensures this.inputPdf == inputPdf && this.language == language
      ensures this.outputPdf == NonEmptyOr(outputPdf, inputPdf)
    {
      this.inputPdf := inputPdf;
      this.outputPdf := NonEmptyOr(outputPdf, inputPdf);
      this.language := language;
    }

    /** Adds one invisible insertion per visible token to `page`, in token order. */
    method AddTextLayer(page: Page, ocrData: seq<Token>, dpi: nat)
      requires dpi > 0
      modifies page
      ensures page.insertions == old(page.insertions) + TextLayer(ocrData, dpi)
    {
      var i := 0;
      while i < |ocrData|
        invariant 0 <= i <= |ocrData|
        invariant page.insertions == old(page.insertions) + TextLayer(ocrData[..i], dpi)
      {
        assert ocrData[..i + 1][..i] == ocrData[..i];
        if Strip(ocrData[i].text) != "" {
          var x, y, w, h := ocrData[i].left as real, ocrData[i].top as real,
                            ocrData[i].width as real, ocrData[i].height as real;
          var scale := PointsPerInch / dpi as real;
          x, y, w, h := x * scale, y * scale, w * scale, h * scale;
          var insertion := Insertion(x, y, ocrData[i].text, h, Transparent);
          assert insertion == Place(ocrData[i], dpi);
          page.insertions := page.insertions + [insertion];
        }
        i := i + 1;
      }
      assert ocrData[..i] == ocrData;
    }

    /** Processes every page: page `i` gets the text recognised on image `i`,
        masked with the selector's rectangles for that image's own size; then
        the save mode is chosen. `recognise` stands for the recognition engine
        (masking a copy of the image, then running the recogniser). */
    method Process(doc: Document, images: seq<PageImage>, excludeRegions: RegionSelector?,
                   recognise: (PageImage, Option<seq<Rect>>) -> seq<Token>, dpi: nat := DefaultDpi)
      returns (save: SaveRequest)
      requires doc.Valid() && |images| == |doc.pages|
      requires dpi > 0
      modifies set p | p in doc.pages
      ensures forall i :: 0 <= i < |doc.pages| ==>
        doc.pages[i].insertions == old(doc.pages[i].insertions)
          + TextLayer(recognise(images[i],
              PageRegions(if excludeRegions == null then None else Some(excludeRegions.excludeRegions), images[i])), dpi)
      ensures save.path == outputPdf
      ensures save.mode == IncrementalKeepEncryption <==> inputPdf == outputPdf
    {
      ghost var specs := if excludeRegions == null then None else Some(excludeRegions.excludeRegions);
      var pageNum := 0;
      while pageNum < |images|
        invariant 0 <= pageNum <= |images|
        invariant specs == if excludeRegions == null then None else Some(excludeRegions.excludeRegions)
        invariant forall i :: 0 <= i < pageNum ==>
          doc.pages[i].insertions == old(doc.pages[i].insertions)
            + TextLayer(recognise(images[i], PageRegions(specs, images[i])), dpi)
        invariant forall i :: pageNum <= i < |doc.pages| ==>
          doc.pages[i].insertions == old(doc.pages[i].insertions)
      {
        var pageImage := images[pageNum];
        var page := doc.pages[pageNum];
        var pageRegions: Option<seq<Rect>> := None;
        if excludeRegions != null {
          var regions := excludeRegions.GetExcludeRegionsForPage(pageImage.width, pageImage.height);
          pageRegions := Some(regions);
        }
        var ocrData := recognise(pageImage, pageRegions);
        AddTextLayer(page, ocrData, dpi);
        pageNum := pageNum + 1;
      }
      if inputPdf == outputPdf {
        save := SaveRequest(outputPdf, IncrementalKeepEncryption);
      } else {
        save := SaveRequest(outputPdf, FullSave);
      }
    }
  }

  lemma {:induction false} StripLeadingEmpty(s: string)
    ensures StripLeading(s) == "" <==> forall i :: 0 <= i < |s| ==> IsSpace(s[i])
    decreases |s|
  {
    if |s| > 0 && IsSpace(s[0]) {
      StripLeadingEmpty(s[1..]);
      assert forall i :: 1 <= i < |s| ==> s[1..][i - 1] == s[i];
    }
  }

  /** Stripping trailing whitespace keeps a non-whitespace first character. */
  lemma {:induction false} StripTrailingKeepsHead(s: string)
    requires |s| > 0 && !IsSpace(s[0])
    ensures StripTrailing(s) != ""
    decreases |s|
  {
    if IsSpace(s[|s| - 1]) {
      StripTrailingKeepsHead(s[..|s| - 1]);
    }
  }

  /** A text strips to the empty string exactly when every character is whitespace. */
  lemma StripEmptyIffAllSpace(s: string)
    ensures Strip(s) == "" <==> forall i :: 0 <= i < |s| ==> IsSpace(s[i])
  {
    StripLeadingEmpty(s);
    var t := StripLeading(s);
    if t != "" {
      assert !IsSpace(t[0]) by { NonEmptyStripLeadingHead(s); }
      StripTrailingKeepsHead(t);
    }
  }

  lemma {:induction false} NonEmptyStripLeadingHead(s: string)
    requires StripLeading(s) != ""
    ensures !IsSpace(StripLeading(s)[0])
    decreases |s|
  {
    if |s| > 0 && IsSpace(s[0]) {
      NonEmptyStripLeadingHead(s[1..]);
    }
  }

  /** One insertion per visible token, in token order: the k-th insertion is
      the placement of the k-th visible token. */
  lemma {:induction false} TextLayerMatchesVisibleTokens(tokens: seq<Token>, dpi: nat)
    requires dpi > 0
    ensures var visible := FilterIndices(tokens, IsVisible);
      && |TextLayer(tokens, dpi)| == |visible|
      && forall k :: 0 <= k < |visible| ==> TextLayer(tokens, dpi)[k] == Place(tokens[visible[k]], dpi)
    decreases |tokens|
  {
    if |tokens| > 0 {
      var prefix := tokens[..|tokens| - 1];
      TextLayerMatchesVisibleTokens(prefix, dpi);
      var visible := FilterIndices(prefix, IsVisible);
      assert forall k :: 0 <= k < |visible| ==> tokens[visible[k]] == prefix[visible[k]];
    }
  }

  /** Every insertion is transparent and carries a visible token's original,
      unstripped text. */
  lemma {:induction false} TextLayerTransparent(tokens: seq<Token>, dpi: nat)
    requires dpi > 0
    ensures forall ins :: ins in TextLayer(tokens, dpi) ==>
      ins.colour == Transparent && exists t :: t in tokens && IsVisible(t) && ins.text == t.text
    decreases |tokens|
  {
    if |tokens| > 0 {
      TextLayerTransparent(tokens[..|tokens| - 1], dpi);
      assert forall t :: t in tokens[..|tokens| - 1] ==> t in tokens;
    }
  }

  /** A token whose text is all whitespace adds nothing to the layer. */
  lemma BlankTokenAddsNothing(tokens: seq<Token>, t: Token, dpi: nat)
    requires dpi > 0
    requires forall i :: 0 <= i < |t.text| ==> IsSpace(t.text[i])
    ensures TextLayer(tokens + [t], dpi) == TextLayer(tokens, dpi)
  {
    StripEmptyIffAllSpace(t.text);
    assert (tokens + [t])[..|tokens|] == tokens;
  }

  /** The placement is the pixel box scaled by 72 / dpi, and scaling back by
      dpi / 72 recovers the pixel box. */
  lemma PlaceScalesBox(t: Token, dpi: nat)
    requires dpi > 0
    ensures var ins := Place(t, dpi);
      && ins.x == t.left as real * 72.0 / dpi as real
      && ins.y == t.top as real * 72.0 / dpi as real
      && ins.fontSize == t.height as real * 72.0 / dpi as real
      && ins.x * dpi as real / 72.0 == t.left as real
      && ins.y * dpi as real / 72.0 == t.top as real
      && ins.fontSize * dpi as real / 72.0 == t.height as real
      && ins.text == t.text && ins.colour == (0, 0, 0, 0)
  {
    var d := dpi as real;
    var scale := 72.0 / d;
    assert scale * d == 72.0;
    assert t.left as real * scale * d == t.left as real * 72.0;
    assert t.top as real * scale * d == t.top as real * 72.0;
    assert t.height as real * scale * d == t.height as real * 72.0;
  }

  /** At 300 dpi a token at pixel (100, 200) with height 60 is placed at (24, 48) in 14.4 point type. */
  lemma PlaceExample()
    ensures Place(Token("AB", 100, 200, 30, 60), 300) == Insertion(24.0, 48.0, "AB", 14.4, Transparent)
  {
  }
}
