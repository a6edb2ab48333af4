/**
 * `extractPlantDetails`, `extractImages`, `savePlantDetailsToDB` and
 * `calculateAnalysisResult` of `config/analyze_plant_details.js`, the earlier
 * analyser: sections read from `#… p` selectors, images from
 * `.plant-images img`, no keywords, 29 saved columns.
 */
module ConfigAnalyzePlantDetails {
  import opened Text
  import opened PlantPage
  import AnalyzePlantDetails
  import opened PlantLabels

  /** The attributes one `.plant-images img` gives, and the text of its container's caption. */
  datatype RawImage = RawImage(src: Option<string>, alt: Option<string>, title: Option<string>, caption: string)

  datatype ImageRecord = ImageRecord(url: Option<string>, alt: Option<string>, title: Option<string>, caption: Option<string>)

  function ImageOf(r: RawImage): ImageRecord {
    ImageRecord(Attr(r.src), Attr(r.alt), Attr(r.title), Attr(Some(r.caption)))
  }

  predicate ImageHasData(i: ImageRecord) { SomeValue([i.url, i.alt, i.title, i.caption]) }

  /** `extractImages($)`: one record per image, kept when one of its values is not null. */
  method ExtractImages(items: seq<RawImage>) returns (images: seq<ImageRecord>)
    ensures images == Filled(items, ImageOf, ImageHasData)
  {
    images := KeepFilled(items, ImageOf, ImageHasData);
  }

  /** An image is dropped exactly when its source, alt text, title and caption are all blank. */
  lemma ImageKept(items: seq<RawImage>, r: RawImage)
    requires r in items
    ensures ImageOf(r) in Filled(items, ImageOf, ImageHasData) <==>
      Attr(r.src).Some? || Attr(r.alt).Some? || Attr(r.title).Some? || Attr(Some(r.caption)).Some?
  {
    var i :| 0 <= i < |items| && items[i] == r;
    var img := ImageOf(r);
    FilledMembers(items, ImageOf, ImageHasData, img);
    assert ImageOf(items[i]) == img;
    SomeOfFour(img.url, img.alt, img.title, img.caption);
  }

  lemma SomeOfFour(a: Option<string>, b: Option<string>, c: Option<string>, e: Option<string>)
    ensures SomeValue([a, b, c, e]) <==> a.Some? || b.Some? || c.Some? || e.Some?
  {
    var vs := [a, b, c, e];
    assert vs[0] == a && vs[1] == b && vs[2] == c && vs[3] == e;
  }

  /** What the selectors of this `extractPlantDetails` read from the parsed page. */
  datatype Page = Page(
    labelSite: string -> Option<LabelSite>,
    text: string -> string,
    synonymsText: string,
    relatedItems: seq<RawRelatedPlant>,
    imageItems: seq<RawImage>,
    careItems: seq<RawCareIcon>)

  /** The object this `extractPlantDetails` returns, its keys in the order they are written. */
  datatype Details = Details(
    latinName: string, commonName: Option<string>, family: Option<string>,
    usdaHardiness: Option<string>, knownHazards: Option<string>, habitats: Option<string>,
    range: Option<string>, height: Option<string>, width: Option<string>,
    growthRate: Option<string>, growthSpeed: Option<string>, edibilityRating: Option<string>,
    otherUsesRating: Option<string>, weedPotential: Option<string>, medicinalRating: Option<string>,
    physicalCharacteristics: Option<string>, synonyms: Option<string>, plantHabitats: Option<string>,
    edibleUses: Option<string>, medicinalUses: Option<string>, otherUses: Option<string>,
    specialUses: Option<string>, cultivationDetails: Option<string>, propagation: Option<string>,
    otherNames: Option<string>, nativeRange: Option<string>, weedPotentialText: Option<string>,
    conservationStatus: Option<string>, pollinators: Option<string>, metaDescription: Option<string>,
    pageTitle: Option<string>, description: Option<string>, soilPreferences: Option<string>,
    lightPreferences: Option<string>, moisturePreferences: Option<string>, phPreferences: Option<string>,
    windTolerance: Option<string>,
    relatedPlants: seq<RelatedPlant>, images: seq<ImageRecord>, careIcons: seq<CareIcon>)

  /**
   * `extractPlantDetails(html, latinName)` on the parsed page: every value
   * read from the page is null or trimmed and non-empty (all text values
   * but `latin_name`), the related-plant list is always empty (see
   * `ExtractRelatedPlants`), and the image and care-icon lists are those of
   * their extractors.
   */
  function PlantDetails(page: Page, latinName: string): (d: Details)
    ensures d.latinName == latinName
    ensures d.relatedPlants == []
    ensures d.images == Filled(page.imageItems, ImageOf, ImageHasData)
    ensures d.careIcons == Filled(page.careItems, CareIconOf, CareIconHasData)
    ensures ReadTidy(d)
  {
    var site, text := page.labelSite, page.text;
    ReadersTidy(site, text);
    AttrTidy(Some(page.synonymsText));
    RelatedPlantsAlwaysEmpty(page.relatedItems);
    Details(
      latinName, Pfaf(site, CommonNameLabel), Pfaf(site, FamilyLabel), Pfaf(site, UsdaHardinessLabel),
      Pfaf(site, KnownHazardsLabel), Pfaf(site, HabitatsLabel), Pfaf(site, RangeLabel),
      PfafEither(site, HeightLabel, HeightSpacedLabel), PfafEither(site, WidthLabel, WidthSpacedLabel),
      PfafEither(site, GrowthRateLabel, GrowthRateCapitalLabel), Pfaf(site, GrowthLabel),
      PfafEither(site, EdibilityRatingLabel, EdibilityLabel), PfafEither(site, OtherUsesRatingLabel, OtherUsesLabel),
      Pfaf(site, WeedPotentialLabel), PfafEither(site, MedicinalRatingLabel, MedicinalLabel),
      SafeText(text, PhysicalSelector), Attr(Some(page.synonymsText)), Pfaf(site, PlantHabitatsLabel),
      SafeText(text, EdibleUsesSelector), SafeText(text, MedicinalUsesSelector), SafeText(text, OtherUsesSelector),
      SafeText(text, SpecialUsesSelector), SafeText(text, CultivationDetailsSelector),
      SafeText(text, PropagationSelector),
      Pfaf(site, OtherNamesLabel), Pfaf(site, NativeRangeLabel), Pfaf(site, WeedPotentialTextLabel),
      Pfaf(site, ConservationStatusLabel), Pfaf(site, PollinatorsLabel),
      SafeText(text, MetaDescriptionSelector), SafeText(text, TitleSelector), SafeText(text, DescriptionSelector),
      Pfaf(site, SoilLabel), Pfaf(site, LightLabel), Pfaf(site, MoistureLabel), Pfaf(site, PHLabel),
      Pfaf(site, WindLabel),
      Filled(page.relatedItems, RelatedAsWritten, RelatedHasData),
      Filled(page.imageItems, ImageOf, ImageHasData),
      Filled(page.careItems, CareIconOf, CareIconHasData))
  }



  /** Every text value of the object but `latin_name` is tidy: null, or trimmed and non-empty. */
  predicate ReadTidy(d: Details) {
    && Tidy(d.commonName) && Tidy(d.family) && Tidy(d.usdaHardiness) && Tidy(d.knownHazards)
    && Tidy(d.habitats) && Tidy(d.range) && Tidy(d.height) && Tidy(d.width)
    && Tidy(d.growthRate) && Tidy(d.growthSpeed) && Tidy(d.edibilityRating) && Tidy(d.otherUsesRating)
    && Tidy(d.weedPotential) && Tidy(d.medicinalRating) && Tidy(d.physicalCharacteristics) && Tidy(d.synonyms)
    && Tidy(d.plantHabitats) && Tidy(d.edibleUses) && Tidy(d.medicinalUses) && Tidy(d.otherUses)
    && Tidy(d.specialUses) && Tidy(d.cultivationDetails) && Tidy(d.propagation) && Tidy(d.otherNames)
    && Tidy(d.nativeRange) && Tidy(d.weedPotentialText) && Tidy(d.conservationStatus) && Tidy(d.pollinators)
    && Tidy(d.metaDescription) && Tidy(d.pageTitle) && Tidy(d.description) && Tidy(d.soilPreferences)
    && Tidy(d.lightPreferences) && Tidy(d.moisturePreferences) && Tidy(d.phPreferences) && Tidy(d.windTolerance)
  }

  /** The text-valued keys, in order. */
  function TextValues(d: Details): (vs: seq<Option<string>>)
    ensures |vs| == 37
  {
    [Some(d.latinName), d.commonName, d.family, d.usdaHardiness, d.knownHazards, d.habitats,
     d.range, d.height, d.width, d.growthRate, d.growthSpeed, d.edibilityRating,
     d.otherUsesRating, d.weedPotential, d.medicinalRating, d.physicalCharacteristics, d.synonyms,
     d.plantHabitats, d.edibleUses, d.medicinalUses, d.otherUses, d.specialUses,
     d.cultivationDetails, d.propagation, d.otherNames, d.nativeRange, d.weedPotentialText,
     d.conservationStatus, d.pollinators, d.metaDescription, d.pageTitle, d.description,
     d.soilPreferences, d.lightPreferences, d.moisturePreferences, d.phPreferences, d.windTolerance]
  }

  /** The number of keys of the object, as `Object.keys` lists them. */
  const KeyCount := 40

  /** The value under each key, as the count sees it. */
  function Values(d: Details): (vs: seq<Value>)
    ensures |vs| == KeyCount
  {
    StoredValues(TextValues(d), |d.relatedPlants|, |d.images|, |d.careIcons|)
  }

  /** The number of columns the row has, which `total_fields` reports. */
  const TotalFields := 29

  /**
   * `calculateAnalysisResult(plantDetails)` as written: `total_fields` is 29,
   * but `extracted_fields` counts over every key of the object.
   */
  function CalculateAnalysisResult(d: Details): (r: AnalyzePlantDetails.AnalysisResult)
    ensures r.totalFields == TotalFields && r.extractedFields <= KeyCount
    ensures r.relatedPlantsCount == |d.relatedPlants| && r.imagesCount == |d.images|
    ensures r.careIconsCount == |d.careIcons|
  {
    AnalyzePlantDetails.AnalysisResult(TotalFields, CountExtracted(Values(d)),
      |d.relatedPlants|, |d.images|, |d.careIcons|)
  }

  /**
   * A page with every value found reports 39 fields extracted out of 29: all
   * keys but `related_plants`, which `extractPlantDetails` always leaves empty.
   */
  lemma CountExceedsTotal(d: Details)
    requires d.relatedPlants == []
    requires forall k :: 0 <= k < |Values(d)| && k != RelatedKey ==> Extracted(Values(d)[k])
    ensures CalculateAnalysisResult(d).extractedFields == 39 > CalculateAnalysisResult(d).totalFields
  {
    CountAllButOne(Values(d), RelatedKey);
  }

  /** The position of `related_plants` among the keys. */
  const RelatedKey := 37

  /** The 26 values of the object the `INSERT` saves as they are, in column order. */
  function SavedTexts(d: Details): (vs: seq<Option<string>>)
    ensures |vs| == 26
  {
    [Some(d.latinName), d.commonName, d.family, d.usdaHardiness, d.knownHazards, d.habitats,
     d.range, d.edibilityRating, d.otherUsesRating, d.weedPotential, d.medicinalRating,
     d.physicalCharacteristics, d.synonyms, d.plantHabitats, d.edibleUses, d.medicinalUses,
     d.otherUses, d.specialUses, d.cultivationDetails, d.propagation, d.otherNames,
     d.nativeRange, d.weedPotentialText, d.conservationStatus, d.metaDescription, d.pageTitle]
  }

  /** The `values` of the `INSERT`: those 26, then the three lists as JSON, or null when empty. */
  function SavedRow(d: Details, encodeRelated: seq<RelatedPlant> -> string,
                    encodeImages: seq<ImageRecord> -> string,
                    encodeCare: seq<CareIcon> -> string): (row: seq<Option<string>>)
    ensures |row| == TotalFields
  {
    StoredRow(SavedTexts(d), d.relatedPlants, encodeRelated, d.images, encodeImages, d.careIcons, encodeCare)
  }

  /** The values of the saved columns, as the count sees them. */
  function SavedValues(d: Details): (vs: seq<Value>)
    ensures |vs| == TotalFields
  {
    StoredValues(SavedTexts(d), |d.relatedPlants|, |d.images|, |d.careIcons|)
  }

  /** `calculateAnalysisResult` counting the saved columns that hold a value, never more than `total_fields`. */
  function CalculateSavedAnalysisResult(d: Details): (r: AnalyzePlantDetails.AnalysisResult)
    ensures r.totalFields == TotalFields && r.extractedFields <= r.totalFields
    ensures r.relatedPlantsCount == |d.relatedPlants| && r.imagesCount == |d.images|
    ensures r.careIconsCount == |d.careIcons|
  {
    AnalyzePlantDetails.AnalysisResult(TotalFields, CountExtracted(SavedValues(d)),
      |d.relatedPlants|, |d.images|, |d.careIcons|)
  }

  /** With every saved column filled the corrected count reaches the total, and no further. */
  lemma SavedCountReachesTotal(d: Details)
    requires forall k :: 0 <= k < TotalFields ==> Extracted(SavedValues(d)[k])
    ensures CalculateSavedAnalysisResult(d).extractedFields == TotalFields
  {
    CountAllExtracted(SavedValues(d));
  }
}
