/**
 * `extractPlantDetails`, `savePlantDetailsToDB` and `calculateAnalysisResult`
 * of `analyze_plant_details.js`: the record built from one PFAF plant page,
 * the database row it is saved as, and the statistics stored beside it.
 */
module AnalyzePlantDetails {
  import opened Text
  import opened PlantPage
  import opened PlantSections
  import opened PlantImages
  import opened PlantKeywords
  import opened PlantLabels

  /**
   * What the selectors of `extractPlantDetails` read from the parsed page:
   * the label cell each `b:contains(label)` lands in, the text `$(selector)`
   * gives for a selector, the paragraph after the "Synonyms" heading, the
   * siblings after each `h2:contains(title)`, and the elements of the
   * related-plant, image and care-icon lists.
   */
  datatype Page = Page(
    labelSite: string -> Option<LabelSite>,
    text: string -> string,
    synonymsText: string,
    following: string -> Option<seq<Sibling>>,
    relatedItems: seq<RawRelatedPlant>,
    mainImageTags: seq<ImgTag>,
    otherImageTags: seq<ImgTag>,
    careItems: seq<RawCareIcon>)

  /** The object `extractPlantDetails` returns, its keys in the order they are written. */
  datatype Details = Details(
    latinName: string, commonName: Option<string>, family: Option<string>,
    usdaHardiness: Option<string>, knownHazards: Option<string>, habitats: Option<string>,
    range: Option<string>, height: Option<string>, width: Option<string>,
    growthRate: Option<string>, growthSpeed: Option<string>, edibilityRating: Option<string>,
    otherUsesRating: Option<string>, weedPotential: Option<string>, medicinalRating: Option<string>,
    physicalCharacteristics: Option<string>, synonyms: Option<string>, plantHabitats: Option<string>,
    edibleUses: Option<string>, medicinalUses: Option<string>, otherUses: Option<string>,
    specialUses: Option<string>, cultivationDetails: Option<string>, propagation: Option<string>,
    otherNames: Option<string>, nativeRange: Option<string>, weedPotentialText: Option<string>,
    conservationStatus: Option<string>, pollinators: Option<string>, metaDescription: Option<string>,
    pageTitle: Option<string>, metaKeywords: Option<string>, description: Option<string>,
    extractedKeywords: string, soilPreferences: Option<string>, lightPreferences: Option<string>,
    moisturePreferences: Option<string>, phPreferences: Option<string>, windTolerance: Option<string>,
    relatedPlants: seq<RelatedPlant>, images: seq<PlantImage>, careIcons: seq<CareIcon>)

  /** `extractPFAFText` for each of the keyword fields, in order. */
  function FieldValues(page: Page): (vs: seq<Option<string>>)
    ensures |vs| == |PlantFields|
  {
    seq(|PlantFields|, i requires 0 <= i < |PlantFields| => Pfaf(page.labelSite, PlantFields[i]))
  }

  /**
   * `extractPlantDetails(html, latinName)` on the parsed page: every value
   * read from the page is null or trimmed and non-empty (all text values
   * but `latin_name` and `extracted_keywords`), the related-plant list is
   * always empty (see `ExtractRelatedPlants`), and the image and care-icon
   * lists are those of their extractors.
   */
  function PlantDetails(page: Page, latinName: string): (d: Details)
    ensures d.latinName == latinName
    ensures d.relatedPlants == []
    ensures d.images == AllImages(page.mainImageTags, page.otherImageTags)
    ensures d.careIcons == Filled(page.careItems, CareIconOf, CareIconHasData)
    ensures ReadTidy(d)
  {
    var site, text := page.labelSite, page.text;
    ReadValuesTidy(page);
    RelatedPlantsAlwaysEmpty(page.relatedItems);
    Details(
      latinName, Pfaf(site, CommonNameLabel), Pfaf(site, FamilyLabel), Pfaf(site, UsdaHardinessLabel),
      Pfaf(site, KnownHazardsLabel), Pfaf(site, HabitatsLabel), Pfaf(site, RangeLabel),
      PfafEither(site, HeightLabel, HeightSpacedLabel), PfafEither(site, WidthLabel, WidthSpacedLabel),
      PfafEither(site, GrowthRateLabel, GrowthRateCapitalLabel), Pfaf(site, GrowthLabel),
      PfafEither(site, EdibilityRatingLabel, EdibilityLabel), PfafEither(site, OtherUsesRatingLabel, OtherUsesLabel),
      Pfaf(site, WeedPotentialLabel), PfafEither(site, MedicinalRatingLabel, MedicinalLabel),
      SafeText(text, PhysicalSelector), Attr(Some(page.synonymsText)), Pfaf(site, PlantHabitatsLabel),
      SectionContent(page.following(EdibleUsesTitle)), SectionContent(page.following(MedicinalUsesTitle)),
      SectionContent(page.following(OtherUsesLabel)), SectionContent(page.following(SpecialUsesTitle)),
      SectionContent(page.following(CultivationDetailsTitle)), SectionContent(page.following(PropagationTitle)),
      Pfaf(site, OtherNamesLabel), Pfaf(site, NativeRangeLabel), Pfaf(site, WeedPotentialTextLabel),
      Pfaf(site, ConservationStatusLabel), Pfaf(site, PollinatorsLabel),
      SafeText(text, MetaDescriptionSelector), SafeText(text, TitleSelector),
      SafeText(text, MetaKeywordsSelector), SafeText(text, DescriptionSelector),
      Keywords(SafeText(text, TitleSelector), Some(latinName), FieldValues(page)),
      Pfaf(site, SoilLabel), Pfaf(site, LightLabel), Pfaf(site, MoistureLabel), Pfaf(site, PHLabel),
      Pfaf(site, WindLabel),
      Filled(page.relatedItems, RelatedAsWritten, RelatedHasData),
      AllImages(page.mainImageTags, page.otherImageTags),
      Filled(page.careItems, CareIconOf, CareIconHasData))
  }



  /** The text-valued keys, in the order of `Keys`. */
  function TextValues(d: Details): (vs: seq<Option<string>>)
    ensures |vs| == 39
  {
    [Some(d.latinName), d.commonName, d.family, d.usdaHardiness, d.knownHazards, d.habitats,
     d.range, d.height, d.width, d.growthRate, d.growthSpeed, d.edibilityRating,
     d.otherUsesRating, d.weedPotential, d.medicinalRating, d.physicalCharacteristics, d.synonyms,
     d.plantHabitats, d.edibleUses, d.medicinalUses, d.otherUses, d.specialUses,
     d.cultivationDetails, d.propagation, d.otherNames, d.nativeRange, d.weedPotentialText,
     d.conservationStatus, d.pollinators, d.metaDescription, d.pageTitle, d.metaKeywords,
     d.description, Some(d.extractedKeywords), d.soilPreferences, d.lightPreferences,
     d.moisturePreferences, d.phPreferences, d.windTolerance]
  }

  /**
   * Every value of the record that is read from the page is tidy: the PFAF
   * lookups, their `||` fallbacks, the `safeExtractText` values with the
   * synonyms paragraph, and the section contents.
   */
  predicate ReadTidy(d: Details) {
    LookupsTidy(d) && FallbacksTidy(d) && SelectedTidy(d) && SectionsTidy(d)
  }

  predicate LookupsTidy(d: Details) {
    && Tidy(d.commonName) && Tidy(d.family) && Tidy(d.usdaHardiness) && Tidy(d.knownHazards)
    && Tidy(d.habitats) && Tidy(d.range) && Tidy(d.growthSpeed) && Tidy(d.weedPotential)
    && Tidy(d.plantHabitats) && Tidy(d.otherNames) && Tidy(d.nativeRange) && Tidy(d.weedPotentialText)
    && Tidy(d.conservationStatus) && Tidy(d.pollinators) && Tidy(d.soilPreferences)
    && Tidy(d.lightPreferences) && Tidy(d.moisturePreferences) && Tidy(d.phPreferences) && Tidy(d.windTolerance)
  }

  predicate FallbacksTidy(d: Details) {
    && Tidy(d.height) && Tidy(d.width) && Tidy(d.growthRate) && Tidy(d.edibilityRating)
    && Tidy(d.otherUsesRating) && Tidy(d.medicinalRating)
  }

  predicate SelectedTidy(d: Details) {
    && Tidy(d.physicalCharacteristics) && Tidy(d.synonyms) && Tidy(d.metaDescription)
    && Tidy(d.pageTitle) && Tidy(d.metaKeywords) && Tidy(d.description)
  }

  predicate SectionsTidy(d: Details) {
    && Tidy(d.edibleUses) && Tidy(d.medicinalUses) && Tidy(d.otherUses) && Tidy(d.specialUses)
    && Tidy(d.cultivationDetails) && Tidy(d.propagation)
  }

  /**
   * Every value the page is read for is null or trimmed and non-empty:
   * those of `extractPFAFText`, of its `||` fallbacks, of `safeExtractText`,
   * the synonyms paragraph and the section contents. Only `latin_name`,
   * copied from the caller, and `extracted_keywords`, which is `''` when there
   * are none, are not read that way.
   */
  lemma ReadValuesTidy(page: Page)
    ensures forall l :: Tidy(Pfaf(page.labelSite, l))
    ensures forall a, b :: Tidy(PfafEither(page.labelSite, a, b))
    ensures forall sel :: Tidy(SafeText(page.text, sel))
    ensures Tidy(Attr(Some(page.synonymsText)))
    ensures forall title :: Tidy(SectionContent(page.following(title)))
  {
    ReadersTidy(page.labelSite, page.text);
    AttrTidy(Some(page.synonymsText));
    forall title ensures Tidy(SectionContent(page.following(title))) {
      SectionContentTrimmed(page.following(title));
    }
  }

  /** The keys of the object, as `Object.keys` lists them. */
  const Keys: seq<string> := [
    "latin_name", "common_name", "family", "usda_hardiness", "known_hazards", "habitats",
    "range", "height", "width", "growth_rate", "growth_speed", "edibility_rating",
    "other_uses_rating", "weed_potential", "medicinal_rating", "physical_characteristics", "synonyms",
    "plant_habitats", "edible_uses", "medicinal_uses", "other_uses", "special_uses",
    "cultivation_details", "propagation", "other_names", "native_range", "weed_potential_text",
    "conservation_status", "pollinators", "meta_description", "page_title", "meta_keywords",
    "description", "extracted_keywords", "soil_preferences", "light_preferences",
    "moisture_preferences", "ph_preferences", "wind_tolerance",
    "related_plants", "images", "care_icons"]

  /** The value under each key, as the count sees it. */
  function Values(d: Details): (vs: seq<Value>)
    ensures |vs| == |Keys|
  {
    StoredValues(TextValues(d), |d.relatedPlants|, |d.images|, |d.careIcons|)
  }

  datatype AnalysisResult = AnalysisResult(
    totalFields: nat, extractedFields: nat,
    relatedPlantsCount: nat, imagesCount: nat, careIconsCount: nat)

  /** The number of columns the row has, which `total_fields` reports. */
  const TotalFields := 31

  /**
   * `calculateAnalysisResult(plantDetails)` as written: `total_fields` is 31,
   * but `extracted_fields` counts over every key of the object.
   */
  function CalculateAnalysisResult(d: Details): (r: AnalysisResult)
    ensures r.totalFields == TotalFields && r.extractedFields <= |Keys|
    ensures r.relatedPlantsCount == |d.relatedPlants| && r.imagesCount == |d.images|
    ensures r.careIconsCount == |d.careIcons|
  {
    AnalysisResult(TotalFields, CountExtracted(Values(d)),
      |d.relatedPlants|, |d.images|, |d.careIcons|)
  }

  /**
   * A page with every value found reports 41 fields extracted out of 31: all
   * keys but `related_plants`, which `extractPlantDetails` always leaves empty.
   */
  lemma CountExceedsTotal(d: Details)
    requires d.relatedPlants == []
    requires forall k :: 0 <= k < |Values(d)| && k != RelatedKey ==> Extracted(Values(d)[k])
    ensures CalculateAnalysisResult(d).extractedFields == 41 > CalculateAnalysisResult(d).totalFields
  {
    CountAllButOne(Values(d), RelatedKey);
  }

  /** The position of `related_plants` among the keys. */
  const RelatedKey := 39

  /** The keyword string is `''` when no keyword was found, and then it is not counted. */
  lemma NoKeywordsNotCounted(d: Details)
    requires d.extractedKeywords == ""
    ensures !Extracted(Values(d)[33])
  {
  }

  /** The 28 values of the object the `INSERT` saves as they are, in column order. */
  function SavedTexts(d: Details): (vs: seq<Option<string>>)
    ensures |vs| == 28
  {
    [Some(d.latinName), d.commonName, d.family, d.usdaHardiness, d.knownHazards, d.habitats,
     d.range, d.edibilityRating, d.otherUsesRating, d.weedPotential, d.medicinalRating,
     d.physicalCharacteristics, d.synonyms, d.plantHabitats, d.edibleUses, d.medicinalUses,
     d.otherUses, d.specialUses, d.cultivationDetails, d.propagation, d.otherNames,
     d.nativeRange, d.weedPotentialText, d.conservationStatus, d.metaDescription, d.pageTitle,
     d.metaKeywords, Some(d.extractedKeywords)]
  }

  /** The `values` of the `INSERT`: those 28, then the three lists as JSON, or null when empty. */
  function SavedRow(d: Details, encodeRelated: seq<RelatedPlant> -> string,
                    encodeImages: seq<PlantImage> -> string,
                    encodeCare: seq<CareIcon> -> string): (row: seq<Option<string>>)
    ensures |row| == TotalFields
  {
    StoredRow(SavedTexts(d), d.relatedPlants, encodeRelated, d.images, encodeImages, d.careIcons, encodeCare)
  }

  /** The values of the saved columns, as the count sees them. */
  function SavedValues(d: Details): (vs: seq<Value>)
    ensures |vs| == TotalFields
  {
    StoredValues(SavedTexts(d), |d.relatedPlants|, |d.images|, |d.careIcons|)
  }

  /**
   * `calculateAnalysisResult` counting what it evidently means to: the
   * saved columns that hold a value, never more than `total_fields`.
   */
  function CalculateSavedAnalysisResult(d: Details): (r: AnalysisResult)
    ensures r.totalFields == TotalFields && r.extractedFields <= r.totalFields
    ensures r.relatedPlantsCount == |d.relatedPlants| && r.imagesCount == |d.images|
    ensures r.careIconsCount == |d.careIcons|
  {
    AnalysisResult(TotalFields, CountExtracted(SavedValues(d)),
      |d.relatedPlants|, |d.images|, |d.careIcons|)
  }

  /** With every saved column filled the corrected count reaches the total, and no further. */
  lemma SavedCountReachesTotal(d: Details)
    requires forall k :: 0 <= k < TotalFields ==> Extracted(SavedValues(d)[k])
    ensures CalculateSavedAnalysisResult(d).extractedFields == TotalFields
  {
    CountAllExtracted(SavedValues(d));
  }
}
