/**
 * The labels `extractPFAFText` looks up, the selectors `safeExtractText`
 * reads and the section titles `extractSectionContent` follows, shared by
 * both versions of `extractPlantDetails`. They are named so that proofs
 * about the extracted object need not unfold the texts.
 */
module PlantLabels {
  const CommonNameLabel: string := "Common Name"
  const FamilyLabel: string := "Family"
  const UsdaHardinessLabel: string := "USDA hardiness"
  const KnownHazardsLabel: string := "Known Hazards"
  const HabitatsLabel: string := "Habitats"
  const RangeLabel: string := "Range"
  const HeightLabel: string := "Height"
  const HeightSpacedLabel: string := "Height "
  const WidthLabel: string := "Width"
  const WidthSpacedLabel: string := "Width "
  const GrowthRateLabel: string := "Growth rate"
  const GrowthRateCapitalLabel: string := "Growth Rate"
  const GrowthLabel: string := "Growth"
  const EdibilityRatingLabel: string := "Edibility Rating"
  const EdibilityLabel: string := "Edibility"
  const OtherUsesRatingLabel: string := "Other Uses Rating"
  const OtherUsesLabel: string := "Other Uses"
  const WeedPotentialLabel: string := "Weed Potential"
  const MedicinalRatingLabel: string := "Medicinal Rating"
  const MedicinalLabel: string := "Medicinal"
  const PlantHabitatsLabel: string := "Plant Habitats"
  const OtherNamesLabel: string := "Other Names"
  const NativeRangeLabel: string := "Native Range"
  const WeedPotentialTextLabel: string := "Weed Potential Text"
  const ConservationStatusLabel: string := "Conservation Status"
  const PollinatorsLabel: string := "Pollinators"
  const SoilLabel: string := "Soil"
  const LightLabel: string := "Light"
  const MoistureLabel: string := "Moisture"
  const PHLabel: string := "pH"
  const WindLabel: string := "Wind"
  const PhysicalSelector: string := "#physical_characteristics p"
  const MetaDescriptionSelector: string := "meta[name=\"description\"]"
  const TitleSelector: string := "title"
  const MetaKeywordsSelector: string := "meta[name=\"keywords\"]"
  const DescriptionSelector: string := "#description"
  const EdibleUsesTitle: string := "Edible Uses"
  const MedicinalUsesTitle: string := "Medicinal Uses"
  const SpecialUsesTitle: string := "Special Uses"
  const CultivationDetailsTitle: string := "Cultivation details"
  const PropagationTitle: string := "Propagation"

  /** The selectors the `config/` version of `extractPlantDetails` reads the sections from. */
  const EdibleUsesSelector: string := "#edible_uses p"
  const MedicinalUsesSelector: string := "#medicinal_uses p"
  const OtherUsesSelector: string := "#other_uses p"
  const SpecialUsesSelector: string := "#special_uses p"
  const CultivationDetailsSelector: string := "#cultivation_details p"
  const PropagationSelector: string := "#propagation p"
}
