/**
 * The FeatureMetric family: the four concrete metrics and the column
 * identifiers they report.
 */
module Features {

  import NumberLinesFeature
  import HalsteadVolumeFeature
  import TokenEntropyFeature
  import CyclomaticComplexityFeature

  /** The concrete subclasses of FeatureMetric. */
  datatype FeatureMetric = NumberLines | HalsteadVolume | TokenEntropy | CyclomaticComplexity

  /** getIdentifier, dispatched to the concrete metric. */
  function Identifier(m: FeatureMetric): (id: string)
    ensures |id| > 0
    ensures forall i :: 0 <= i < |id| ==> id[i] != ','
  {
    match m
    case NumberLines => NumberLinesFeature.GetIdentifier()
    case HalsteadVolume => HalsteadVolumeFeature.GetIdentifier()
    case TokenEntropy => TokenEntropyFeature.GetIdentifier()
    case CyclomaticComplexity => CyclomaticComplexityFeature.GetIdentifier()
  }

  /**
   * The identifier is unique to its metric, non-empty, and free of the CSV
   * separator, so it can head a column of its own.
   */
  lemma IdentifierIsColumnName(m: FeatureMetric, other: FeatureMetric)
    ensures Identifier(m) == Identifier(other) <==> m == other
    ensures |Identifier(m)| > 0
    ensures ',' !in Identifier(m)
  {
  }
}
