/** Decorating the analysed rows with their cluster and its interpretation.

    After clustering, every row receives its cluster label, the centre hour of
    that cluster, and the classification of that centre hour: the likely region,
    the confidence and the two alternative regions. The table of rows is a
    sequence of records; the model builds the decorated sequence rather than
    adding columns to a frame in place.
 */
module Analyzer {

  import opened Classifier

  /** One row with the columns the analyzer adds. */
  datatype AnnotatedRecord<R> = AnnotatedRecord(
    record: R,
    cluster: nat,
    clusterHour: real,
    likelyRegion: string,
    confidence: real,
    alternativeRegions: seq<string>)

  /** The columns a row with cluster label `clusterLabel` receives. */
  predicate AnnotatedAs<R(==)>(a: AnnotatedRecord<R>, record: R, clusterLabel: nat, clusterHours: seq<real>)
    requires clusterLabel < |clusterHours|
  {
    && a.record == record
    && a.cluster == clusterLabel
    && a.clusterHour == clusterHours[clusterLabel]
    && Classification(a.likelyRegion, a.confidence, a.alternativeRegions) == Classify(clusterHours[clusterLabel])
  }

  /** Label every row, attach its cluster's centre hour, and interpret the
      cluster of every row in turn. */
  method Annotate<R(==)>(records: seq<R>, labels: seq<nat>, clusterHours: seq<real>)
    returns (annotated: seq<AnnotatedRecord<R>>)
    requires |labels| == |records|
    requires forall i | 0 <= i < |labels| :: labels[i] < |clusterHours|
    ensures |annotated| == |records|
    ensures forall i | 0 <= i < |records| :: AnnotatedAs(annotated[i], records[i], labels[i], clusterHours)
  {
    annotated := [];
    var i := 0;
    while i < |records|
      invariant 0 <= i <= |records|
      invariant |annotated| == i
      invariant forall k | 0 <= k < i :: AnnotatedAs(annotated[k], records[k], labels[k], clusterHours)
    {
      var clusterLabel := labels[i];
      var mainRegion, confidence, altRegions := InterpretCluster(clusterHours, clusterLabel);
      annotated := annotated + [AnnotatedRecord(records[i], clusterLabel, clusterHours[clusterLabel],
                                                mainRegion, confidence, altRegions)];
      i := i + 1;
    }
  }

  /** Rows of the same cluster carry the same interpretation, its confidence lies
      between 0.2 and 1, and it names two alternatives, neither of them the
      likely region, and different from each other. */
  lemma AnnotationConsistent<R>(a: AnnotatedRecord<R>, b: AnnotatedRecord<R>,
                                 x: R, y: R, clusterLabel: nat, clusterHours: seq<real>)
    requires clusterLabel < |clusterHours|
    requires AnnotatedAs(a, x, clusterLabel, clusterHours) && AnnotatedAs(b, y, clusterLabel, clusterHours)
    ensures a.clusterHour == b.clusterHour
    ensures a.likelyRegion == b.likelyRegion && a.confidence == b.confidence
    ensures a.alternativeRegions == b.alternativeRegions
    ensures 0.2 <= a.confidence <= 1.0
    ensures |a.alternativeRegions| == 2
    ensures a.likelyRegion !in a.alternativeRegions
    ensures a.alternativeRegions[0] != a.alternativeRegions[1]
  {
    ReportedNamesDistinct(clusterHours[clusterLabel]);
  }
}
