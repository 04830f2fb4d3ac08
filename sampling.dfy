/**
 * Rejection sampling of a negative model: starting from the true model id,
 * keep drawing a model from the catalog, uniformly at a random index, until
 * the drawn model is not one of the query's positives.
 *
 * The random number generator becomes a finite sequence of supplied draws,
 * each an index into the catalog; running out of draws stands for the
 * generator being asked for more than was supplied (the source's loop has no
 * bound).
 */
module NegativeSampling {
  import opened Tables

  datatype Sample =
    | Negative(id: ModelId)   // the loop exited with this model id
    | EmptyRange              // a draw was needed from an empty catalog: randint(0, -1) raises ValueError
    | OutOfDraws              // the supplied draws were used up while the current id was still positive

  /** Every draw is a valid catalog index, as randint(0, n - 1) guarantees. */
  predicate DrawsFit(draws: seq<nat>, n: nat)
  {
    forall k :: 0 <= k < |draws| ==> draws[k] < n
  }

  /** The outcome of the selection loop started with `current` and fed `draws` in order. */
  function RejectionSample(positives: set<ModelId>, current: ModelId, catalog: seq<ModelId>, draws: seq<nat>): (r: Sample)
    requires DrawsFit(draws, |catalog|)
    ensures r.Negative? ==> r.id !in positives
    ensures r.Negative? ==> r.id == current || exists k :: 0 <= k < |draws| && r.id == catalog[draws[k]]
    ensures r == Negative(current) <==> current !in positives
    ensures r == EmptyRange <==> current in positives && |catalog| == 0
    decreases |draws|
  {
    if current !in positives then Negative(current)
    else if |catalog| == 0 then EmptyRange
    else if draws == [] then OutOfDraws
    else RejectionSample(positives, catalog[draws[0]], catalog, draws[1..])
  }

  /**
   * When the true id is positive, the result is the catalog entry at the first
   * draw whose entry is not positive: every replacement comes from the
   * catalog, at one of the supplied indices.
   */
  lemma {:induction false} SampleIsFirstAcceptedDraw(positives: set<ModelId>, current: ModelId, catalog: seq<ModelId>, draws: seq<nat>, k: nat)
    requires DrawsFit(draws, |catalog|)
    requires current in positives
    requires k < |draws|
    requires catalog[draws[k]] !in positives
    requires forall j :: 0 <= j < k ==> catalog[draws[j]] in positives
    ensures RejectionSample(positives, current, catalog, draws) == Negative(catalog[draws[k]])
    decreases k
  {
    if k > 0 {
      SampleIsFirstAcceptedDraw(positives, catalog[draws[0]], catalog, draws[1..], k - 1);
    }
  }

  /**
   * A query whose positives cover the whole (non-empty) catalog never gets a
   * negative, however many draws are supplied: the source's loop does not end.
   * It follows from the contract of RejectionSample: every candidate it could
   * return is a catalog entry or the starting id, all of them positives.
   */
  lemma CoveredCatalogNeverYieldsNegative(positives: set<ModelId>, current: ModelId, catalog: seq<ModelId>, draws: seq<nat>)
    requires DrawsFit(draws, |catalog|)
    requires current in positives && |catalog| > 0
    requires forall c :: c in catalog ==> c in positives
    ensures RejectionSample(positives, current, catalog, draws) == OutOfDraws
  {
  }
}
