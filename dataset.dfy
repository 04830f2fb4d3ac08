/**
 * TextPointCloudDataset: pairs text queries with 3D models and hands out
 * training triplets (query, matching model, non-matching model).
 *
 * The model keeps the bookkeeping of the dataset: the parsed tables, the
 * query-text dictionary, the query-to-models association index built from the
 * train table, the stage-dependent size, and the choice of ids in item
 * retrieval. Text tokenisation and point-cloud loading, which turn those ids
 * into tensors, are not modelled.
 */
module TextPcDataset {
  import opened Wrappers
  import opened Tables
  import opened NegativeSampling

  /** The ids (and text) an item is assembled from, in place of its tensors. */
  datatype Example = Example(queryId: QueryId, text: Text, trueId: ModelId, falseId: ModelId)

  /** The exceptions item retrieval can raise. */
  datatype ItemError =
    | IndexOutOfRange            // IndexError: the index is outside the active table
    | QueryNotIndexed(q: QueryId) // KeyError: the query has no row in the train table
    | EmptyRandRange             // ValueError: a draw was needed from an empty catalog
    | DrawsExhausted             // the supplied randomness ran out before a negative was found
    | QueryTextMissing(q: QueryId) // KeyError: the query has no text

  const TrainStage: string := "train"

  class TextPointCloudDataset {
    const stage: string
    const groundTruthCsv: seq<GtRow>
    const validationGroundTruthCsv: seq<GtRow>
    const textQueriesCsv: seq<QueryText>

    const pointCloudIdsList: seq<ModelId>
    const textQueriesMapping: map<QueryId, Text>
    const textQueriesList: seq<QueryId>
    const pointCloudList: seq<ModelId>
    const validationTextQueriesList: seq<QueryId>
    const validationPointCloudList: seq<ModelId>

    var queriesModelMapping: map<QueryId, set<ModelId>>

    /** The derived fields agree with the tables they come from. */
    ghost predicate Valid()
      reads this
    {
      && textQueriesMapping == TextMapping(textQueriesCsv)
      && textQueriesList == QueryColumn(groundTruthCsv)
      && pointCloudList == ModelColumn(groundTruthCsv)
      && validationTextQueriesList == QueryColumn(validationGroundTruthCsv)
      && validationPointCloudList == ModelColumn(validationGroundTruthCsv)
      && queriesModelMapping == Associations(groundTruthCsv)
    }

    /**
     * Takes the four parsed tables and the stage name. The association index is
     * built from the train table only, whatever the stage.
     */
    constructor (stage: string, groundTruthCsv: seq<GtRow>, validationGroundTruthCsv: seq<GtRow>,
                 textQueriesCsv: seq<QueryText>, pointCloudIdsList: seq<ModelId>)
      ensures Valid()
      ensures this.stage == stage && this.pointCloudIdsList == pointCloudIdsList
      ensures this.groundTruthCsv == groundTruthCsv && this.validationGroundTruthCsv == validationGroundTruthCsv
      ensures this.textQueriesCsv == textQueriesCsv
      ensures queriesModelMapping == Associations(groundTruthCsv)
    {
      this.stage := stage;
      this.groundTruthCsv := groundTruthCsv;
      this.validationGroundTruthCsv := validationGroundTruthCsv;
      this.textQueriesCsv := textQueriesCsv;
      this.pointCloudIdsList := pointCloudIdsList;
      this.textQueriesMapping := TextMapping(textQueriesCsv);
      this.textQueriesList := QueryColumn(groundTruthCsv);
      this.pointCloudList := ModelColumn(groundTruthCsv);
      this.validationTextQueriesList := QueryColumn(validationGroundTruthCsv);
      this.validationPointCloudList := ModelColumn(validationGroundTruthCsv);
      this.queriesModelMapping := map[];
      new;
      for i := 0 to |textQueriesList|
        invariant queriesModelMapping == Associations(groundTruthCsv[..i])
      {
        assert groundTruthCsv[..i + 1][..i] == groundTruthCsv[..i];
        var text := textQueriesList[i];
        if text !in queriesModelMapping {
          queriesModelMapping := queriesModelMapping[text := {}];
        }
        queriesModelMapping := queriesModelMapping[text := queriesModelMapping[text] + {pointCloudList[i]}];
      }
      assert groundTruthCsv[..|groundTruthCsv|] == groundTruthCsv;
    }

    /** The number of items: the row count of the train table in the train stage, of the validation table otherwise. */
    function Len(): (n: nat)
      reads this
      requires Valid()
      ensures stage == TrainStage ==> n == |groundTruthCsv|
      ensures stage != TrainStage ==> n == |validationGroundTruthCsv|
    {
      if stage == TrainStage then |textQueriesList| else |validationTextQueriesList|
    }

    /** The table items are drawn from in the current stage. */
    function ActiveTable(): seq<GtRow>
      reads this
    {
      if stage == TrainStage then groundTruthCsv else validationGroundTruthCsv
    }

    /**
     * The outcome of retrieving item `idx` with the given draws: the ids are
     * taken from position `idx` of the active table, the negative is chosen by
     * rejection sampling against the query's associations, and the text is
     * looked up last.
     */
    function Item(idx: int, draws: seq<nat>): (r: Result<Example, ItemError>)
      reads this
      requires Valid() && DrawsFit(draws, |pointCloudIdsList|)
      ensures r == Failure(IndexOutOfRange) <==> !(-(Len() as int) <= idx < Len())
      ensures r.Success? ==> PyIndex(ActiveTable(), idx) == Some(GtRow(r.value.queryId, r.value.trueId))
      ensures r.Success? ==> r.value.queryId in queriesModelMapping
      ensures r.Success? ==> r.value.falseId !in queriesModelMapping[r.value.queryId]
      ensures r.Success? ==> (r.value.falseId == r.value.trueId <==> r.value.trueId !in queriesModelMapping[r.value.queryId])
      ensures r.Success? ==> r.value.falseId == r.value.trueId || r.value.falseId in pointCloudIdsList
      ensures r.Success? ==> r.value.queryId in textQueriesMapping && r.value.text == textQueriesMapping[r.value.queryId]
    {
      var queries := if stage == TrainStage then textQueriesList else validationTextQueriesList;
      var models := if stage == TrainStage then pointCloudList else validationPointCloudList;
      match PyIndex(queries, idx)
      case None => Failure(IndexOutOfRange)
      case Some(q) =>
        var t := PyIndex(models, idx).value;
        if q !in queriesModelMapping then Failure(QueryNotIndexed(q))
        else
          match RejectionSample(queriesModelMapping[q], t, pointCloudIdsList, draws)
          case EmptyRange => Failure(EmptyRandRange)
          case OutOfDraws => Failure(DrawsExhausted)
          case Negative(f) =>
            if q !in textQueriesMapping then Failure(QueryTextMissing(q))
            else Success(Example(q, textQueriesMapping[q], t, f))
    }

    /** Item retrieval, with the selection loop of the source, consuming the draws in order. */
    method GetItem(idx: int, draws: seq<nat>) returns (r: Result<Example, ItemError>)
      requires Valid() && DrawsFit(draws, |pointCloudIdsList|)
      ensures r == Item(idx, draws)
    {
      var queries := if stage == TrainStage then textQueriesList else validationTextQueriesList;
      var models := if stage == TrainStage then pointCloudList else validationPointCloudList;
      var n := |queries|;
      if !(-n <= idx < n) {
        return Failure(IndexOutOfRange);
      }
      var i := if idx < 0 then n + idx else idx;
      var textQueriesId := queries[i];
      var truePointCloudId := models[i];
      var falsePointCloudId := truePointCloudId;
      if textQueriesId !in queriesModelMapping {
        return Failure(QueryNotIndexed(textQueriesId));
      }
      var positives := queriesModelMapping[textQueriesId];
      var k := 0;
      while falsePointCloudId in positives
        invariant 0 <= k <= |draws|
        invariant RejectionSample(positives, falsePointCloudId, pointCloudIdsList, draws[k..])
               == RejectionSample(positives, truePointCloudId, pointCloudIdsList, draws)
        decreases |draws| - k
      {
        if |pointCloudIdsList| == 0 {
          return Failure(EmptyRandRange);
        }
        if k == |draws| {
          return Failure(DrawsExhausted);
        }
        falsePointCloudId := pointCloudIdsList[draws[k]];
        assert draws[k..][1..] == draws[k + 1..];
        k := k + 1;
      }
      if textQueriesId !in textQueriesMapping {
        return Failure(QueryTextMissing(textQueriesId));
      }
      r := Success(Example(textQueriesId, textQueriesMapping[textQueriesId], truePointCloudId, falsePointCloudId));
    }
  }

  /**
   * For an index inside the active table, with row (q, t) there, the outcome
   * of retrieval in full: KeyError on the index lookup exactly when no train
   * row carries q; otherwise the sampling errors exactly when the selection
   * loop hits them; otherwise KeyError on the text lookup exactly when no
   * text row carries q; and success, with the sampled negative, in the
   * remaining case.
   */
  lemma ItemOutcome(d: TextPointCloudDataset, idx: int, draws: seq<nat>)
    requires d.Valid() && DrawsFit(draws, |d.pointCloudIdsList|)
    requires -(d.Len() as int) <= idx < d.Len()
    ensures PyIndex(d.ActiveTable(), idx).Some?
    ensures var q, t := PyIndex(d.ActiveTable(), idx).value.query, PyIndex(d.ActiveTable(), idx).value.model;
            && (d.Item(idx, draws) == Failure(QueryNotIndexed(q)) <==> forall row :: row in d.groundTruthCsv ==> row.query != q)
            && (q in d.queriesModelMapping ==>
                  var s := RejectionSample(d.queriesModelMapping[q], t, d.pointCloudIdsList, draws);
                  && (d.Item(idx, draws) == Failure(EmptyRandRange) <==> s == EmptyRange)
                  && (d.Item(idx, draws) == Failure(DrawsExhausted) <==> s == OutOfDraws)
                  && (s.Negative? ==>
                        && (d.Item(idx, draws) == Failure(QueryTextMissing(q)) <==> forall row :: row in d.textQueriesCsv ==> row.id != q)
                        && (q in d.textQueriesMapping ==> d.Item(idx, draws) == Success(Example(q, d.textQueriesMapping[q], t, s.id)))))
  {
    AssociationsExact(d.groundTruthCsv);
    TextMappingKeys(d.textQueriesCsv);
  }

  /**
   * In the train stage every query of the active table has an entry in the
   * index and its true model is one of its positives, so the lookup never
   * fails and at least one draw replaces the true id: the negative differs
   * from it and is the catalog entry at one of the supplied indices.
   */
  lemma TrainItemsAlwaysRedraw(d: TextPointCloudDataset, idx: int, draws: seq<nat>)
    requires d.Valid() && DrawsFit(draws, |d.pointCloudIdsList|)
    requires d.stage == TrainStage
    ensures !d.Item(idx, draws).Failure? || !d.Item(idx, draws).error.QueryNotIndexed?
    ensures d.Item(idx, draws).Success? ==>
              d.Item(idx, draws).value.falseId != d.Item(idx, draws).value.trueId
    ensures d.Item(idx, draws).Success? ==>
              exists k :: 0 <= k < |draws| && d.Item(idx, draws).value.falseId == d.pointCloudIdsList[draws[k]]
  {
    var rows := d.groundTruthCsv;
    if -|rows| <= idx < |rows| {
      var i := if idx < 0 then |rows| + idx else idx;
      EveryRowRecorded(rows, i);
    }
  }

  /**
   * A query id missing from the index can only come from the validation
   * table, and no row of the train table carries it.
   */
  lemma QueryNotIndexedOnlyOutsideTrain(d: TextPointCloudDataset, idx: int, draws: seq<nat>, q: QueryId)
    requires d.Valid() && DrawsFit(draws, |d.pointCloudIdsList|)
    requires d.Item(idx, draws) == Failure(QueryNotIndexed(q))
    ensures d.stage != TrainStage
    ensures forall row :: row in d.groundTruthCsv ==> row.query != q
  {
    AssociationsExact(d.groundTruthCsv);
  }

  /** Validation rows never enter the index, whatever the stage. */
  lemma ValidationRowsNotIndexed(d: TextPointCloudDataset, q: QueryId, x: ModelId)
    requires d.Valid()
    requires GtRow(q, x) in d.validationGroundTruthCsv && GtRow(q, x) !in d.groundTruthCsv
    ensures !(q in d.queriesModelMapping && x in d.queriesModelMapping[q])
  {
    AssociationsExact(d.groundTruthCsv);
  }
}
