/**
 * The tables the dataset is built from, as already-parsed rows, and the two
 * lookup structures its constructor derives from them: the query-text
 * dictionary and the query-to-models association index.
 */
module Tables {
  import opened Wrappers

  type QueryId = string
  type ModelId = string
  type Text = string

  /** One row of a ground-truth table: columns "Text Query ID" and "Model ID". */
  datatype GtRow = GtRow(query: QueryId, model: ModelId)

  /** One row of the query-text table: an id and its natural-language text. */
  datatype QueryText = QueryText(id: QueryId, text: Text)

  /** The "Text Query ID" column of a ground-truth table, as a list. */
  function QueryColumn(rows: seq<GtRow>): seq<QueryId>
  {
    seq(|rows|, i requires 0 <= i < |rows| => rows[i].query)
  }

  /** The "Model ID" column of a ground-truth table, as a list. */
  function ModelColumn(rows: seq<GtRow>): seq<ModelId>
  {
    seq(|rows|, i requires 0 <= i < |rows| => rows[i].model)
  }

  /**
   * Python list indexing `s[idx]`: a non-negative index counts from the front,
   * a negative one from the back; anything else raises IndexError (None here).
   */
  function PyIndex<T>(s: seq<T>, idx: int): (r: Option<T>)
    ensures r.Some? <==> -|s| <= idx < |s|
  {
    if 0 <= idx < |s| then Some(s[idx])
    else if -|s| <= idx < 0 then Some(s[|s| + idx])
    else None
  }

  // ---------------------------------------------------------------------
  // Association index: query id -> set of matching model ids
  // ---------------------------------------------------------------------

  /** One step of the index build: create the empty set on first sight of the query, then add the model. */
  function Record(m: map<QueryId, set<ModelId>>, row: GtRow): map<QueryId, set<ModelId>>
  {
    var m' := if row.query !in m then m[row.query := {}] else m;
    m'[row.query := m'[row.query] + {row.model}]
  }

  /** The index after recording every row of `rows`, in order; no query is left with an empty set. */
  function Associations(rows: seq<GtRow>): (m: map<QueryId, set<ModelId>>)
    ensures forall q :: q in m ==> m[q] != {}
    decreases |rows|
  {
    if rows == [] then map[] else Record(Associations(rows[..|rows| - 1]), rows[|rows| - 1])
  }

  /**
   * The index records exactly the rows of the table: a model is in the set of
   * a query if and only if some row pairs them, and the keys are exactly the
   * query ids that occur in the table.
   */
  lemma {:induction false} AssociationsExact(rows: seq<GtRow>)
    ensures Associations(rows).Keys == set r | r in rows :: r.query
    ensures forall q, x :: q in Associations(rows) && x in Associations(rows)[q] <==> GtRow(q, x) in rows
  {
    if rows != [] {
      var init, last := rows[..|rows| - 1], rows[|rows| - 1];
      assert rows == init + [last];
      AssociationsExact(init);
      var m := Associations(init);
      assert Associations(rows) == Record(m, last);
      forall q, x
        ensures q in Associations(rows) && x in Associations(rows)[q] <==> GtRow(q, x) in rows
      {
        if GtRow(q, x) in rows && GtRow(q, x) != last {
          assert GtRow(q, x) in init;
        }
      }
      assert Associations(rows).Keys == m.Keys + {last.query};
      assert (set r | r in rows :: r.query) == (set r | r in init :: r.query) + {last.query};
    }
  }

  /** Every row `i` of the table is recorded under its query id. */
  lemma EveryRowRecorded(rows: seq<GtRow>, i: int)
    requires 0 <= i < |rows|
    ensures rows[i].query in Associations(rows)
    ensures rows[i].model in Associations(rows)[rows[i].query]
  {
    AssociationsExact(rows);
    assert GtRow(rows[i].query, rows[i].model) == rows[i];
  }

  // ---------------------------------------------------------------------
  // Query-text dictionary, `dict(rows)`: later rows override earlier ones
  // ---------------------------------------------------------------------

  /** The dictionary built by inserting the (id, text) rows from first to last; each entry is a row of the table. */
  function TextMapping(rows: seq<QueryText>): (m: map<QueryId, Text>)
    ensures forall q :: q in m ==> QueryText(q, m[q]) in rows
    decreases |rows|
  {
    if rows == [] then map[]
    else
      var init := rows[..|rows| - 1];
      assert forall r :: r in init ==> r in rows;
      TextMapping(init)[rows[|rows| - 1].id := rows[|rows| - 1].text]
  }

  /** The dictionary's keys are exactly the ids that occur in the table. */
  lemma {:induction false} TextMappingKeys(rows: seq<QueryText>)
    ensures TextMapping(rows).Keys == set r | r in rows :: r.id
  {
    if rows != [] {
      var init, last := rows[..|rows| - 1], rows[|rows| - 1];
      assert rows == init + [last];
      TextMappingKeys(init);
      assert (set r | r in rows :: r.id) == (set r | r in init :: r.id) + {last.id};
    }
  }

  /** An id maps to the text of its LAST row in the table. */
  lemma {:induction false} TextMappingLastWins(rows: seq<QueryText>, j: int)
    requires 0 <= j < |rows|
    requires forall k :: j < k < |rows| ==> rows[k].id != rows[j].id
    ensures rows[j].id in TextMapping(rows)
    ensures TextMapping(rows)[rows[j].id] == rows[j].text
  {
    if j < |rows| - 1 {
      TextMappingLastWins(rows[..|rows| - 1], j);
    }
  }
}
