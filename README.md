# TextPointCloudDataset, modelled in Dafny

`TextPointCloudDataset` is the dataset adapter of a text-to-shape retrieval
pipeline. It reads four tables: train associations, validation associations,
the query texts and the catalog of model ids. From them it builds two lookup
structures. Each item it returns is a triplet: a text query, a model that
matches it, and a model drawn at random from the catalog that does not match it.

This project models the bookkeeping part of the dataset:

- `tables.dfy` (module `Tables`): the parsed tables as rows, and their columns.
  It also holds Python list indexing, the query-text dictionary
  (`dict(rows)`, where later rows win) and the association index. The index
  is a group-by from query id to the set of model ids paired with it in the
  train table.
- `sampling.dfy` (module `NegativeSampling`): the rejection-sampling loop that
  picks the negative model, written as a function of a supplied sequence of
  random draws.
- `dataset.dfy` (module `TextPcDataset`): the class `TextPointCloudDataset`.
  Its constructor builds the index with the source's loop. It also has the
  stage-dependent `Len`, the specification `Item` of item retrieval, and
  `GetItem`, the retrieval method with the source's `while` loop. Lemmas
  about train and validation items follow.
- `wrappers.dfy` (module `Wrappers`): `Option` and `Result`.

Exceptions are values of `ItemError`: `IndexOutOfRange` (IndexError),
`QueryNotIndexed` and `QueryTextMissing` (the two KeyErrors), and
`EmptyRandRange` (`randint(0, -1)` on an empty catalog). The random number
generator is a parameter: `draws` is a sequence of catalog indices, each
in `[0, len - 1]`. The source's loop is unbounded, so `DrawsExhausted` stands
for "the loop needs more draws than were supplied". Take a query whose
positives cover the whole catalog, where the catalog is not empty and the
true model is itself a positive. For that query `DrawsExhausted` is the only
possible outcome.

Two behaviours of the code a reader might not expect:

- A negative item index is not rejected. It counts from the end of the
  active table, as Python list indexing does (`Tables.PyIndex`).
- The true model is one of the query's positives only in the train stage. In
  any other stage the validation row's model may be absent from the
  train-built index. Then no draw happens and the negative equals the true
  model. A validation query with no train row at all raises KeyError.

## Model

| member | source | states |
|---|---|---|
| `Tables.Associations` | src/dataset/text_pc_dataset.py:58-62 | the group-by of a table's rows by query id, recording row after row; no query in it has an empty set |
| `Tables.TextMapping` | src/dataset/text_pc_dataset.py:46 | the dictionary built by inserting the (id, text) rows in order; each of its entries is a row of the table |
| `Tables.AssociationsExact` | src/dataset/text_pc_dataset.py:58-62 | the index built from a table has exactly the table's query ids as keys, and a model is in a query's set if and only if some row pairs them |
| `Tables.EveryRowRecorded` | src/dataset/text_pc_dataset.py:58-62 | for every row i, the model of row i is in the set stored under the query of row i |
| `Tables.TextMappingKeys` | src/dataset/text_pc_dataset.py:46 | the query-text dictionary has exactly the ids of the text table as keys |
| `Tables.TextMappingLastWins` | src/dataset/text_pc_dataset.py:46 | an id maps to the text of its last row, so later rows override earlier ones |
| `Tables.PyIndex` | src/dataset/text_pc_dataset.py:95-101 | list indexing succeeds exactly for `-len <= idx < len` |
| `NegativeSampling.RejectionSample` | src/dataset/text_pc_dataset.py:103-106 | the selected model is never a positive; it is the starting id or the catalog entry at one of the draws; the starting id is kept if and only if it is not a positive; the empty-range error happens if and only if a draw is needed from an empty catalog |
| `NegativeSampling.SampleIsFirstAcceptedDraw` | src/dataset/text_pc_dataset.py:103-106 | when the starting id is positive, the result is the catalog entry at the first draw that lands outside the positives |
| `NegativeSampling.CoveredCatalogNeverYieldsNegative` | src/dataset/text_pc_dataset.py:103-106 | when the starting id is a positive, the catalog is not empty and every catalog entry is a positive, no negative is found whatever the draws (the source loops forever) |
| `TextPcDataset.TextPointCloudDataset.constructor` | src/dataset/text_pc_dataset.py:45-62 | the loop leaves the index equal to the group-by of the train table, whatever the stage; the columns and the text dictionary come from their tables |
| `TextPcDataset.TextPointCloudDataset.Len` | src/dataset/text_pc_dataset.py:87-91 | the size is the train table's row count when the stage is "train", and the validation table's row count for any other stage |
| `TextPcDataset.TextPointCloudDataset.Item` | src/dataset/text_pc_dataset.py:93-110 | IndexError exactly when the index is outside `[-Len, Len)`; on success the query and true ids are the active table's row at the index; the query is in the index and the negative is not among its positives; the negative equals the true id exactly when the true id is not a positive; otherwise the negative comes from the catalog; the text is the query's entry in the text dictionary |
| `TextPcDataset.TextPointCloudDataset.GetItem` | src/dataset/text_pc_dataset.py:93-110 | the selection loop, run on the supplied draws, returns exactly `Item(idx, draws)` |
| `TextPcDataset.ItemOutcome` | src/dataset/text_pc_dataset.py:93-110 | for an index inside the active table with row (q, t): KeyError on the index lookup exactly when no train row carries q; otherwise the empty-range error or running out of draws exactly when the selection loop does; otherwise KeyError on the text lookup exactly when no text row carries q; otherwise success, with the true id t, the sampled negative and the text of q |
| `TextPcDataset.TrainItemsAlwaysRedraw` | src/dataset/text_pc_dataset.py:94-96 | in the train stage the index lookup never fails, and a returned negative always differs from the true id and is the catalog entry at one of the draws |
| `TextPcDataset.QueryNotIndexedOnlyOutsideTrain` | src/dataset/text_pc_dataset.py:97-103 | a KeyError on the index lookup happens only outside the train stage, for a query id no train row carries |
| `TextPcDataset.ValidationRowsNotIndexed` | src/dataset/text_pc_dataset.py:48-62 | a validation pairing that is not also a train pairing is never in the index |

## Left out

- Reading the CSV files with pandas and building paths from the root directory (src/dataset/text_pc_dataset.py:24-45). The parsed tables are constructor parameters. A text table with more or fewer than two columns, which `dict` would reject, is not modelled.
- Text tokenisation with the BERT tokenizer (`_preprocess_text`). It is a call into an external library; an item carries the query text in its place.
- Point-cloud loading and the caller-supplied transform (`_preprocess_pc`, and the paths and loads of lines 113-119). These are file I/O over floating-point data; an item carries the true and false model ids in their place.
- `collate_fn`. It only stacks, casts and transposes tensors.
- The random number generator. It is replaced by the supplied `draws`, so uniformity of the draws is not modelled.
- Termination of the unbounded selection loop. A run that needs more draws than supplied ends with `DrawsExhausted`.
- The debug prints of the validation columns.
- Ids are strings. Pandas may parse an id column as integers; the model does not distinguish the two.
