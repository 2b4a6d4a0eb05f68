# Unique-combination price aggregation, modelled in Dafny

The system reads a large JSON array of records one element at a time. It groups
the records by their (`owner`, `price`, `category`) combination and keeps the
combinations that exactly one record has. It turns each such combination back
into a record. Then it computes two per-category mappings: the summed price and
the item count.

The model follows `services.py` stage by stage:

- `json.dfy` (module `Json`) holds the JSON values the stages see, Python
  truthiness, and `Option`/`Result`.
- `duplicate_filter.dfy` (module `DuplicateFilter`) models
  `find_duplicate_combinations_from_large_file`:
  - The grouping loop is the method `GroupOccurrences`, written with a loop
    over the stream. Its invariants tie the `defaultdict(list)` accumulator to
    the specification function `Occurrences` over the consumed prefix.
  - The final dict comprehension is the function `Uniques`.
  - The whole function is `FindUniques`, over an abstract `Source`: a missing
    file, a fully parsed array, or an array cut short by a syntax error.
  - `UniqueSet` is an independent reference definition. It maps each key that
    exactly one grouped record carries to that record's id.
- `reconstruction.dfy` (module `Reconstruction`) models `process_uniques` as
  the loop method `ProcessUniques`. `Zip` models `dict(zip(fields, combo))`.
- `aggregation.dfy` (module `Aggregation`) models the two `calculate_*` loops
  as methods. Each is proved against specification functions:
  - `PriceSum` and `PricedCategories` for price totals.
  - `ItemCount` and `CountedCategories` for item counts.
- `pipeline.dfy` (module `Pipeline`) states properties of the three stages
  composed the way `main` composes them:
  - Every counted category comes from a key seen exactly once.
  - The totals do not depend on the dictionary's visiting order.
  - Permuting the input changes neither the unique set nor the totals.

Values: `Str` and `Int` are interpreted, and `Null` is JSON null / Python
`None`. Every other JSON value becomes `Opaque(tag, truthy)`: a float, a
boolean, an array or a nested object. Only its identity and its truthiness
matter.

On the following edge cases the model follows the code as written:

- A record with all three combination fields but no `id` aborts the pass.
  The `KeyError` raised at services.py:48 is outside the inner `try` and is
  not one of the two caught exception kinds. This is `Err(MissingId)`.
- A missing file does not surface as an error from this function: it returns
  an empty mapping (services.py:49-51). This is `NotFound`, which gives
  `Ok(map[])`.
- A syntax error mid-stream also returns an empty mapping (services.py:52-54).
  The elements the parser yielded before raising are still processed first. So a
  missing-id record among them still aborts. This is `Truncated(prefix)`.
- Categories are keyed by any truthy value, not only by strings. For example,
  an integer category is kept.
- Only integers count as numeric prices. The parser returns non-integer
  numbers as `decimal.Decimal` unless asked for floats, and `Decimal` fails
  the `isinstance(price, (int, float))` test at services.py:84.

## Model

| member | source | states |
|---|---|---|
| DuplicateFilter.KeyOf | services.py:42-47 | A key exists iff every combination field is present in the record; it then has one value per field, each the record's value for that field, in field order |
| DuplicateFilter.GroupOccurrences | services.py:32-48 | The pass fails iff some object has every combination field but no id; otherwise the accumulator maps exactly the keys seen to the ids of their records in stream order, no list is empty, and the total length of the lists plus the skipped elements equals the number of elements |
| DuplicateFilter.Uniques | services.py:55-57 | Keeps exactly the keys whose occurrence list has one element, mapped to that element |
| DuplicateFilter.FindUniques | services.py:29-58 | The result equals the reference UniqueSet: empty for a missing file; for a parsed array, MissingId iff some groupable record lacks an id, else each key carried by exactly one grouped record mapped to its id; for a truncated array, MissingId on such a record in the prefix, else empty |
| DuplicateFilter.KeysSeenIff | services.py:48 | A key is in the accumulator iff at least one grouped record carries it (lists are created on first sighting) |
| DuplicateFilter.KeysSeenLength | services.py:42 | Every grouped key has exactly one value per combination field |
| DuplicateFilter.OccurrencesSnoc | services.py:37-48 | One loop step: a groupable record with an id appends its id to its own key's list only; a skipped element changes nothing and counts as skipped; a record without an id is the crash |
| DuplicateFilter.IdsWithKeyConcat | services.py:37-48 | The ids grouped under a key in a concatenated stream are those of the first part followed by those of the second |
| DuplicateFilter.IdsWithKeyPermutation | services.py:37-48 | Permuting the stream permutes the ids grouped under each key |
| DuplicateFilter.SameSightingsSameUniques | services.py:55-57 | The unique set depends only on whether the pass crashes and on the multiset of ids grouped under each key |
| DuplicateFilter.UniqueSetPermutation | services.py:37-57 | Permuting the input array does not change the unique set or the outcome |
| DuplicateFilter.SkippedElementIrrelevant | services.py:38-47 | A non-object element, or an object missing a combination field, can be removed from anywhere in the stream without changing the outcome |
| DuplicateFilter.IdsWithKeyAbsent | services.py:48 | If no grouped record carries a key, no id is listed under it |
| DuplicateFilter.SharedKeyExcluded | services.py:55-57 | Two records with the same combination key keep that key out of the result |
| DuplicateFilter.LoneRecordKept | services.py:55-57 | A record whose combination key no other object has keeps its key in the result, mapped to its id |
| DuplicateFilter.TotalOccurrencesAppend | services.py:48 | Appending an id to a key's list, creating it if new, adds exactly one to the total length of all lists |
| Reconstruction.ZipKeys | services.py:68 | The reconstructed record has exactly the field names that were paired with a value |
| Reconstruction.ZipLastWins | services.py:68 | A field name that does not repeat later holds the key component at its position |
| Reconstruction.ProcessUniques | services.py:61-72 | One record per unique key (none for an empty input): every key is visited exactly once, and each output record is that key zipped with the combination fields |
| Aggregation.TotalPricePerCategory | services.py:75-90 | The totals have exactly the categories of items with a truthy category and a numeric price, and each total is the sum of those items' prices (a missing price counts as 0) |
| Aggregation.TotalItemsPerCategory | services.py:93-106 | The counts have exactly the truthy categories of the items, each count is the number of items with that category whatever their price, and every count is at least 1 |
| Aggregation.PricedCategoriesWitness | services.py:80-85 | A category has a price total iff some item has that truthy category and a numeric price |
| Aggregation.CountedCategoriesWitness | services.py:98-101 | A category has a count iff some item has that truthy category |
| Aggregation.ItemCountPositive | services.py:98-101 | A category is counted iff its item count is at least 1 |
| Aggregation.PricedAreCounted | services.py:80-101 | Every category with a price total also has an item count |
| Aggregation.PriceSumOutside | services.py:78-85 | A category under which no item is priced has a zero sum, so new totals start at zero |
| Aggregation.AggregateConcat | services.py:80-101 | Both aggregates of a concatenated item list combine those of its parts |
| Aggregation.AggregatePermutationAt | services.py:80-101 | For each category, permuting the items changes neither its sum, nor its count, nor whether it appears |
| Aggregation.AggregatePermutation | services.py:80-101 | Permuting the items changes neither mapping |
| Aggregation.UnpricedItemIgnored | services.py:84-87 | An item with a falsy category or a non-numeric price, wherever it stands, adds nothing to the price totals |
| Aggregation.CategorisedItemCounted | services.py:99-101 | An item with a truthy category adds exactly one to that category's count and nothing to others, whatever its price |
| Pipeline.CountedCategoryFromUniqueKey | services.py:117-126 | Every category counted after reconstruction is the category component of a key that exactly one record of the stream carried |
| Pipeline.TotalsIndependentOfVisitOrder | services.py:61-106 | Any two visiting orders of the unique keys yield the same price totals and item counts |
| Pipeline.PipelinePermutation | services.py:29-106 | Permuting the input array changes neither the unique set nor the two mappings |
| Pipeline.SharedKeyScenario | services.py:29-58 | Two records with the same owner, price and category leave the unique set empty |
| Pipeline.NonNumericPriceScenario | services.py:75-106 | An item with a string price is counted for its category and given no price total |

## Left out

- `get_relative_file_path` (services.py:15-26): OS path resolution and existence checks. A missing file is the `NotFound` source.
- `main` (services.py:109-131): orchestration and `print`. The composition is stated as lemmas in `Pipeline`.
- Logging (services.py:8-12 and every `logging` call): diagnostics only.
- File opening and incremental parsing (services.py:35-36): the parsed array is a given sequence of elements. A syntax error is the `Truncated` source, which keeps the elements the parser yielded before raising.
- Floating-point and boolean prices: they are `Opaque` and therefore non-numeric. Python would add a `float` or a `bool` to the totals.
- Python's equality of `True`, `1` and `1.0` as dictionary keys: `Opaque` values are distinct from `Int` values.
- Unhashable values (arrays, objects) in a combination field or as a category: Python raises `TypeError` when hashing them. The model treats every value as hashable.
- The `except Exception` handlers at services.py:70, 89 and 105: nothing in the modelled logic raises there.
- The order of dictionary insertion: `ProcessUniques` visits the keys in the map's own order. `TotalsIndependentOfVisitOrder` shows that the aggregates do not depend on it.
- Integer width: Python integers are unbounded, and so are Dafny's. Sums are exact.
