# Review analyzer server: a Dafny model

`server.py` is a small WSGI application over a list of customer reviews,
each tagged with a location and a timestamp. A GET request filters the
list by an optional location and optional `start_date`/`end_date` bounds,
attaches a VADER sentiment profile to every matching record and returns
the matches ranked by compound score, highest first. A POST request
validates a form-encoded submission (`Location`, `ReviewBody`) and appends
a new record with a fresh id and the current time.

The model, module by module:

- `Wrappers` (`wrappers.dfy`): `Option` and `Result`.
- `DateTimes` (`datetimes.dfy`): dates and second-precision timestamps as
  integer tuples, ordered lexicographically as Python orders `datetime`
  values. A bare date denotes midnight of that day.
- `Ranking` (`ranking.dfy`): `sorted(..., key=..., reverse=True)` as an
  insertion sort. It is proved to be ordered by non-increasing key, a
  permutation of its input, and stable: for every key, the elements with
  that key keep their input order. It is also proved to be the only
  sequence with those properties, so it is what Python's stable sort returns.
- `Reviews` (`reviews.dfy`): the `Review` record, the sentiment profile,
  the 18 allowed locations, and the decoded query or form map
  (`parse_qs` yields a key → list-of-values map, and only the first value
  of a key is used).
- `QueryEngine` (`query.dfy`): deriving date bounds, the selection
  predicate, the positions of the selected records (`Matches`), the
  in-place sentiment annotation (`Annotate`) and the ranked response
  (`Response`), with lemmas about each.
- `Submission` (`submission.dfy`): field validation and the outcome of a
  POST (`Submit`), including its three error cases.
- `Server` (`store.dfy`): the class `ReviewStore`, which holds the review
  list as a `seq` field. `Get` runs the annotating loop over the matched
  positions and then ranks the matches. `Post` appends on success and
  leaves the list alone on failure.
- `Scenarios` (`scenarios.dfy`): concrete requests worked through the model.

Things outside the model are passed in as parameters:

- `parse: string -> Option<Date>` stands for `datetime.strptime(s, '%Y-%m-%d')`.
- `analyze: string -> Sentiment` stands for VADER's `polarity_scores`.
- `decode: seq<bv8> -> Option<Params>` stands for UTF-8 decoding plus `parse_qs`.
- The review id (`uuid4`) and the current time (`datetime.now()`) are plain arguments.

Points of the code the model keeps as they are:

- The allowed locations are the code's full-name strings, such as
  `"Albuquerque, New Mexico"`.
- A query stores the computed sentiment in the matched records of the
  shared list, not only in the returned values. `Annotate` and
  `ReviewStore.Get` model that in-place update.
- Nothing serialises concurrent requests, and id uniqueness rests on
  `uuid4`. So uniqueness is stated as preserved when the new id is fresh,
  never proved outright.

## Model

| member | source | states |
|---|---|---|
| `DateTimes.LessEqIsTotalOrder` | server.py:81-82 | timestamp comparison is reflexive, antisymmetric, transitive and total |
| `DateTimes.MidnightStartsTheDay` | server.py:74 | a date used as a lower bound is at or before every valid timestamp of that day |
| `DateTimes.AtOrBeforeMidnightOfSameDay` | server.py:75 | a timestamp of a date's own day is at or before that date (as midnight) iff it is exactly 00:00:00 |
| `Ranking.SortDescSorted` | server.py:98 | the sorted list has non-increasing keys |
| `Ranking.SortDescPermutation` | server.py:98 | the sorted list has the same multiset of elements as its input |
| `Ranking.SortDescStable` | server.py:98 | for every key, the subsequence of elements with that key is the same before and after sorting (stability) |
| `Ranking.StableSortIsUnique` | server.py:98 | two sorted sequences with the same per-key subsequences are equal |
| `Ranking.SortDescIsTheStableSort` | server.py:98 | any sorted sequence with the input's per-key subsequences is exactly the insertion sort's result, so the model agrees with Python's stable reverse sort |
| `Reviews.LocationsAreDistinctAndNonEmpty` | server.py:27-46 | the allowed list holds 18 distinct names and no empty string |
| `Reviews.AppendFreshKeepsIdsUnique` | server.py:153-163 | appending a record whose id is fresh keeps the ids unique |
| `QueryEngine.Matches` | server.py:77-90 | the positions returned are in range, strictly increasing and select exactly the records passing the filter (a position is listed iff its record is selected) |
| `QueryEngine.BadStartDateIsAbsent` | server.py:61-74 | an empty or unparsable `start_date` yields the same query as no `start_date` at all, with no start bound |
| `QueryEngine.BadEndDateIsAbsent` | server.py:61-75 | an empty or unparsable `end_date` yields the same query as no `end_date` at all, with no end bound |
| `QueryEngine.UnboundedQuerySelectsOnLocation` | server.py:74-90 | with no usable date bounds, a record is selected iff its location matches |
| `QueryEngine.EndDateIsMidnight` | server.py:75-89 | the end bound is midnight of `end_date`, and a selected record of that day is stamped 00:00:00 |
| `QueryEngine.StartDateAdmitsItsDay` | server.py:74-88 | the start bound is midnight of `start_date` and every timestamp of that day passes it |
| `QueryEngine.FilteredMembers` | server.py:77-90 | a record is in the filtered list iff it is in the store and satisfies the filter |
| `QueryEngine.MatchesAll` | server.py:77-90 | when every record passes the filter, the matched positions are exactly 0, 1, …, in order |
| `QueryEngine.FilteredAll` | server.py:77-90 | when every record passes the filter, the filtered list is the whole store in store order |
| `QueryEngine.FilteredAppend` | server.py:77-90 | filtering a store with one record appended gives the earlier filtered list plus that record when it is selected (store order is kept) |
| `QueryEngine.AnnotateKeepsRecords` | server.py:93-96 | the annotated store has the same length; each record keeps its id, text, location and timestamp; only selected records get the sentiment of their text; selection and id uniqueness are unaffected |
| `QueryEngine.FilteredAnnotated` | server.py:93-96 | the records the query ranks are the selected stored records, in store order, each with its sentiment attached |
| `QueryEngine.ResponseMembers` | server.py:77-98 | a record is in the response iff it is some selected stored record with its sentiment attached |
| `QueryEngine.ResponseRespectsFilter` | server.py:77-96 | every returned record has the requested location when one is given, and an allowed location otherwise; it lies within the inclusive date bounds; and it carries the sentiment of its own text |
| `QueryEngine.ResponseIsRanked` | server.py:98 | the response is ordered by compound score, highest first, is a permutation of the selected annotated records, and keeps store order among equal scores |
| `QueryEngine.ResponseIsTheStableSort` | server.py:98 | any ordered, stable ranking of the selected records is the response |
| `Submission.ValidateFields` | server.py:138-151 | validation succeeds iff `Location` is present with an allowed first value and `ReviewBody` has a non-empty first value; it then returns those values, and otherwise the required-fields error |
| `Submission.Submit` | server.py:118-161 | an empty body gives the empty-body error, an undecodable one the invalid-format error, a failed validation the required-fields error; success gives a record with the submitted location and text, the given id and time, and no sentiment |
| `Server.ReviewStore.constructor` | server.py:22 | the store starts as the initially loaded records |
| `Server.ReviewStore.Get` | server.py:59-100 | the new store is the old one annotated for the query; the result is the ranked response, which is the stable sort of the filtered new store |
| `Server.ReviewStore.Post` | server.py:111-171 | the outcome is `Submit`'s; on success the store is the old one with exactly that record appended, and on failure it is unchanged; unique ids stay unique when the new id is fresh |
| `Server.SubmittedReviewIsFound` | server.py:77-90 | after a successful submission is appended, a query for its location or for no location, with no date bounds, returns it with its sentiment |
| `Scenarios.AcceptedSubmission` | server.py:153-161 | a `Denver, Colorado` submission with a text is accepted as exactly that record |
| `Scenarios.EmptySubmission` | server.py:120-126 | an empty body is refused with "Empty request body." |
| `Scenarios.UnknownLocationSubmission` | server.py:140-151 | the location `Nowhere` is refused with "Location and ReviewBody are required." |
| `Scenarios.ThreeRanked` | server.py:98 | elements scoring 0.8, -0.5, 0.1 are sorted as 0.8, 0.1, -0.5 |
| `Scenarios.SampleFiltered` | server.py:77-83 | a query for the location of three stored records selects all three, in store order |
| `Scenarios.RankingExample` | server.py:77-98 | querying a store of three same-location records whose texts score 0.8, -0.5, 0.1 returns them, with their sentiment, ordered 0.8, 0.1, -0.5 |

## Left out

- HTTP plumbing is not modelled: the `environ` dictionary, `start_response`, status lines, headers, reading `CONTENT_LENGTH` bytes of `wsgi.input`, and the JSON encoding of responses. Each refusal is modelled only as its `SubmitError` value and its `Message` text.
- `parse_qs` and UTF-8 decoding are library calls. The decoded map is an input on the GET side, and the abstract `decode` parameter on the POST side.
- `datetime.strptime` is only the abstract `parse` parameter. Python's parser is lenient about digit counts and accepts Unicode digits, so no concrete format check is written.
- Stored timestamps are typed `DateTime` values. The `strftime` formatting of a new record's time and the re-parsing of stored timestamp strings are not modelled. So the exception a malformed stored timestamp would raise during a bounded query is outside the model.
- The VADER analyser (`polarity_scores`) is the abstract `analyze` parameter. Its lexicon, its floating-point arithmetic and the ranges of its four scores are not modelled. Scores are `real`.
- `uuid.uuid4()` and `datetime.now()` are nondeterministic, so they are parameters. The model never proves that an id is fresh.
- Server.ReviewStore.Post: unique ids are kept only when the old store already had unique ids and the supplied id is fresh. The code itself guarantees nothing beyond what `uuid4` makes likely.
- Loading the initial records from `data/reviews.csv` with pandas is I/O. The constructor takes the loaded records. Extra CSV columns and records without a `ReviewId` are not modelled.
- The `nltk` downloads, the unused `stop_words` and `adj_noun_pairs_count`, server startup and the port are I/O or dead state.
- Concurrency is not modelled. The code has no locking around `reviews.append`, and each request is modelled as one sequential step.
