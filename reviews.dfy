/**
 * The review records held by the server, the fixed list of allowed
 * locations, and the decoded form of a query string or form body.
 */
module Reviews {
  import opened Wrappers
  import opened DateTimes

  /** The four polarity scores the sentiment analyser returns for a text. */
  datatype Sentiment = Sentiment(neg: real, neu: real, pos: real, compound: real)

  /**
   * One stored review: `ReviewId`, `ReviewBody`, `Location`, `Timestamp`,
   * and the `sentiment` entry a query attaches to the records it matches.
   */
  datatype Review = Review(
    id: string,
    body: string,
    location: string,
    timestamp: DateTime,
    sentiment: Option<Sentiment>)

  /** The locations a submission may name and an unfiltered query shows, in the server's order. */
  const Locations: seq<string> := [
    "Albuquerque, New Mexico",
    "Carlsbad, California",
    "Chula Vista, California",
    "Colorado Springs, Colorado",
    "Denver, Colorado",
    "El Cajon, California",
    "El Paso, Texas",
    "Escondido, California",
    "Fresno, California",
    "La Mesa, California",
    "Las Vegas, Nevada",
    "Los Angeles, California",
    "Oceanside, California",
    "Phoenix, Arizona",
    "Sacramento, California",
    "Salt Lake City, Utah",
    "San Diego, California",
    "Tucson, Arizona"
  ]

  /** Eighteen distinct names, none of them empty. */
  lemma LocationsAreDistinctAndNonEmpty()
    ensures |Locations| == 18
    ensures forall i, j :: 0 <= i < j < |Locations| ==> Locations[i] != Locations[j]
    ensures "" !in Locations
  {
  }

  /** A decoded query string or form body: every key with the list of its values. */
  type Params = map<string, seq<string>>

  /** Decoding never produces a key without at least one value. */
  predicate WellFormedParams(p: Params) {
    forall k :: k in p ==> p[k] != []
  }

  /** The first value given for `key`, or None when the key is absent. */
  function FirstValue(p: Params, key: string): Option<string>
    requires WellFormedParams(p)
  {
    if key in p then Some(p[key][0]) else None
  }

  /** The record with the sentiment of its text attached; nothing else is touched. */
  function WithSentiment(r: Review, analyze: string -> Sentiment): Review {
    r.(sentiment := Some(analyze(r.body)))
  }

  /** Ranking key of a record: the compound score of its text. */
  function Compound(analyze: string -> Sentiment): Review -> real {
    (r: Review) => analyze(r.body).compound
  }

  /** No two records share an id. */
  predicate UniqueIds(rs: seq<Review>) {
    forall i, j :: 0 <= i < j < |rs| ==> rs[i].id != rs[j].id
  }

  /** `id` is not the id of any record in `rs`. */
  predicate FreshId(rs: seq<Review>, id: string) {
    forall i :: 0 <= i < |rs| ==> rs[i].id != id
  }

  /** Appending a record with a fresh id keeps ids unique. */
  lemma AppendFreshKeepsIdsUnique(rs: seq<Review>, r: Review)
    requires UniqueIds(rs) && FreshId(rs, r.id)
    ensures UniqueIds(rs + [r])
  {
  }
}
