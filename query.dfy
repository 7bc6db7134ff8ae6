/**
 * The read side of the server: a query names an optional location and
 * optional date bounds; the matching records get their sentiment attached
 * and come back ranked by compound score, highest first.
 */
module QueryEngine {
  import opened Wrappers
  import opened DateTimes
  import opened Reviews
  import Ranking

  /** The filter a query string asks for, with its date bounds already converted. */
  datatype Query = Query(location: Option<string>, start: Option<DateTime>, end: Option<DateTime>)

  /** A date string is valid when the date parser accepts it. */
  predicate IsValidDate(parse: string -> Option<Date>, s: string) {
    parse(s).Some?
  }

  /**
   * A date bound: midnight of the parsed date, or no bound at all when the
   * parameter is missing, empty or not a date.
   */
  function DateBound(s: Option<string>, parse: string -> Option<Date>): Option<DateTime> {
    if s.Some? && s.value != "" && IsValidDate(parse, s.value)
    then Some(Midnight(parse(s.value).value))
    else None
  }

  /** The query a decoded query string describes. */
  function QueryOf(params: Params, parse: string -> Option<Date>): Query
    requires WellFormedParams(params)
  {
    Query(FirstValue(params, "location"),
          DateBound(FirstValue(params, "start_date"), parse),
          DateBound(FirstValue(params, "end_date"), parse))
  }

  /** A location counts as given only when it is a non-empty string. */
  predicate LocationGiven(q: Query) {
    q.location.Some? && q.location.value != ""
  }

  predicate LocationMatches(q: Query, r: Review) {
    if LocationGiven(q) then r.location == q.location.value else r.location in Locations
  }

  /** Both bounds are inclusive and compared at full timestamp precision. */
  predicate WithinBounds(q: Query, t: DateTime) {
    (q.start.None? || LessEq(q.start.value, t)) && (q.end.None? || LessEq(t, q.end.value))
  }

  predicate Selected(q: Query, r: Review) {
    LocationMatches(q, r) && WithinBounds(q, r.timestamp)
  }

  /**
   * The positions in the store of the records the query selects, in store
   * order. The list the server builds holds references to the stored
   * records themselves; the positions play that part here.
   */
  function Matches(rs: seq<Review>, q: Query): (m: seq<nat>)
    ensures forall j :: 0 <= j < |m| ==> m[j] < |rs| && Selected(q, rs[m[j]])
    ensures forall i :: 0 <= i < |rs| && Selected(q, rs[i]) ==> i in m
    ensures forall j, j' :: 0 <= j < j' < |m| ==> m[j] < m[j']
  {
    if rs == [] then []
    else
      var n := |rs| - 1;
      Matches(rs[..n], q) + (if Selected(q, rs[n]) then [n] else [])
  }

  /** The records at the given positions. */
  function Pick(rs: seq<Review>, m: seq<nat>): (out: seq<Review>)
    requires forall j :: 0 <= j < |m| ==> m[j] < |rs|
  {
    seq(|m|, j requires 0 <= j < |m| => rs[m[j]])
  }

  /** The selected records, in store order. */
  function Filtered(rs: seq<Review>, q: Query): seq<Review> {
    Pick(rs, Matches(rs, q))
  }

  /** The store after the query has attached a sentiment to each record it selects. */
  function Annotate(rs: seq<Review>, q: Query, analyze: string -> Sentiment): seq<Review> {
    seq(|rs|, i requires 0 <= i < |rs| => if Selected(q, rs[i]) then WithSentiment(rs[i], analyze) else rs[i])
  }

  /** The response body: the selected, annotated records ranked by compound score. */
  function Response(rs: seq<Review>, q: Query, analyze: string -> Sentiment): seq<Review> {
    Ranking.SortDesc(Compound(analyze), Filtered(Annotate(rs, q, analyze), q))
  }

  // ---------------------------------------------------------------------
  // Date bounds

  /** An empty or unparsable `start_date` is treated exactly as an absent one. */
  lemma BadStartDateIsAbsent(params: Params, parse: string -> Option<Date>)
    requires WellFormedParams(params) && "start_date" in params
    requires params["start_date"][0] == "" || parse(params["start_date"][0]).None?
    ensures QueryOf(params, parse) == QueryOf(params - {"start_date"}, parse)
    ensures QueryOf(params, parse).start.None?
  {
  }

  /** An empty or unparsable `end_date` is treated exactly as an absent one. */
  lemma BadEndDateIsAbsent(params: Params, parse: string -> Option<Date>)
    requires WellFormedParams(params) && "end_date" in params
    requires params["end_date"][0] == "" || parse(params["end_date"][0]).None?
    ensures QueryOf(params, parse) == QueryOf(params - {"end_date"}, parse)
    ensures QueryOf(params, parse).end.None?
  {
  }

  /** Without date bounds a record is selected on its location alone. */
  lemma UnboundedQuerySelectsOnLocation(params: Params, parse: string -> Option<Date>, r: Review)
    requires WellFormedParams(params)
    requires "start_date" !in params || params["start_date"][0] == "" || parse(params["start_date"][0]).None?
    requires "end_date" !in params || params["end_date"][0] == "" || parse(params["end_date"][0]).None?
    ensures Selected(QueryOf(params, parse), r) <==> LocationMatches(QueryOf(params, parse), r)
  {
  }

  /**
   * An end date means midnight of that day: a record of that same day passes
   * the end bound exactly when it is stamped 00:00:00.
   */
  lemma EndDateIsMidnight(params: Params, parse: string -> Option<Date>, d: Date, r: Review)
    requires WellFormedParams(params)
    requires "end_date" in params && params["end_date"][0] != ""
    requires parse(params["end_date"][0]) == Some(d)
    requires Valid(r.timestamp) && SameDay(r.timestamp, d)
    ensures QueryOf(params, parse).end == Some(Midnight(d))
    ensures Selected(QueryOf(params, parse), r) ==> r.timestamp == Midnight(d)
  {
  }

  /** A start date admits the whole of its own day. */
  lemma StartDateAdmitsItsDay(params: Params, parse: string -> Option<Date>, d: Date, r: Review)
    requires WellFormedParams(params)
    requires "start_date" in params && params["start_date"][0] != ""
    requires parse(params["start_date"][0]) == Some(d)
    requires Valid(r.timestamp) && SameDay(r.timestamp, d)
    ensures QueryOf(params, parse).start == Some(Midnight(d))
    ensures LessEq(QueryOf(params, parse).start.value, r.timestamp)
  {
  }

  // ---------------------------------------------------------------------
  // Filtering

  /** Exactly the stored records the query selects are in the filtered list. */
  lemma FilteredMembers(rs: seq<Review>, q: Query, r: Review)
    ensures r in Filtered(rs, q) <==> r in rs && Selected(q, r)
  {
    var m := Matches(rs, q);
    if r in rs && Selected(q, r) {
      var i :| 0 <= i < |rs| && rs[i] == r;
      var j :| 0 <= j < |m| && m[j] == i;
      assert Filtered(rs, q)[j] == r;
    }
  }

  /** A record appended to the store is appended to the filtered list when selected. */
  lemma FilteredAppend(rs: seq<Review>, x: Review, q: Query)
    ensures Filtered(rs + [x], q) == Filtered(rs, q) + (if Selected(q, x) then [x] else [])
  {
  }

  /** When the query selects every record, every position is matched, in order. */
  lemma {:induction false} MatchesAll(rs: seq<Review>, q: Query)
    requires forall i :: 0 <= i < |rs| ==> Selected(q, rs[i])
    ensures |Matches(rs, q)| == |rs|
    ensures forall j :: 0 <= j < |rs| ==> Matches(rs, q)[j] == j
  {
    if rs != [] {
      var n := |rs| - 1;
      MatchesAll(rs[..n], q);
      assert Matches(rs, q) == Matches(rs[..n], q) + [n];
    }
  }

  /** When the query selects every record, the filtered list is the whole store, in order. */
  lemma FilteredAll(rs: seq<Review>, q: Query)
    requires forall i :: 0 <= i < |rs| ==> Selected(q, rs[i])
    ensures Filtered(rs, q) == rs
  {
    MatchesAll(rs, q);
  }

  /** Selection depends only on the fields a query looks at. */
  lemma {:induction false} MatchesAgree(rs: seq<Review>, ts: seq<Review>, q: Query)
    requires |rs| == |ts|
    requires forall i :: 0 <= i < |rs| ==> (Selected(q, rs[i]) <==> Selected(q, ts[i]))
    ensures Matches(rs, q) == Matches(ts, q)
  {
    if rs != [] {
      var n := |rs| - 1;
      MatchesAgree(rs[..n], ts[..n], q);
    }
  }

  /** Attaching sentiment neither adds, drops, reorders nor alters the stored records otherwise. */
  lemma AnnotateKeepsRecords(rs: seq<Review>, q: Query, analyze: string -> Sentiment)
    ensures |Annotate(rs, q, analyze)| == |rs|
    ensures forall i :: 0 <= i < |rs| ==>
              var r' := Annotate(rs, q, analyze)[i];
              r'.id == rs[i].id && r'.body == rs[i].body && r'.location == rs[i].location &&
              r'.timestamp == rs[i].timestamp &&
              r'.sentiment == if Selected(q, rs[i]) then Some(analyze(rs[i].body)) else rs[i].sentiment
    ensures Matches(Annotate(rs, q, analyze), q) == Matches(rs, q)
    ensures UniqueIds(rs) ==> UniqueIds(Annotate(rs, q, analyze))
  {
    MatchesAgree(Annotate(rs, q, analyze), rs, q);
  }

  /** The records the query returns are the selected stored records, each with its sentiment attached. */
  lemma FilteredAnnotated(rs: seq<Review>, q: Query, analyze: string -> Sentiment)
    ensures Filtered(Annotate(rs, q, analyze), q) ==
            seq(|Filtered(rs, q)|, j requires 0 <= j < |Filtered(rs, q)| => WithSentiment(Filtered(rs, q)[j], analyze))
  {
    AnnotateKeepsRecords(rs, q, analyze);
  }

  // ---------------------------------------------------------------------
  // The response

  /** A record is in the response exactly when it is a selected stored record with its sentiment attached. */
  lemma ResponseMembers(rs: seq<Review>, q: Query, analyze: string -> Sentiment, r: Review)
    ensures r in Response(rs, q, analyze) <==>
            exists i :: 0 <= i < |rs| && Selected(q, rs[i]) && r == WithSentiment(rs[i], analyze)
  {
    var a := Annotate(rs, q, analyze);
    var f := Filtered(a, q);
    Ranking.SortDescPermutation(Compound(analyze), f);
    assert r in Response(rs, q, analyze) <==> r in multiset(f);
    FilteredMembers(a, q, r);
    AnnotateKeepsRecords(rs, q, analyze);
    if r in a && Selected(q, r) {
      var i :| 0 <= i < |a| && a[i] == r;
      assert Selected(q, rs[i]);
    }
    if exists i :: 0 <= i < |rs| && Selected(q, rs[i]) && r == WithSentiment(rs[i], analyze) {
      var i :| 0 <= i < |rs| && Selected(q, rs[i]) && r == WithSentiment(rs[i], analyze);
      assert a[i] == r;
    }
  }

  /**
   * Every returned record has the requested location when one is given,
   * and otherwise an allowed location; it lies within the date bounds; and
   * it carries the sentiment of its own text.
   */
  lemma ResponseRespectsFilter(rs: seq<Review>, q: Query, analyze: string -> Sentiment, r: Review)
    requires r in Response(rs, q, analyze)
    ensures LocationGiven(q) ==> r.location == q.location.value
    ensures !LocationGiven(q) ==> r.location in Locations
    ensures q.start.Some? ==> LessEq(q.start.value, r.timestamp)
    ensures q.end.Some? ==> LessEq(r.timestamp, q.end.value)
    ensures r.sentiment == Some(analyze(r.body))
  {
    ResponseMembers(rs, q, analyze, r);
  }

  /**
   * The response is ordered by compound score, highest first; it is a
   * permutation of the selected records; and records of equal score keep
   * their store order.
   */
  lemma ResponseIsRanked(rs: seq<Review>, q: Query, analyze: string -> Sentiment, k: real)
    ensures Ranking.SortedDesc(Compound(analyze), Response(rs, q, analyze))
    ensures multiset(Response(rs, q, analyze)) == multiset(Filtered(Annotate(rs, q, analyze), q))
    ensures Ranking.WithKey(Compound(analyze), Response(rs, q, analyze), k) ==
            Ranking.WithKey(Compound(analyze), Filtered(Annotate(rs, q, analyze), q), k)
  {
    var f := Filtered(Annotate(rs, q, analyze), q);
    Ranking.SortDescSorted(Compound(analyze), f);
    Ranking.SortDescPermutation(Compound(analyze), f);
    Ranking.SortDescStable(Compound(analyze), f, k);
  }

  /** Any ranking of the selected records that is ordered and stable is the response. */
  lemma ResponseIsTheStableSort(rs: seq<Review>, q: Query, analyze: string -> Sentiment, t: seq<Review>)
    requires Ranking.SortedDesc(Compound(analyze), t)
    requires forall k :: Ranking.WithKey(Compound(analyze), t, k) ==
                         Ranking.WithKey(Compound(analyze), Filtered(Annotate(rs, q, analyze), q), k)
    ensures t == Response(rs, q, analyze)
  {
    Ranking.SortDescIsTheStableSort(Compound(analyze), Filtered(Annotate(rs, q, analyze), q), t);
  }
}
