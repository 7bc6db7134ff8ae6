/**
 * The server's review list and its two request handlers.
 */
module Server {
  import opened Wrappers
  import opened DateTimes
  import opened Reviews
  import opened QueryEngine
  import opened Submission
  import Ranking

  /** The module-level list of reviews every request works on. */
  class ReviewStore {
    var reviews: seq<Review>

    /** The store as loaded from the initial data set. */
    constructor (initial: seq<Review>)
      ensures reviews == initial
    {
      reviews := initial;
    }

    /**
     * Answers a query: attaches the sentiment of its text to every stored
     * record the query selects, then returns those records ranked by
     * compound score, highest first, equal scores in store order.
     */
    method Get(params: Params, parse: string -> Option<Date>, analyze: string -> Sentiment)
      returns (result: seq<Review>)
      requires WellFormedParams(params)
      modifies this
      ensures reviews == Annotate(old(reviews), QueryOf(params, parse), analyze)
      ensures result == Response(old(reviews), QueryOf(params, parse), analyze)
      ensures result == Ranking.SortDesc(Compound(analyze), Filtered(reviews, QueryOf(params, parse)))
    {
      var q := QueryOf(params, parse);
      var matched := Matches(reviews, q);
      ghost var stored := reviews;
      for j := 0 to |matched|
        invariant reviews == AttachAt(stored, matched[..j], analyze)
      {
        AttachOneMore(stored, matched, j, analyze);
        reviews := reviews[matched[j] := WithSentiment(reviews[matched[j]], analyze)];
      }
      AttachAtMatches(stored, q, analyze);
      AnnotateKeepsRecords(stored, q, analyze);
      result := Ranking.SortDesc(Compound(analyze), Pick(reviews, matched));
    }

    /**
     * Handles a submission: on success appends exactly the new record at
     * the end and returns it; on any refusal leaves the store as it was.
     */
    method Post(body: seq<bv8>, decode: seq<bv8> -> Option<Params>, id: string, now: DateTime)
      returns (outcome: Result<Review, SubmitError>)
      requires decode(body).Some? ==> WellFormedParams(decode(body).value)
      modifies this
      ensures outcome == Submit(body, decode, id, now)
      ensures outcome.Success? ==> reviews == old(reviews) + [outcome.value]
      ensures outcome.Failure? ==> reviews == old(reviews)
      ensures old(UniqueIds(reviews)) && FreshId(old(reviews), id) ==> UniqueIds(reviews)
    {
      outcome := Submit(body, decode, id, now);
      if outcome.Success? {
        if UniqueIds(reviews) && FreshId(reviews, id) {
          AppendFreshKeepsIdsUnique(reviews, outcome.value);
        }
        reviews := reviews + [outcome.value];
      }
    }
  }

  /** The records with their sentiment attached at the positions listed in `idx`. */
  function AttachAt(rs: seq<Review>, idx: seq<nat>, analyze: string -> Sentiment): seq<Review> {
    seq(|rs|, i requires 0 <= i < |rs| => if i in idx then WithSentiment(rs[i], analyze) else rs[i])
  }

  /** One more step of the annotating loop attaches the sentiment at one more position. */
  lemma AttachOneMore(rs: seq<Review>, idx: seq<nat>, j: nat, analyze: string -> Sentiment)
    requires j < |idx| && idx[j] < |rs|
    ensures AttachAt(rs, idx[..j + 1], analyze) ==
            AttachAt(rs, idx[..j], analyze)[idx[j] := WithSentiment(AttachAt(rs, idx[..j], analyze)[idx[j]], analyze)]
  {
  }

  /** Attaching at the matched positions is annotating the store for the query. */
  lemma AttachAtMatches(rs: seq<Review>, q: Query, analyze: string -> Sentiment)
    ensures AttachAt(rs, Matches(rs, q)[..|Matches(rs, q)|], analyze) == Annotate(rs, q, analyze)
  {
  }

  /**
   * A record accepted by a submission shows up, with its sentiment, in a
   * later query for its location and in a later query with no location,
   * as long as no date bound is given.
   */
  lemma SubmittedReviewIsFound(rs: seq<Review>, body: seq<bv8>, decode: seq<bv8> -> Option<Params>,
                               id: string, now: DateTime, loc: Option<string>, analyze: string -> Sentiment)
    requires decode(body).Some? ==> WellFormedParams(decode(body).value)
    requires Submit(body, decode, id, now).Success?
    requires loc == None || loc == Some("") || loc == Some(Submit(body, decode, id, now).value.location)
    ensures WithSentiment(Submit(body, decode, id, now).value, analyze)
              in Response(rs + [Submit(body, decode, id, now).value], Query(loc, None, None), analyze)
  {
    var r := Submit(body, decode, id, now).value;
    var rs' := rs + [r];
    assert rs'[|rs|] == r;
    ResponseMembers(rs', Query(loc, None, None), analyze, WithSentiment(r, analyze));
  }
}
