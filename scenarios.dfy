/** Concrete requests worked through the model. */
module Scenarios {
  import opened Wrappers
  import opened DateTimes
  import opened Reviews
  import opened Submission
  import opened QueryEngine
  import Ranking

  /** A form carrying an allowed location and a text is accepted as that record. */
  lemma AcceptedSubmission(body: seq<bv8>, decode: seq<bv8> -> Option<Params>, id: string, now: DateTime)
    requires body != []
    requires decode(body) == Some(map["Location" := ["Denver, Colorado"], "ReviewBody" := ["This place is amazing!"]])
    ensures Submit(body, decode, id, now) ==
            Success(Review(id, "This place is amazing!", "Denver, Colorado", now, None))
  {
  }

  /** An empty body is refused before it is decoded. */
  lemma EmptySubmission(decode: seq<bv8> -> Option<Params>, id: string, now: DateTime)
    requires decode([]).Some? ==> WellFormedParams(decode([]).value)
    ensures Submit([], decode, id, now).Failure?
    ensures Message(Submit([], decode, id, now).error) == "Empty request body."
  {
  }

  /** A location outside the allowed list is refused as a missing field. */
  lemma UnknownLocationSubmission(body: seq<bv8>, decode: seq<bv8> -> Option<Params>, id: string, now: DateTime)
    requires body != []
    requires decode(body) == Some(map["Location" := ["Nowhere"], "ReviewBody" := ["Fine."]])
    ensures Submit(body, decode, id, now).Failure?
    ensures Message(Submit(body, decode, id, now).error) == "Location and ReviewBody are required."
  {
  }

  /** Three records of one location, none yet scored. */
  function Sample(t: DateTime): seq<Review> {
    [Review("1", "Loved it", "Denver, Colorado", t, None),
     Review("2", "Awful", "Denver, Colorado", t, None),
     Review("3", "It was fine", "Denver, Colorado", t, None)]
  }

  /** A query for their location selects all three, in store order. */
  lemma SampleFiltered(analyze: string -> Sentiment, t: DateTime)
    ensures Filtered(Annotate(Sample(t), Query(Some("Denver, Colorado"), None, None), analyze),
                     Query(Some("Denver, Colorado"), None, None)) ==
            Annotate(Sample(t), Query(Some("Denver, Colorado"), None, None), analyze)
  {
    var q := Query(Some("Denver, Colorado"), None, None);
    var a := Annotate(Sample(t), q, analyze);
    assert |a| == 3 && Selected(q, a[0]) && Selected(q, a[1]) && Selected(q, a[2]);
    FilteredAll(a, q);
  }

  /** Three elements scoring 0.8, -0.5 and 0.1 are ranked 0.8, 0.1, -0.5. */
  lemma ThreeRanked<T>(key: T -> real, s1: T, s2: T, s3: T)
    requires key(s1) == 0.8 && key(s2) == -0.5 && key(s3) == 0.1
    ensures Ranking.SortDesc(key, [s1, s2, s3]) == [s1, s3, s2]
  {
    assert [s3][1..] == [];
    assert Ranking.SortDesc(key, [s3]) == [s3];
    assert Ranking.Insert(key, s2, []) == [s2];
    assert Ranking.Insert(key, s2, [s3]) == [s3] + Ranking.Insert(key, s2, [s3][1..]);
    assert [s2, s3][1..] == [s3];
    assert Ranking.SortDesc(key, [s2, s3]) == [s3, s2];
    assert Ranking.Insert(key, s1, [s3, s2]) == [s1, s3, s2];
    assert [s1, s2, s3][1..] == [s2, s3];
  }

  /**
   * A query for one location over three of its records scoring 0.8, -0.5
   * and 0.1 returns them ordered 0.8, 0.1, -0.5, each with its sentiment.
   */
  lemma RankingExample(analyze: string -> Sentiment, t: DateTime)
    requires analyze("Loved it").compound == 0.8
    requires analyze("Awful").compound == -0.5
    requires analyze("It was fine").compound == 0.1
    ensures Response(Sample(t), Query(Some("Denver, Colorado"), None, None), analyze) ==
            [WithSentiment(Sample(t)[0], analyze), WithSentiment(Sample(t)[2], analyze),
             WithSentiment(Sample(t)[1], analyze)]
  {
    var q := Query(Some("Denver, Colorado"), None, None);
    var a := Annotate(Sample(t), q, analyze);
    SampleFiltered(analyze, t);
    assert a == [WithSentiment(Sample(t)[0], analyze), WithSentiment(Sample(t)[1], analyze),
                 WithSentiment(Sample(t)[2], analyze)];
    ThreeRanked(Compound(analyze), a[0], a[1], a[2]);
  }
}
