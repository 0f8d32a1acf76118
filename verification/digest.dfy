/** The digest of travellers' posts built by `RedditSummarizer` in
    reddit_scraper.py: the search query, the text taken from each post, the
    per-post summaries (skipping posts without text and swallowing failed
    summaries) and the bullet list they are joined into. The post search and the
    summarising model are parameters. */
module Digest {
  import opened Wrappers
  import opened Text

  datatype Post = Post(title: string, selftext: string)

  datatype LocationSummary = LocationSummary(location: string, description: string)

  /** Why a post produced no summary: the model call failed, its reply was not
      JSON, or the JSON did not have the `LocationSummary` fields. */
  datatype SummaryFailure = SummaryCallFailed | NotJson | NotLocationSummary

  /** The model call, JSON decoding and schema check for one post's text. */
  type Summarizer = string -> Result<LocationSummary, SummaryFailure>

  /** The search raised (no connected client, a network or credentials error).
      Nothing catches it, so it ends the whole digest. */
  datatype SearchFailure = SearchFailed

  /** The post search, from query, community name and result limit to the posts
      found, or the failure it raised. */
  type Search = (string, string, nat) -> Result<seq<Post>, SearchFailure>

  const Community := "travel"
  const MaxResults: nat := 5

  /** The search query: the word "itinerary", the location, then the interests
      separated by single spaces. */
  function ConstructQuery(location: string, interests: seq<string>): (q: string)
    ensures q == Join(["itinerary", location, Join(interests, " ")], " ")
  {
    "itinerary " + location + " " + Join(interests, " ")
  }

  /** With a space-free location and at least one space-free interest, the query's
      words are exactly "itinerary", the location and the interests, in order. */
  lemma QueryWords(location: string, interests: seq<string>)
    requires |interests| > 0
    requires ' ' !in location && Free(interests, ' ')
    ensures Split(ConstructQuery(location, interests), ' ') == ["itinerary", location] + interests
  {
    JoinAppend(["itinerary", location], interests, " ");
    assert Join(["itinerary", location], " ") == "itinerary " + location;
    var words := ["itinerary", location] + interests;
    assert Free(words, ' ') by {
      forall i | 0 <= i < |words| ensures ' ' !in words[i] {
        if i >= 2 { assert words[i] == interests[i - 2]; }
      }
    }
    SplitJoin(words, ' ');
  }

  /** With no interests the query keeps its separator: it ends with a space. */
  lemma QueryWithoutInterests(location: string)
    ensures ConstructQuery(location, []) == "itinerary " + location + " "
  {
  }

  /** The post's text: its body when that is non-empty, otherwise its title. */
  function ExtractText(p: Post): (t: string)
    ensures |p.selftext| > 0 ==> t == p.selftext
    ensures |p.selftext| == 0 ==> t == p.title
    ensures |t| == 0 <==> |p.selftext| == 0 && |p.title| == 0
  {
    if |p.selftext| > 0 then p.selftext else p.title
  }

  /** The post has text and its summary succeeded. */
  predicate Contributes(summarize: Summarizer, p: Post)
  {
    |ExtractText(p)| > 0 && summarize(ExtractText(p)).Success?
  }

  /** The summaries collected by the loop over the posts, in post order. */
  function Summaries(summarize: Summarizer, posts: seq<Post>): (r: seq<LocationSummary>)
    ensures |r| <= |posts|
    decreases |posts|
  {
    if |posts| == 0 then []
    else
      var n := |posts| - 1;
      var p := posts[n];
      Summaries(summarize, posts[..n])
        + (if Contributes(summarize, p) then [summarize(ExtractText(p)).value] else [])
  }

  /** The loop is a fold: processing two batches of posts one after the other gives
      the summaries of the first followed by those of the second, so a skipped or
      failed post never stops the ones after it. */
  lemma {:induction false} SummariesAppend(summarize: Summarizer, a: seq<Post>, b: seq<Post>)
    ensures Summaries(summarize, a + b) == Summaries(summarize, a) + Summaries(summarize, b)
    decreases |b|
  {
    if |b| > 0 {
      var n := |b| - 1;
      var p := b[n];
      var tail := if Contributes(summarize, p) then [summarize(ExtractText(p)).value] else [];
      assert (a + b)[..|a| + n] == a + b[..n];
      assert (a + b)[|a| + n] == p;
      assert Summaries(summarize, a + b) == Summaries(summarize, a + b[..n]) + tail;
      assert Summaries(summarize, b) == Summaries(summarize, b[..n]) + tail;
      SummariesAppend(summarize, a, b[..n]);
    } else {
      assert a + b == a;
    }
  }

  /** The loop collects nothing exactly when no post both has text and is summarised. */
  lemma {:induction false} SummariesEmpty(summarize: Summarizer, posts: seq<Post>)
    ensures |Summaries(summarize, posts)| == 0 <==> forall i :: 0 <= i < |posts| ==> !Contributes(summarize, posts[i])
    decreases |posts|
  {
    if |posts| > 0 {
      var n := |posts| - 1;
      var tail := if Contributes(summarize, posts[n]) then [summarize(ExtractText(posts[n])).value] else [];
      assert Summaries(summarize, posts) == Summaries(summarize, posts[..n]) + tail;
      SummariesEmpty(summarize, posts[..n]);
      assert forall i :: 0 <= i < n ==> posts[..n][i] == posts[i];
    }
  }

  /** One more post: the summaries so far, then that post's summary if it yields one. */
  lemma SummariesStep(summarize: Summarizer, posts: seq<Post>, i: nat)
    requires i < |posts|
    ensures Summaries(summarize, posts[..i + 1]) == Summaries(summarize, posts[..i])
      + (if Contributes(summarize, posts[i]) then [summarize(ExtractText(posts[i])).value] else [])
  {
    assert posts[..i + 1][..i] == posts[..i];
  }

  /** The body of the loop for one post: whether its text was sent to the
      summariser, and the summary it contributes, if any. */
  method SummarizePost(summarize: Summarizer, p: Post) returns (called: bool, summary: Option<LocationSummary>)
    ensures called <==> |ExtractText(p)| > 0
    ensures summary.Some? <==> Contributes(summarize, p)
    ensures summary.Some? ==> summary.value == summarize(ExtractText(p)).value
  {
    var text := ExtractText(p);
    called, summary := false, None;
    if |text| > 0 {
      called := true;
      var s := summarize(text);
      if s.Success? {
        summary := Some(s.value);
      }
    }
  }

  /** The loop of `process_search_and_summarize`. Besides the summaries it returns
      `called`, which says of each post whether its text was sent to the summariser. */
  method SummarizePosts(summarize: Summarizer, posts: seq<Post>)
    returns (summaries: seq<LocationSummary>, called: seq<bool>)
    ensures summaries == Summaries(summarize, posts)
    ensures |called| == |posts|
    ensures forall i :: 0 <= i < |posts| ==> (called[i] <==> |ExtractText(posts[i])| > 0)
  {
    summaries, called := [], [];
    var i := 0;
    while i < |posts|
      invariant 0 <= i <= |posts|
      invariant summaries == Summaries(summarize, posts[..i])
      invariant |called| == i
      invariant forall x :: 0 <= x < i ==> (called[x] <==> |ExtractText(posts[x])| > 0)
    {
      SummariesStep(summarize, posts, i);
      var sent, summary := SummarizePost(summarize, posts[i]);
      called := called + [sent];
      if summary.Some? {
        summaries := summaries + [summary.value];
      }
      i := i + 1;
    }
    assert posts[..i] == posts;
  }

  /** The index of the post behind each summary, in order. */
  function Picked(summarize: Summarizer, posts: seq<Post>): seq<nat>
    decreases |posts|
  {
    if |posts| == 0 then []
    else
      var n := |posts| - 1;
      Picked(summarize, posts[..n]) + (if Contributes(summarize, posts[n]) then [n] else [])
  }

  /** Every picked index is a post, and the picked indices strictly increase. */
  lemma {:induction false} PickedIncreasing(summarize: Summarizer, posts: seq<Post>)
    ensures forall j :: 0 <= j < |Picked(summarize, posts)| ==> Picked(summarize, posts)[j] < |posts|
    ensures forall j, k :: 0 <= j < k < |Picked(summarize, posts)| ==>
      Picked(summarize, posts)[j] < Picked(summarize, posts)[k]
    decreases |posts|
  {
    if |posts| > 0 {
      var n := |posts| - 1;
      PickedIncreasing(summarize, posts[..n]);
      var picked0 := Picked(summarize, posts[..n]);
      assert forall j :: 0 <= j < |picked0| ==> picked0[j] < n;
      if Contributes(summarize, posts[n]) {
        var picked := picked0 + [n];
        assert Picked(summarize, posts) == picked;
        forall j, k | 0 <= j < k < |picked| ensures picked[j] < picked[k] {
          if k == |picked0| { assert picked[j] == picked0[j]; }
        }
      } else {
        assert Picked(summarize, posts) == picked0;
      }
    }
  }

  /** The j-th summary comes from the j-th picked post, which contributes. */
  lemma {:induction false} PickedAligned(summarize: Summarizer, posts: seq<Post>)
    ensures var picked, summaries := Picked(summarize, posts), Summaries(summarize, posts);
      && |picked| == |summaries|
      && forall j :: 0 <= j < |picked| ==>
           && picked[j] < |posts| && Contributes(summarize, posts[picked[j]])
           && summaries[j] == summarize(ExtractText(posts[picked[j]])).value
    decreases |posts|
  {
    if |posts| > 0 {
      var n := |posts| - 1;
      var pre := posts[..n];
      PickedAligned(summarize, pre);
      assert forall i :: 0 <= i < n ==> pre[i] == posts[i];
      var tail := if Contributes(summarize, posts[n]) then [summarize(ExtractText(posts[n])).value] else [];
      assert Summaries(summarize, posts) == Summaries(summarize, pre) + tail;
    }
  }

  /** Every post that contributes is picked. */
  lemma {:induction false} PickedComplete(summarize: Summarizer, posts: seq<Post>)
    ensures forall i :: 0 <= i < |posts| && Contributes(summarize, posts[i]) ==> i in Picked(summarize, posts)
    decreases |posts|
  {
    if |posts| > 0 {
      var n := |posts| - 1;
      var pre := posts[..n];
      PickedComplete(summarize, pre);
      assert forall i :: 0 <= i < n ==> pre[i] == posts[i];
    }
  }

  /** Exactly one summary per post that has text and is summarised, in post order:
      the summaries line up with the increasing indices of exactly those posts. */
  lemma {:induction false} SummariesFollowPosts(summarize: Summarizer, posts: seq<Post>)
    ensures var picked, summaries := Picked(summarize, posts), Summaries(summarize, posts);
      && |picked| == |summaries|
      && (forall j, k :: 0 <= j < k < |picked| ==> picked[j] < picked[k])
      && (forall j :: 0 <= j < |picked| ==>
            && picked[j] < |posts| && Contributes(summarize, posts[picked[j]])
            && summaries[j] == summarize(ExtractText(posts[picked[j]])).value)
      && (forall i :: 0 <= i < |posts| && Contributes(summarize, posts[i]) ==> i in picked)
  {
    PickedIncreasing(summarize, posts);
    PickedAligned(summarize, posts);
    PickedComplete(summarize, posts);
  }

  /** One bullet of the digest: it starts with the bullet marker, and it is a
      single line exactly when both fields are. */
  function Entry(s: LocationSummary): (e: string)
    ensures |e| >= 2 && e[..2] == "- "
    ensures '\n' !in e <==> '\n' !in s.location && '\n' !in s.description
  {
    "- " + s.location + ": " + s.description
  }

  function Entries(summaries: seq<LocationSummary>): (r: seq<string>)
    ensures |r| == |summaries|
  {
    seq(|summaries|, i requires 0 <= i < |summaries| => Entry(summaries[i]))
  }

  /** The digest: the bullets joined by single newlines; empty without summaries. */
  function DigestText(summaries: seq<LocationSummary>): (d: string)
    ensures d == "" <==> |summaries| == 0
  {
    var es := Entries(summaries);
    assert |es| > 0 ==> es[0] == Entry(summaries[0]);
    Join(es, "\n")
  }

  /** No field of any summary contains a line break. */
  predicate SingleLine(summaries: seq<LocationSummary>)
  {
    forall i :: 0 <= i < |summaries| ==>
      '\n' !in summaries[i].location && '\n' !in summaries[i].description
  }

  /** The digest has exactly one line per summary, in order, each the summary's
      bullet, as long as the summaries are single-line. */
  lemma DigestLines(summaries: seq<LocationSummary>)
    requires |summaries| > 0
    requires SingleLine(summaries)
    ensures Split(DigestText(summaries), '\n') == Entries(summaries)
  {
    var es := Entries(summaries);
    assert Free(es, '\n') by {
      forall i | 0 <= i < |es| ensures '\n' !in es[i] {
        assert es[i] == "- " + summaries[i].location + ": " + summaries[i].description;
      }
    }
    SplitJoin(es, '\n');
  }

  /** A non-empty digest ends with the last summary's bullet: no newline trails it. */
  lemma DigestEndsWithLastEntry(summaries: seq<LocationSummary>)
    requires |summaries| > 0
    ensures var d := DigestText(summaries);
      var last := Entry(summaries[|summaries| - 1]);
      |d| >= |last| && d[|d| - |last|..] == last
  {
    JoinEndsWithLast(Entries(summaries), "\n");
  }

  /** A non-empty digest starts with the first bullet's marker, so it is never empty. */
  lemma DigestStartsWithBullet(summaries: seq<LocationSummary>)
    requires |summaries| > 0
    ensures var d := DigestText(summaries); |d| >= 2 && d[..2] == "- "
  {
    var es := Entries(summaries);
    assert es[0] == "- " + summaries[0].location + ": " + summaries[0].description;
  }

  /** `process_search_and_summarize`: search with the constructed query in the
      travel community for at most five posts, and digest what they yield. A
      failing search ends it with that failure. */
  function ProcessSearchAndSummarize(search: Search, summarize: Summarizer,
                                     location: string, interests: seq<string>): (r: Result<string, SearchFailure>)
    ensures var found := search(ConstructQuery(location, interests), Community, MaxResults);
      && (found.Failure? ==> r == Failure(found.error))
      && (found.Success? ==>
            && r.Success?
            && (r.value == "" <==> forall i :: 0 <= i < |found.value| ==> !Contributes(summarize, found.value[i])))
  {
    match search(ConstructQuery(location, interests), Community, MaxResults)
    case Failure(e) => Failure(e)
    case Success(posts) =>
      SummariesEmpty(summarize, posts);
      Success(DigestText(Summaries(summarize, posts)))
  }

  /** Five posts, two without any text and three whose single-line summaries
      succeed, give a digest of exactly three lines, in post order. */
  lemma ThreeOfFivePosts(summarize: Summarizer, p1: Post, p2: Post, p3: Post, e1: Post, e2: Post)
    requires |ExtractText(e1)| == 0 && |ExtractText(e2)| == 0
    requires Contributes(summarize, p1) && Contributes(summarize, p2) && Contributes(summarize, p3)
    requires SingleLine([summarize(ExtractText(p1)).value, summarize(ExtractText(p2)).value,
                         summarize(ExtractText(p3)).value])
    ensures var lines := Split(DigestText(Summaries(summarize, [p1, e1, p2, e2, p3])), '\n');
      lines == [Entry(summarize(ExtractText(p1)).value), Entry(summarize(ExtractText(p2)).value),
                Entry(summarize(ExtractText(p3)).value)]
  {
    var s1, s2, s3 := summarize(ExtractText(p1)).value, summarize(ExtractText(p2)).value,
                      summarize(ExtractText(p3)).value;
    SummariesAppend(summarize, [p1, e1], [p2, e2, p3]);
    SummariesAppend(summarize, [p1], [e1]);
    SummariesAppend(summarize, [p2, e2], [p3]);
    SummariesAppend(summarize, [p2], [e2]);
    assert [p1] + [e1] == [p1, e1];
    assert [p2] + [e2] == [p2, e2];
    assert [p2, e2] + [p3] == [p2, e2, p3];
    assert [p1, e1] + [p2, e2, p3] == [p1, e1, p2, e2, p3];
    assert [p1][..0] == [] && [e1][..0] == [] && [p2][..0] == [] && [e2][..0] == [] && [p3][..0] == [];
    assert Summaries(summarize, [p1, e1, p2, e2, p3]) == [s1, s2, s3];
    DigestLines([s1, s2, s3]);
  }
}
