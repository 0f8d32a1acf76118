/** `process_reddit_and_generate_itinerary` in ollam.py: digest the travellers'
    posts for the destination and interests, then generate the itinerary with that
    digest in the prompt. The source calls the asynchronous digest without awaiting
    it, so the prompt receives the text of an unstarted coroutine instead of the
    digest; `AsWritten` models that, `ProcessRedditAndGenerateItinerary` the
    evidently intended composition. */
module Pipeline {
  import opened Wrappers
  import opened Itineraries
  import opened Geocode
  import opened Enrichment
  import opened Generation
  import opened Digest

  /** As written: the prompt embeds `coroutineText`, the printed form of the
      coroutine object (its address varies, so it is a parameter). No search and
      no summary ever runs, so neither is a parameter. */
  function AsWritten(chat: Chat, lookup: string -> GeoResponse, coroutineText: string,
                     destination: string, duration: int, interests: seq<string>)
    : (r: Result<Itinerary, GenerationError>)
    ensures var out := chat(destination, duration, interests, coroutineText);
      && (r.Success? <==> ValidReply(out) && AllLocatable(lookup, Validate(out.decoded.value).value.days))
      && (r.Success? ==> EnrichedFrom(lookup, Validate(out.decoded.value).value.days, r.value.days))
  {
    GenerateItinerary(chat, lookup, destination, duration, interests, coroutineText)
  }

  /** Where the intended composition can fail: the search, or generation. */
  datatype PipelineError =
    | DigestFailed(failure: SearchFailure)
    | GenerationFailed(cause: GenerationError)

  /** Intended: the digest of the posts found for the constructed query is what the
      prompt receives. A failing search is not caught, so it ends the request
      before the model is asked. */
  function ProcessRedditAndGenerateItinerary(chat: Chat, lookup: string -> GeoResponse,
                                             search: Search, summarize: Summarizer,
                                             destination: string, duration: int, interests: seq<string>)
    : (r: Result<Itinerary, PipelineError>)
    ensures var found := search(ConstructQuery(destination, interests), Community, MaxResults);
      && (found.Failure? ==> r == Failure(DigestFailed(found.error)))
      && (found.Success? ==>
            var digest := ProcessSearchAndSummarize(search, summarize, destination, interests).value;
            var out := chat(destination, duration, interests, digest);
            && (r.Success? <==> ValidReply(out) && AllLocatable(lookup, Validate(out.decoded.value).value.days))
            && (r.Success? ==> EnrichedFrom(lookup, Validate(out.decoded.value).value.days, r.value.days))
            && (r.Failure? ==> r.error.GenerationFailed?))
  {
    match ProcessSearchAndSummarize(search, summarize, destination, interests)
    case Failure(e) => Failure(DigestFailed(e))
    case Success(digest) =>
      match GenerateItinerary(chat, lookup, destination, duration, interests, digest)
      case Failure(e) => Failure(GenerationFailed(e))
      case Success(it) => Success(it)
  }

  /** The discrepancy on a concrete input: one post whose summary succeeds gives a
      digest that is that post's bullet, which differs from any printed coroutine,
      so the model is asked with different grounding text than intended. */
  lemma UnawaitedDigestIsLost(search: Search, summarize: Summarizer, p: Post,
                              coroutineText: string, destination: string, interests: seq<string>)
    requires search(ConstructQuery(destination, interests), Community, MaxResults) == Success([p])
    requires Contributes(summarize, p)
    requires |coroutineText| > 0 && coroutineText[0] == '<'
    ensures var digest := ProcessSearchAndSummarize(search, summarize, destination, interests);
      digest == Success(Entry(summarize(ExtractText(p)).value)) && digest.value != coroutineText
  {
    var s := summarize(ExtractText(p)).value;
    assert [p][..0] == [];
    assert Summaries(summarize, [p]) == [s];
    assert Entries([s]) == [Entry(s)];
  }

  /** The outcomes differ too: a model that answers the digest prompt with an
      itinerary without activities, and fails on any other prompt, yields that
      itinerary when the digest is awaited and an error as written. */
  lemma AsWrittenOutcomeDiffers(chat: Chat, lookup: string -> GeoResponse, search: Search, summarize: Summarizer,
                                p: Post, coroutineText: string,
                                destination: string, duration: int, interests: seq<string>)
    requires search(ConstructQuery(destination, interests), Community, MaxResults) == Success([p])
    requires Contributes(summarize, p)
    requires |coroutineText| > 0 && coroutineText[0] == '<'
    requires chat(destination, duration, interests, Entry(summarize(ExtractText(p)).value))
          == Reply(Some(RawItinerary(destination, duration, [])))
    requires chat(destination, duration, interests, coroutineText) == ChatFailed
    ensures AsWritten(chat, lookup, coroutineText, destination, duration, interests) == Failure(ChatError)
    ensures ProcessRedditAndGenerateItinerary(chat, lookup, search, summarize, destination, duration, interests)
         == Success(Itinerary(destination, duration, []))
  {
    UnawaitedDigestIsLost(search, summarize, p, coroutineText, destination, interests);
    assert EnrichDays(lookup, []) == Success([]);
    assert Validate(RawItinerary(destination, duration, [])).value == Itinerary(destination, duration, []);
  }
}
