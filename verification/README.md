# Travel itinerary back end: a Dafny model of its core

The back end asks a language model for a multi-day travel itinerary, loads the
reply into the `Itinerary` / `Day` / `Activity` schema (an activity description
must have at least 50 characters), geocodes every activity by its location name
and fills in its longitude and latitude. Before that, the back end is meant to
build a digest of travellers' posts and put it into the prompt: a search query
from destination and interests, the text of each post (its body, or its title
when the body is empty), a summary per post from the model (posts without text
are skipped, failed summaries are swallowed), and a newline-separated bullet
list of the summaries. As written it never does: the digest is started but never
awaited, so no search or summary runs (see Findings).

This project models those two pure cores with the services as parameters:

- `itinerary.dfy` (module `Itineraries`): the records, the generated reply
  before validation (`RawItinerary`), and schema validation (`Validate`).
- `geocode.dfy` (module `Geocode`): how a geocoding HTTP response becomes a
  coordinate pair or an error (`Interpret`); the service is `lookup`.
- `enrich.dfy` (module `Enrichment`): the enrichment pass as functions
  (`Enrich`) and as the source's nested loop (`EnrichInPlace`), which also
  reports the names sent to the geocoder.
- `generation.dfy` (module `Generation`): `generate_itinerary`, with the model
  call as the parameter `chat`.
- `digest.dfy` (module `Digest`): query, text extraction, the summarising loop
  and the digest; the search and the summariser are parameters.
- `pipeline.dfy` (module `Pipeline`): the composition of digest and generation,
  as written and as intended (see Findings).
- `text.dfy` (module `Text`): Python's `sep.join` and `str.split` on strings,
  with the round trip between them. `wrappers.dfy` holds `Result` and `Option`.

Coordinates are an opaque type: they are only copied, never computed with.

The code checks none of the following, so the model claims none of it:

- The number of days is not compared with `trip_duration`. Days are not
  required to be numbered 1..N. Schedules may be empty (`DayCountNotChecked`).
- Location names may be empty: `ActivityValid` does not look at the name, and
  `LongDescriptionAccepted` holds for every name, the empty one included.
- Coordinates are not always absent after validation. The coordinate fields
  are typed as numbers with default `None`. A reply that omits them gets
  `None`. A reply that gives numbers keeps them. An explicit `null` is a
  validation error (`Field`, `Validate`). Enrichment overwrites all of them on
  success.
- The geocoder is queried with the bare location name (`GeocodeLocation`); the
  destination is not added to it.
- A single failed lookup fails the whole itinerary. No activity is ever left
  without coordinates.
- Digest entries keep post order (`SummariesFollowPosts`); nothing re-sorts or
  de-duplicates them.

## Model

| member | source | states |
|---|---|---|
| Itineraries.Validate | ollam.py:14-27 | loading succeeds exactly when every activity has a description of at least 50 characters and no explicitly null coordinate; otherwise at least one issue is reported; on success the itinerary carries the reply's destination, duration, day numbers, schedule lengths, names and descriptions, with a coordinate exactly where the reply gave one |
| Itineraries.ActivityIssuesSpec | ollam.py:16-18 | an activity yields no issue exactly when it is valid, and each of its issues is a real defect at its own position |
| Itineraries.ScheduleIssuesSound | ollam.py:16-22 | every issue reported for a schedule is a real defect of the activity at its slot |
| Itineraries.ScheduleIssuesComplete | ollam.py:16-22 | every defect of every activity of a schedule is reported |
| Itineraries.ScheduleIssuesSpec | ollam.py:20-22 | a schedule has no issue exactly when each activity is valid; every reported issue names a real defect at a real position, and every defect is reported |
| Itineraries.Issues | ollam.py:24-27 | collects the issues of every day in order; each names a day of the itinerary (its full contract is IssuesSpec) |
| Itineraries.IssuesSound | ollam.py:16-27 | every issue reported for an itinerary is a real defect of the activity at its day and slot |
| Itineraries.IssuesComplete | ollam.py:16-27 | every defect of every activity of an itinerary is reported |
| Itineraries.IssuesSpec | ollam.py:24-27 | the same for a whole itinerary, day by day: no issue exactly when all activities are valid, sound and complete |
| Itineraries.ShortDescriptionRejected | ollam.py:16 | a description under 50 characters makes validation fail, and the error names that day, slot and length |
| Itineraries.LongDescriptionAccepted | ollam.py:16-18 | a one-day reply whose single activity has a description of 50 or more characters and omits both coordinates is accepted, with that activity's name and description and no longitude or latitude |
| Geocode.Interpret | ollam.py:35-45 | a non-200 status is an API error and never coordinates; a transport failure is an error; a 200 response with a missing or empty features list is a no-results error; success happens exactly for a 200 response whose first feature has at least two coordinates, and then longitude is coordinate 0 and latitude coordinate 1 |
| Geocode.GeocodeLocation | ollam.py:29-45 | the service is asked for the bare location name, and its answer alone decides: success exactly for a 200 answer whose first feature has at least two coordinates, which become longitude and latitude; a no-results error names the location |
| Geocode.LaterFeaturesIgnored | ollam.py:37-39 | features after the first never change the outcome |
| Enrichment.EnrichSchedule | ollam.py:188-191 | geocodes one schedule front to back, stopping at the first failing name; a success has one activity per input activity (its full contract is EnrichScheduleSpec) |
| Enrichment.EnrichScheduleSpec | ollam.py:188-191 | a schedule enriches exactly when every name geocodes, and then each activity keeps its name and description and gets the coordinates of its own name, in place |
| Enrichment.EnrichDays | ollam.py:187-191 | enriches the days in order, stopping at the first failing schedule; a success has one day per input day (its full contract is EnrichDaysSucceeds and EnrichDaysInPlace) |
| Enrichment.EnrichDaysSucceeds | ollam.py:187-191 | the days enrich exactly when every activity of every day geocodes |
| Enrichment.EnrichDaysInPlace | ollam.py:187-191 | enriched days keep their count, order, day numbers and schedule lengths, and every activity is located by its own name |
| Enrichment.Enrich | ollam.py:187-191 | the enrichment pass over an itinerary; a success keeps destination, duration and the number of days (its full contract is EnrichSpec) |
| Enrichment.EnrichSpec | ollam.py:185-196 | enrichment succeeds exactly when every activity's own name geocodes, so one failure leaves no itinerary at all; on success destination, duration, days, day numbers, schedules, names and descriptions are preserved and every coordinate equals the geocoder's result for the bare location name |
| Enrichment.AllLocatableNames | ollam.py:187-191 | every activity of the days geocodes exactly when every name, in the order the loop sends them, geocodes |
| Enrichment.EnrichOnlySetsCoordinates | ollam.py:187-191 | clearing all coordinates of the enriched itinerary gives the input with its coordinates cleared: nothing but coordinates changes |
| Enrichment.EnrichScheduleLoop | ollam.py:188-191 | the inner loop computes the schedule's enrichment; the names it sends to the geocoder are a prefix of the schedule's names, all of them on success, otherwise ending with the first failing name, whose error is the result |
| Enrichment.EnrichInPlace | ollam.py:187-196 | the nested loop computes the enrichment; the names sent to the geocoder are, in order, all names on success, otherwise the names up to and including the first failing one, all earlier ones having succeeded and the last one's error being the result |
| Generation.GenerateItinerary | ollam.py:175-196 | generation succeeds exactly when the model replies, the reply decodes and validates, and every activity geocodes; a missing reply, an undecodable reply and an invalid reply (with every issue) are reported as such, a geocoding failure as a geocoding failure (which name failed is stated by Generate), and no partial itinerary is returned; on success the days are the validated days, enriched in place |
| Generation.GeneratedFollowsModel | ollam.py:185-193 | a generated itinerary has the reply's destination, duration, days, day numbers and schedule lengths, and every activity is the reply's activity with the coordinates of its own name, whatever coordinates the model wrote |
| Generation.DayCountNotChecked | ollam.py:20-27 | a reply with one empty day numbered 7 for a three-day trip is returned as it is |
| Generation.Generate | ollam.py:185-196 | no geocoder call is made unless the reply validated; the calls made are a prefix of the activities' names, all of them on success; on a geocoding failure every name sent before the last one geocoded and the last one's error is the reported cause |
| Digest.ConstructQuery | reddit_scraper.py:36-39 | the query is the space-join of "itinerary", the location and the space-join of the interests |
| Digest.QueryWords | reddit_scraper.py:36-39 | with a space-free location and at least one space-free interest, splitting the query at spaces gives back "itinerary", the location and the interests |
| Digest.QueryWithoutInterests | reddit_scraper.py:38-39 | with no interests the query ends in a space |
| Digest.ExtractText | reddit_scraper.py:47-50 | the text is the body when the body is non-empty, otherwise the title; it is empty exactly when both are |
| Digest.SummarizePost | reddit_scraper.py:78-88 | the summariser is called exactly when the post's text is non-empty, and a summary is kept exactly when the text is non-empty and summarising succeeded |
| Digest.SummarizePosts | reddit_scraper.py:76-88 | the loop computes the summaries, and the summariser is called for a post exactly when its text is non-empty |
| Digest.Summaries | reddit_scraper.py:76-88 | the summaries the loop collects, in post order; never more than one per post (its full contract is SummariesFollowPosts) |
| Digest.SummariesAppend | reddit_scraper.py:76-88 | the loop is a fold: the summaries of two batches in a row are those of the first followed by those of the second, so no skipped or failed post stops later ones |
| Digest.SummariesEmpty | reddit_scraper.py:76-88 | no summary is collected exactly when no post both has text and is summarised |
| Digest.PickedIncreasing | reddit_scraper.py:76-88 | the posts behind the summaries are taken in strictly increasing post order |
| Digest.PickedAligned | reddit_scraper.py:79-84 | the j-th summary is the summary of the j-th picked post, and that post has text and was summarised |
| Digest.PickedComplete | reddit_scraper.py:79-84 | every post that has text and is summarised is picked |
| Digest.SummariesFollowPosts | reddit_scraper.py:76-92 | there is exactly one summary per post that has text and is summarised, in post order: the summaries line up with the increasing indices of exactly those posts |
| Digest.Entry | reddit_scraper.py:91 | a bullet starts with "- " and is a single line exactly when the summary's location and description are |
| Digest.DigestText | reddit_scraper.py:90-92 | the digest is empty exactly when there are no summaries |
| Digest.DigestLines | reddit_scraper.py:90-92 | with single-line summaries, splitting the digest at newlines gives exactly one "- location: description" bullet per summary, in order |
| Digest.DigestEndsWithLastEntry | reddit_scraper.py:90-92 | a non-empty digest ends with the last bullet: no trailing newline |
| Digest.DigestStartsWithBullet | reddit_scraper.py:90-92 | a non-empty digest starts with "- " |
| Digest.ProcessSearchAndSummarize | reddit_scraper.py:71-93 | the search is asked for the constructed query in the travel community with a limit of five; a failing search ends the digest with its failure; otherwise the digest is empty exactly when none of the posts found both has text and is summarised |
| Digest.ThreeOfFivePosts | reddit_scraper.py:76-92 | five posts, two without text and three whose summaries are single-line, give a digest of exactly three lines, in post order |
| Text.SplitJoin | reddit_scraper.py:90-92 | joining at a character and splitting at it gives back the parts, when there is at least one part and none contains the character |
| Pipeline.AsWritten | ollam.py:206-212 | as written, generation is asked with the printed coroutine as grounding text: it succeeds exactly when the reply to that prompt validates and geocodes |
| Pipeline.UnawaitedDigestIsLost | ollam.py:206-212 | when the search finds one post that has text and is summarised, the digest is that post's bullet, which differs from every printed coroutine (text starting with '<') the prompt receives as written |
| Pipeline.ProcessRedditAndGenerateItinerary | ollam.py:206-212 | intended composition: a failing search ends the request with that failure before the model is asked; otherwise generation runs on the digest of the posts found and succeeds exactly when the reply to that prompt validates and geocodes, any failure being a generation failure |
| Pipeline.AsWrittenOutcomeDiffers | ollam.py:206-212 | for a model that answers the digest prompt and fails on any other, the intended composition returns the itinerary while the code as written fails |

## Left out

- Prompt text, model names, `ollama.pull`, `ollama.chat` and temperature (ollam.py:50-184, reddit_scraper.py:53-69) are foreign calls. The model call is the parameter `chat`. The summarising call with its JSON decoding is the parameter `summarize`. Each returns a value or a failure.
- The geocoding HTTP request, its URL (the name is not URL-encoded) and the API key lookup (ollam.py:31-34) are network I/O. The response is the parameter `lookup`'s result.
- JSON parsing and pydantic's type coercions are library behaviour. The model starts from already decoded values (`RawItinerary`, `LocationSummary`) or a decoding failure. Error message texts are reduced to error kinds.
- `model_dump` (ollam.py:193) only turns the itinerary into a dictionary. The model returns the `Itinerary` value.
- Reddit authentication, subreddit search and async plumbing (reddit_scraper.py:19-45) are network and async code. The search is the parameter `search`, which returns the posts or a failure. The limit of five posts is passed to it, but nothing checks that the search respects it.
- Digest.ProcessSearchAndSummarize: the `subreddit` and `max_results` parameters (reddit_scraper.py:71) are fixed at their defaults, "travel" and 5, which is what the only caller (ollam.py:208) passes.
- The services `lookup`, `chat` and `summarize` are functions, so the same input always gets the same answer. The source sends a fresh request for every activity (ollam.py:189, 34), and two lookups of the same name can differ there (rate limiting, a transient failure). `EnrichSpec` and `GenerateItinerary` state success in terms of each name's answer, so they rely on this assumption.
- `save_itinerary_to_file` (ollam.py:198-204) is file I/O.
- server.py is not part of this model. It is HTTP routing and error mapping. Note that it awaits the synchronous `process_reddit_and_generate_itinerary`.
- Logging with `print` is left out.
- Conversation and trip-detail extraction have no code in the files modelled.
- Floating-point behaviour of coordinates is left out. Coordinates are opaque and only copied.

## Findings

| source | as written | input that shows it | evidently intended | confidence | as-written member | corrected member |
|---|---|---|---|---|---|---|
| ollam.py:208-212 | the asynchronous `process_search_and_summarize` is called without `await`, so the prompt embeds the printed coroutine object and the posts are never searched or summarised | any request; e.g. a search that returns one post whose summary succeeds: the digest "- location: description" never reaches the prompt | await the digest and pass it as the prompt's grounding text (with the client initialised first, since `self.reddit` is still `None` there) | high, not executed | Pipeline.AsWritten, Pipeline.UnawaitedDigestIsLost, Pipeline.AsWrittenOutcomeDiffers | Pipeline.ProcessRedditAndGenerateItinerary |
