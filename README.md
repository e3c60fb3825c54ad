# pleroma-rss in Dafny

pleroma-rss is a bot that watches RSS feeds and posts their new items to a Pleroma (or other
Megalodon-supported) instance. Every round it checks each configured feed, in order:
- It downloads and parses the feed and dates every item.
- It keeps the items newer than the feed's watermark, the timestamp of the newest item it has
  already handed out.
- It turns each kept item into a status: title, description (without HTML) and decoded link.

It then posts each status, pausing 500 ms after every post, or only prints them in dry-run mode.
The first error ends the round. A request or Megalodon error is reported and the bot tries again
30 seconds later; any other error ends the program.

This project models the core of that behaviour and proves its properties:

- **`Feed::new` / `Feed::check`** (module `RssFeed`). `Feed` is a class whose `lastPost` field
  `Check` updates while it walks the items.
  - `CollectDates` is the eager date pass. It runs over the items in reversed feed order, and one
    bad date fails the whole check before any watermark moves.
  - The filter, map and collect walk follows. The filter keeps an item when its date is strictly
    later than the *running* watermark, and moves the watermark to that date. The map fails at
    the first kept item with no title, link or description.
  - `Check` is proved equal to a specification function `CheckSpec`. The lemmas then show:
    - what is kept: the strict running maxima, in increasing order;
    - which error wins;
    - where the watermark ends;
    - that it never moves back;
    - that a second check of the same items finds nothing.
- **Content shaping** (module `Rss`):
  - the `Content` built from an item;
  - the status body;
  - the base URL handed to the Megalodon client;
  - the preview description cut at the first space from index 320 on;
  - the sequential substitution of the preview template's placeholders;
  - percent-decoding of the link (module `PercentCoding`).
- **`remove_html_tags`** (module `Utils`). It deletes the literals `<br />` and `&quot;` and then
  every `<`…next-`>` span. `str::replace` is modelled in module `Text`.
- **`get_flag`** (module `CliUtils`): a loop over the arguments with its three errors.
- **`Bot::post_new_contents` and `run`** (module `BotLoop`).
  - A `Bot` holds its `Feed` objects.
  - `PostNewContents` runs one round and `Run` runs a sequence of rounds. Each is proved equal
    to a specification function (`Round`, `RunRounds`).
  - Downloads and post answers are inputs. What the bot does is an event trace: `Print`, `Post`,
    `Sleep`, and `Report` for a recoverable error written to standard error.
  - Module `BotLaws` proves the round's and the run's guarantees over those functions.

The modules are `Wrappers`, `Errors`, `Text`, `Utils`, `PercentCoding`, `CliUtils`, `Rss`,
`RssFeed`, `BotLoop` and `BotLaws`, one file each.

## Model

| member | source | states |
|---|---|---|
| `Text.ReplaceAll` | src/utils.rs:5 | `str::replace`: every leftmost, non-overlapping occurrence of the pattern is replaced; its properties are the `Text.ReplaceAll…` lemmas below |
| `Text.ReplaceAllAbsent` | src/utils.rs:5 | `replace` leaves a string in which the pattern never occurs unchanged |
| `Text.ReplaceAllFirst` | src/utils.rs:5 | `replace` is leftmost and non-overlapping: text before the first occurrence is copied, the occurrence is replaced, and scanning resumes after it |
| `Text.ReplaceAllPlainPrefix` | src/bot/rss.rs:119-132 | text free of the pattern's first character passes through `replace` unchanged |
| `Text.ReplaceAllSelf` | src/bot/rss.rs:119-132 | replacing a pattern by itself changes nothing |
| `Text.ReplaceAllEmptySubseq` | src/utils.rs:5 | deleting every occurrence of a pattern leaves a subsequence of the input |
| `Utils.StripTags` | src/utils.rs:4-5 | the `<[^>]*>` pass: each `<` followed later by a `>` is deleted together with everything up to the first such `>`; other text is copied (the `Utils.StripTags…` lemmas) |
| `Utils.RemoveHtmlTags` | src/utils.rs:3-7 | `remove_html_tags`: delete every "<br />", then every "&quot;", then run the tag pass (the `Utils.RemoveHtmlTags…` lemmas) |
| `Utils.StripTagsNoOpen` | src/utils.rs:4-5 | the tag pass leaves text without `<` unchanged |
| `Utils.StripTagsSubseq` | src/utils.rs:4-5 | the tag pass only deletes characters |
| `Utils.StripTagsNoTag` | src/utils.rs:4-5 | after the tag pass no `<` has a `>` anywhere after it |
| `Utils.StripTagsPlainPrefix` | src/utils.rs:4-5 | text before the first `<` is copied by the tag pass |
| `Utils.StripTagsTag` | src/utils.rs:4 | a `<`, a name without `>` and the next `>` are removed as one match |
| `Utils.StripTagsElement` | src/utils.rs:4-5 | `<n>x<m>y` with text free of `<` becomes `xy`, so "<b>Hello</b> &amp; world" keeps its `&amp;` |
| `Utils.RemoveHtmlTagsUnchanged` | src/utils.rs:5 | a text with no `<` and no "&quot;" is returned unchanged |
| `Utils.RemoveHtmlTagsEntities` | src/utils.rs:5 | without `<`, the only change is the deletion of every "&quot;"; other entities stay |
| `Utils.RemoveHtmlTagsSubseq` | src/utils.rs:4-5 | the output is a subsequence of the input, hence never longer |
| `Utils.RemoveHtmlTagsNoTag` | src/utils.rs:4-5 | the output contains no `<` followed anywhere later by `>` |
| `Utils.RemoveHtmlTagsBreak` | src/utils.rs:5 | "a<br />b" becomes "ab" |
| `Utils.RemoveHtmlTagsIsTagPass` | src/utils.rs:5 | with neither literal present only the tag pass acts |
| `Utils.TagPassAlone` | src/utils.rs:4 | the tag pass alone would stop at the `>` of "<br />" and leave "b>" behind |
| `Utils.LiteralsBeforeTags` | src/utils.rs:5 | because the literals go first, `x<a<br />b>y` loses the whole `<ab>` and becomes `xy` |
| `PercentCoding.Decode` | src/bot/rss.rs:208-212 | decoding never lengthens the link |
| `PercentCoding.DecodeEncode` | src/bot/rss.rs:208-212 | decoding inverts percent-encoding of every byte string by `PercentCoding.Encode`, the RFC 3986 section 2.1 encoder it inverts |
| `PercentCoding.DecodePlain` | src/bot/rss.rs:208-212 | a link without `%` is unchanged |
| `PercentCoding.DecodeEscape` | src/bot/rss.rs:208-212 | text before the first escape is copied and `%XX`, in either case, becomes byte 0xXX |
| `PercentCoding.DecodeSpace` | src/bot/rss.rs:208-212 | "%20" decodes to a space |
| `CliUtils.FirstIndex` | src/cli/utils.rs:48-50 | the index of the first occurrence of the flag: it holds the flag and no earlier index does |
| `CliUtils.GetFlag` | src/cli/utils.rs:43-61 | MissingArgument when the flag is absent; UncompletedArgument when its first occurrence is last; otherwise the parse of the element after the first occurrence, or Parsing(flag, message) when that parse fails |
| `Rss.ToContent` | src/bot/rss.rs:204-216 | the map step of `Feed::check`: an item becomes a `Content` or a NoTitle, NoLink or NoDescription error (stated by `Rss.ToContentFields`) |
| `Rss.ToContentFields` | src/bot/rss.rs:204-216 | the error is NoTitle, then NoLink, then NoDescription, each exactly when that field is the first missing; otherwise the title is verbatim, the link decoded, the description stripped of HTML and the media URL kept |
| `Rss.PostBody` | src/bot/rss.rs:71 | the status text: title, a blank line, description, a blank line, link (its lines are stated by `Rss.PostBodyParts`) |
| `Rss.PostBodyParts` | src/bot/rss.rs:71 | the body's first line is the title and its last line the link, when neither contains a line break |
| `Rss.DropLastChar` | src/bot/rss.rs:63-66 | the base URL as written loses exactly its last character, whatever it is |
| `Rss.DropLastCharLosesPath` | src/bot/rss.rs:63-66 | "https://example.com/pleroma" becomes "https://example.com/plerom" |
| `Rss.TrimTrailingSlashes` | src/bot/image.rs:12-16 | the result is the longest prefix that does not end in `/`; only slashes are removed |
| `Rss.TrimAgreesOnOneSlash` | src/bot/rss.rs:62-66 | on a base URL ending in exactly one `/` the corrected trim and the code agree |
| `Rss.TrimAgreesExactly` | src/bot/rss.rs:63-66 | on a non-empty base URL the corrected trim and the code agree iff the URL ends in `/` and the character before it is not `/` |
| `Rss.CutFrom` | src/bot/rss.rs:124-129 | `take_while` stops at the first index ≥ 320 holding a space, or at the end |
| `Rss.PreviewDescription` | src/bot/rss.rs:124-129 | the preview description is a prefix that keeps every character before 320 and stops just before the first space at index 320 or later; a description of at most 320 characters is unchanged |
| `Rss.FillTemplate` | src/bot/rss.rs:119-132 | the preview HTML of `create_preview`: `{{title}}`, `{{description}}` (the cut preview description), `{{link}}` and `{{image-src}}` substituted one after another (stated by the two lemmas below) |
| `Rss.FillTemplateNoPlaceholders` | src/bot/rss.rs:119-132 | a template without `{` is left as it is |
| `Rss.FillTemplateSequential` | src/bot/rss.rs:119-132 | the substitutions are sequential: a title reading "{{link}}" comes out as the link |
| `RssFeed.DatePass` | src/bot/rss.rs:176-189 | the date pass over the items: each is paired with its timestamp, and the first missing or unparsable date is the error (stated by `RssFeed.DatePassSpec`) |
| `RssFeed.Walk` | src/bot/rss.rs:190-228 | the lazy filter, map and collect: an item is kept when newer than the running watermark, which then moves to its date, and the first kept item with a missing field ends it (stated by `RssFeed.WalkOk` and `RssFeed.WalkErr`) |
| `RssFeed.CheckSpec` | src/bot/rss.rs:168-229 | `Feed::check` as a function of the watermark and the download: the download's error, the date pass's error, or the walk (stated by the `RssFeed.Check…` lemmas) |
| `RssFeed.DatePassSpec` | src/bot/rss.rs:176-189 | the date pass succeeds exactly when every date is valid and then pairs each item with its timestamp in order; otherwise the first invalid item decides between NoPublishDate and InvalidPublishDate |
| `RssFeed.DatePassStep` | src/bot/rss.rs:180-189 | proof step: one item of the date pass: a missing or unparsable date ends it with its error, a valid one is paired and the pass goes on |
| `RssFeed.CollectDates` | src/bot/rss.rs:176-189 | the loop over the items from last to first returns the date pass of the reversed items |
| `RssFeed.Feed.constructor` | src/bot/rss.rs:155-164 | the watermark starts at `now` when only new items are wanted, unset otherwise |
| `RssFeed.Feed.Check` | src/bot/rss.rs:168-229 | the returned contents and the new watermark are those of `CheckSpec` from the old watermark |
| `RssFeed.SelectedIncreasing` | src/bot/rss.rs:192-202 | every kept date is new against the starting watermark, and kept dates strictly increase |
| `RssFeed.MarkIsMax` | src/bot/rss.rs:192-202 | the final watermark is unset iff it started unset with no items; otherwise it is the maximum of the start and all dates, attained by one of them |
| `RssFeed.SelectedAppend` | src/bot/rss.rs:192-202 | one more pair is kept exactly when it is new against the watermark so far |
| `RssFeed.SelectedRecords` | src/bot/rss.rs:179-202 | pair `i` is kept exactly when it is new against the watermark and later than every pair before it (a strict record) |
| `RssFeed.WalkOk` | src/bot/rss.rs:190-228 | the walk succeeds iff every kept item has its fields; it then returns their contents in order and leaves the filter's final watermark |
| `RssFeed.WalkErr` | src/bot/rss.rs:204-228 | a failing walk reports the error of the first kept item with a missing field; every earlier kept item was built, and the watermark stops at that item's date |
| `RssFeed.WalkQuiet` | src/bot/rss.rs:192-202 | against a watermark no date exceeds, nothing is kept and the watermark stays |
| `RssFeed.CheckTwice` | src/bot/rss.rs:168-229 | a second check of the same items after a successful one returns nothing and leaves the watermark |
| `RssFeed.CheckWatermark` | src/bot/rss.rs:192-202 | after a successful check the watermark is unset iff it was unset and there were no items; otherwise it is the maximum of the old one and every item's date |
| `RssFeed.CheckMonotone` | src/bot/rss.rs:168-229 | a set watermark never decreases, whatever the check's outcome |
| `RssFeed.CheckDateError` | src/bot/rss.rs:176-189 | a bad date fails the check with the error of the first bad item in reversed order, and the watermark is unchanged |
| `RssFeed.IncreasingAllKept` | src/bot/rss.rs:192-202 | dates rising strictly from a new first one are all kept, and the watermark ends at the last |
| `BotLoop.PostEvent` | src/bot/rss.rs:56-77 | `Content::post`: one post request with the status body, the base URL and the options when `options()` succeeded (stated by `BotLoop.PostEventOptions`; see "## Left out" for the base URL) |
| `BotLoop.Deliver` | src/bot/mod.rs:36-46 | the inner loop over a feed's contents: print each in a dry run, otherwise post each and pause 500 ms, stopping at the first rejected post (stated by `BotLaws.DeliverDryRun` and `BotLaws.DeliverPosts`) |
| `BotLoop.VisitFeed` | src/bot/mod.rs:34-46 | one feed of a round: its check's error ends the visit, otherwise its contents are delivered; the feed keeps its check's watermark either way (stated by `BotLaws.RoundMarks`) |
| `BotLoop.PostEventOptions` | src/bot/rss.rs:70-73 | the post carries the status body, and options exactly when `options()` succeeded; a failure becomes "no options" |
| `BotLoop.RoundOver` | src/bot/mod.rs:34-47 | a round leaves one watermark per feed |
| `BotLoop.Round` | src/bot/mod.rs:31-49 | a round leaves one watermark per feed; each feed's check runs on that feed's own watermark and download |
| `BotLoop.Classify` | src/bot/mod.rs:69-80 | the run continues iff the round passed or failed with RequestError or MegalodonError; otherwise it stops with that error |
| `BotLoop.RunRounds` | src/bot/mod.rs:66-84 | a run leaves one watermark per feed |
| `BotLoop.Pause` | src/bot/mod.rs:71-83 | what `run` adds after a round it survives: the recoverable error written to standard error, if any, then the 30 s sleep (stated by `BotLaws.RunReportsRecoverable` and `BotLoop.RunPassStep`) |
| `BotLoop.Bot.constructor` | src/bot/mod.rs:16-28 | the bot keeps its feeds, dry-run flag and base URL |
| `BotLoop.Bot.DeliverAll` | src/bot/mod.rs:36-46 | the inner loop's events, outcome and post count are those of `Deliver` |
| `BotLoop.Bot.VisitOne` | src/bot/mod.rs:34-46 | one feed: its check's watermark, then either the check's error or the inner loop on its contents |
| `BotLoop.Bot.Advance` | src/bot/mod.rs:34-47 | after feed `i`, either the round has ended as `Round` says, or feed `i` has its new watermark and the rest of the round is still to come |
| `BotLoop.Bot.PostNewContents` | src/bot/mod.rs:31-49 | the events, outcome and every feed's new watermark are those of `Round` from the old watermarks |
| `BotLoop.Bot.Run` | src/bot/mod.rs:53-85 | the events, the fatal error if any and the final watermarks are those of `RunRounds` |
| `BotLoop.DeliverPrintStep` | src/bot/mod.rs:38-40 | proof step: a dry-run step prints the content and goes on |
| `BotLoop.DeliverPostStep` | src/bot/mod.rs:41-45 | proof step: a post attempt is recorded; a failed one ends the delivery with its error, a successful one is followed by the 500 ms pause |
| `BotLoop.RoundFailStep` | src/bot/mod.rs:36-42 | proof step: a failing feed ends the round with its events, the watermark its check left, and the later feeds unchanged |
| `BotLoop.RoundPassStep` | src/bot/mod.rs:34-47 | proof step: a passing feed hands the round on to the next feed |
| `BotLoop.RunStopStep` | src/bot/mod.rs:79 | proof step: a round whose error is fatal ends the run with that error |
| `BotLoop.RunPassStep` | src/bot/mod.rs:69-83 | proof step: a passing or recoverably failing round is followed by the 30 s pause and the next round |
| `BotLaws.DeliverDryRun` | src/bot/mod.rs:38-40 | a dry run prints every content in order, makes no post attempt and passes |
| `BotLaws.PostPairs` | src/bot/mod.rs:41-45 | posting `n` contents with their pauses produces `2n` events |
| `BotLaws.PostPairsAt` | src/bot/mod.rs:41-45 | content `j` is posted at event `2j`, with attempt `k + j`'s options, and the 500 ms pause follows it |
| `BotLaws.PostedAsCons` | src/bot/mod.rs:41-45 | an accepted first post and its pause, in front of a delivery of the rest, give a delivery of that shape |
| `BotLaws.DeliverPosts` | src/bot/mod.rs:36-46 | posting for real: when it passes, every content is posted in order, each followed by the pause, and every attempt was accepted; otherwise it stops with the first rejected post as last event, and its error is the outcome |
| `BotLaws.RoundDryRun` | src/bot/mod.rs:34-47 | a dry round only prints; it passes iff every check succeeds, and a failure carries the error of the first failing check |
| `BotLaws.PostPairsAppend` | src/bot/mod.rs:36-46 | posting two runs of contents one after the other is posting their concatenation, attempt numbers continuing |
| `BotLaws.FailedAtCons` | src/bot/mod.rs:34-47 | proof step: a feed whose contents were all posted goes in front of a round stopped at a later feed |
| `BotLaws.RoundPostedCons` | src/bot/mod.rs:34-47 | proof step: the same for any posting round |
| `BotLaws.FailedAtFirst` | src/bot/mod.rs:36-42 | proof step: a round whose first feed fails stopped there |
| `BotLaws.RoundPosts` | src/bot/mod.rs:31-49 | a posting round passes only when every check succeeded, and then posts every content found, feed after feed, each followed by the pause; a failing round stopped at some feed `i`: every earlier check succeeded and all its contents were posted, then either feed `i`'s check failed and its error is the round's with nothing after, or its delivery failed at a post (whose status is the error, by `BotLaws.DeliverPosts`); feeds up to `i` carry their checks' watermarks and the later feeds keep theirs |
| `BotLaws.RoundQuietStep` | src/bot/mod.rs:34-47 | proof step: a feed whose check finds nothing and keeps its watermark adds nothing |
| `BotLaws.CombineQuiet` | src/bot/mod.rs:34-47 | proof step: two runs of quiet feeds in a row are one |
| `BotLaws.RoundQuietPrefix` | src/bot/mod.rs:34-47 | leading feeds whose checks find nothing and keep their watermarks add no event, and the round is the round over the remaining feeds |
| `BotLaws.RoundAfterFailedPost` | src/bot/mod.rs:31-49 | after a round that stopped at a rejected post of feed `i`, a round over the same downloads emits nothing for feeds 0 to `i`, which keep their watermarks, so their contents left unposted are not posted again; it is exactly the round over the later feeds |
| `BotLaws.RoundMarks` | src/bot/mod.rs:34-42 | the feeds the round reached carry the watermarks their checks left, even when a later post or feed failed; the others keep theirs |
| `BotLaws.RoundQuiet` | src/bot/mod.rs:34-47 | when every check finds nothing and keeps its watermark, the round does nothing |
| `BotLaws.RoundAgainQuiet` | src/bot/mod.rs:31-49 | nothing is posted twice: a round over the same downloads right after a passing round prints, posts and moves nothing |
| `BotLaws.DeliverNoReport` | src/bot/mod.rs:36-46 | handling contents never reports an error |
| `BotLaws.RoundNoReport` | src/bot/mod.rs:31-49 | a round only prints, posts and sleeps |
| `BotLaws.RunReports` | src/bot/mod.rs:69-80 | the run reports only recoverable errors, and it stops only on an error that is not recoverable |
| `BotLaws.RunReportsRecoverable` | src/bot/mod.rs:69-83 | conversely, a round that fails with RequestError or MegalodonError has its error reported, followed by the 30 s pause and the rest of the run |

## Left out

- Downloading and parsing a feed (src/bot/rss.rs:170-172) is an input of `Feed.Check`: either the parsed items or the RequestError or RssError it produced.
- RFC 2822 date parsing is abstracted to a date status that is missing, invalid or a Unix timestamp. The `timestamp() as u64` cast of dates before 1970 is not modelled: timestamps are `nat`.
- The clock read of `Feed::new` is the constructor's `now` parameter.
- Each post attempt's result is an input, `Remote`:
  - `options()` is the `options` answer. This covers the preview image and its media upload: template file reading, the wkhtmltoimage process, file removal and src/bot/image.rs.
  - The Megalodon client and its `post_status` call give the `status` answer.

  Only the template substitution of `create_preview` is modelled, as `Rss.FillTemplate`.
- BotLoop.PostEvent: the post event records the base URL trimmed by the corrected `Rss.TrimTrailingSlashes`, not by the as-written `Rss.DropLastChar` (see "## Findings"), so `BotLoop.Deliver`, `BotLoop.Round`, `BotLoop.RunRounds`, `BotLoop.Bot.PostNewContents` and `BotLoop.Bot.Run` describe the corrected program. By `Rss.TrimAgreesExactly` the two agree exactly when the URL ends in a single `/`.
- BotLoop.Deliver: the model lets a failed post carry any error. The source only produces MegalodonError there, so the model's claims cover more cases than occur.
- src/bot/image.rs:23-26 treats an asynchronous media upload as unreachable; there is no polling or retry loop, so none is modelled.
- Only "&quot;" is deleted (src/utils.rs:5); other entities such as "&amp;" stay, as `Utils.StripTagsElement` shows.
- Percent-decoding works on characters 0..255 as bytes. The UTF-8 reassembly of multi-byte characters, and the `unwrap` panic on invalid UTF-8 (src/bot/rss.rs:212), are not modelled.
- `PercentCoding.Encode` is not part of the source. It is the RFC 3986 encoder that `Decode` is proved to invert.
- The regular expression of `remove_html_tags` is modelled by the left-to-right scanner `Utils.StripTags`, not by a regex engine.
- The random uuid of `Content::new` names only the preview files, so it is not modelled.
- Logging and the dry run's `println!` are not modelled except as `Print` events. The tokio runtime's sleeps become `Sleep` events.
- `run` loops forever. The model runs it over a finite sequence of rounds and ends when the inputs end.
- Setting up `run` and its possible errors are not modelled: building the configuration and `utils::parse_feeds` (which is not part of this model). `Bot::new` is `BotLoop.Bot.constructor`, given the feeds already built.
- `FromStr` in `get_flag` is a parameter: a partial parse returning a value or an error message.
- The CLI parser (src/cli/parser.rs), src/main.rs, src/config.rs and the help and version texts of src/cli/utils.rs are outside the core.

## Findings

| source | as written | input that shows it | evidently intended | confidence | as-written member | corrected member |
|---|---|---|---|---|---|---|
| src/bot/rss.rs:63-66 | the base URL handed to the Megalodon client loses its last character, whatever it is | the base URL "https://example.com/pleroma" gives "https://example.com/plerom" | remove the trailing slash, as src/bot/image.rs:15 does with `trim_end_matches('/')` | not executed | `Rss.DropLastCharLosesPath` | `Rss.TrimTrailingSlashes` |

Every post event is built with the corrected `Rss.TrimTrailingSlashes`. `Rss.TrimAgreesExactly` proves that it agrees with the code exactly when the URL ends in one slash not preceded by another. That is the usual case, since the URL parser serialises an empty path as "/".
