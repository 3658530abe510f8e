# Word-to-channel publisher, modelled in Dafny

The repository reads a Word document and extracts one section per "Heading 4"
block: the heading's text, the body paragraphs under it and the images embedded
in them. It then republishes every section to a Telegram channel and to a Bale
channel. Text that is too long for one message or caption is split into chunks,
and each platform's flood control ("Retry in N seconds") is handled with a wait
and a resend.

The model covers:

- **Text** (`text.dfy`): the string primitives the code leans on.
  - `str.strip` and `str.split(" ")` and its inverse `join`.
  - The `\d+` match and `int()`.
- **Chunkers**.
  - `word_chunker.dfy`: the word-boundary splitter with continuation markers, from `Bale_Bot.py` and `telegram_bot.py`. The greedy grouping is a fold over the words; the method `SplitChunks` runs it as a loop.
  - `fixed_chunker.dfy`: the fixed-width slicer of `telegram_bot-backup.py`.
- **Retry time** (`retry_time.dfy`): `_parse_retry_time` of both bots, as a left-to-right regular-expression search.
  - Telegram's pattern is `Retry in (\d+) seconds`, falling back to 5.
  - Bale's pattern is `Retry in (\d+)`, falling back to 0.
- **The platform** (`channel.dfy`): a value `World(script, log)`.
  - Every SDK call consumes the next scripted outcome. Once the script is used up, every call succeeds.
  - Every attempt and every `asyncio.sleep` is appended to the log.
  - `Delivered(log)` is what the platform accepted, in order.
- **Telegram adapter** (`flood_control.dfy`, `telegram_bot.dfy`).
  - `_safe_send_message` and `_safe_send_photo`: the unbounded resend loop.
  - `send_message` and `send_message_with_images`.
  - Both `telegram_bot.py` and `telegram_bot-backup.py` are covered, through a configuration that chooses the splitter and the text-only limit.
- **Bale adapter** (`bale_bot.dfy`): `split_text`, `run`, `send_text_message`, `send_photo_with_caption` and `send_batch_messages`.
  - `send_text_message` resends only once.
  - `send_photo_with_caption` restarts itself after flood control.
  - `send_batch_messages` works in slices.
- **Extraction** (`docx.dfy`, `extract_content.dfy`, `extract_content_headings.dfy`).
  - The two versions of `extract_headings_content_with_images`, each as a fold `Run` over the paragraphs.
  - A loop method that is proved equal to the fold.
  - Image files are numbered `extracted_images/image_<n>.<ext>`.
- **Orchestration** (`delivery.dfy`): `main.py`.
  - Extraction, then every section to Telegram, then every section to Bale.
  - The Bale image loop is proved to follow a plan: the usable images, with the text only on the first.

Where the code and its documentation disagree, the model follows the code:

- `extract_content.py`: its docstring (lines 17-18) says Heading 2 and Heading 3 stop a section.
  - In the code, only Heading 1 and Heading 4 close one. Heading 2 and Heading 3 paragraphs are body text (`ExtractContent.SubheadingIsBody`).
  - A section closed by a Heading 1 is prefixed with that new heading, which line 36 assigns before line 40 uses it, not the one above the section (`ExtractContent.NextHeadingPrefix`).
  - A section closed by a Heading 4 gets the prefix `#` + heading.
- Sends that fail without flood control.
  - Telegram's `_safe_send_*` re-raises them. `send_message` then drops the rest of that text, and `send_message_with_images` goes on with the next image without clearing the caption.
  - An image that cannot be opened escapes `send_message_with_images`, and `main.py` then stops sending to Telegram altogether (`Delivery.TelegramRaises`).
  - Bale's `send_text_message` only prints them.
- Pacing and retries.
  - Telegram has no pause between chunks.
  - Bale sleeps one second after every chunk, but retries a text message only once.

## Model

| member | source | states |
|---|---|---|
| Text.Strip | Bale_Bot.py:39 | the result is no longer than the input and neither starts nor ends with whitespace |
| Text.StripMargins | Bale_Bot.py:39 | the result is a slice of the input with only whitespace cut before and after it; with the ends above, the margins cut are the longest |
| Text.StripAfterWord | Bale_Bot.py:40 | a chunk that opens with the start marker keeps it whole when stripped; only its tail is trimmed |
| Text.Split | Bale_Bot.py:34 | `split(" ")` gives at least one piece and no piece contains the separator |
| Text.JoinSplit | Bale_Bot.py:34 | joining the pieces of a split with the separator gives back the text |
| Text.SplitJoin | Bale_Bot.py:34 | splitting a join of separator-free pieces gives back the pieces |
| Text.LeadingDigits | Bale_Bot.py:127 | the `\d+` match is a digit-only prefix that stops at the first non-digit |
| Text.Decimal | Bale_Bot.py:128 | a decimal rendering is a non-empty digit string whose `int()` value is the number |
| Text.LeadingDigitsBefore | Bale_Bot.py:127 | `\d+` at the start of digits followed by a non-digit captures exactly those digits |
| FloodControl.SafeSend | telegram_bot.py:89-119 | the retry loop computes the spec function: resend after each flood error, stop at success or at another error |
| FloodControl.Floods | telegram_bot.py:97-101 | the number of leading flood errors: all of them floods and the next outcome not one |
| FloodControl.SafeSendShape | telegram_bot.py:93-103 | the loop's log is one attempt and one wait per leading flood, then one final attempt whose outcome decides the status |
| FloodControl.SafeSendRetries | telegram_bot.py:98-101 | a flood error logs an attempt and a wait of the parsed time, and the rest is the same loop on one flood fewer |
| FloodControl.SafeSendStops | telegram_bot.py:95-96 | without a leading flood the loop makes a single attempt |
| FloodControl.RetryTraceDelivers | telegram_bot.py:97-101 | the retried attempts deliver nothing and repeat the same request |
| FloodControl.SafeSendResends | telegram_bot.py:93-103 | the request is attempted once per flood plus once, and delivered exactly once when the call returns normally, else not at all |
| FloodControl.SafeSendFirstTry | telegram_bot.py:95-96 | against a platform that accepts everything, one attempt and done |
| FloodControl.SendAll | telegram_bot.py:65-66 | the chunk loop computes the spec function (stops at the first error that escapes) |
| FloodControl.SendAllStep | telegram_bot.py:65-66 | one chunk that gets through delivers exactly that chunk, and the loop carries on with the rest |
| FloodControl.SendAllInOrder | telegram_bot.py:65-66 | on success all chunks are delivered in order; on an error a proper prefix of them is |
| FloodControl.SendAllOk | telegram_bot.py:65-66 | against an accepting platform every chunk is delivered, in order |
| RetryTime.Search | telegram_bot.py:125 | `re.search`: the returned position matches and is the leftmost; no position matches when none is returned |
| RetryTime.RetrySeconds | telegram_bot.py:121-128 | without a match the fallback, with a leftmost match the integer value of its captured digits |
| RetryTime.CapturedDecimal | Bale_Bot.py:127 | a message holding the marker, a number and a non-digit matches there and captures exactly the number |
| RetryTime.MatchInMessage | Bale_Bot.py:127-128 | the retry time of such a message (with no earlier `R`) is that number |
| RetryTime.RetryTimeRoundTrip | telegram_bot.py:125-127 | writing `Retry in <n> seconds` into a message and parsing it gives `n` back, for both bots |
| RetryTime.FullFloodMessage | telegram_bot.py:125-127 | `Error: Retry in 7 seconds` gives 7 on both bots |
| RetryTime.NoMatchWithoutR | telegram_bot.py:125 | no match starts where the text has no `R` left |
| RetryTime.ShortFloodMessageBale | Bale_Bot.py:127-128 | Bale reads 7 from `Retry in 7s` |
| RetryTime.ShortFloodMessageTelegram | telegram_bot.py:125-128 | Telegram falls back to 5 on `Retry in 7s`, which lacks the word `seconds` |
| RetryTime.FloodMessageWithoutNumber | telegram_bot.py:128 | `Retry in seconds` gives the fallbacks: 5 on Telegram, 0 on Bale |
| RetryTime.NonFloodMessage | Bale_Bot.py:128 | `Forbidden` gives the fallbacks: 5 on Telegram, 0 on Bale |
| FixedChunker.Slices | telegram_bot-backup.py:26 | non-empty text gives at least one slice |
| FixedChunker.FixedSplit | telegram_bot-backup.py:24-26 | text within the limit is returned as the single chunk |
| FixedChunker.SlicesConcat | telegram_bot-backup.py:26 | the slices concatenated give back the text |
| FixedChunker.FixedSplitConcat | telegram_bot-backup.py:24-26 | the chunks concatenated give back the text: nothing lost or repeated |
| FixedChunker.SlicesSizes | telegram_bot-backup.py:26 | every slice is non-empty and at most the limit; all but the last are exactly the limit |
| FixedChunker.FixedSplitSizes | telegram_bot-backup.py:24-26 | every chunk fits the limit, is non-empty for non-empty text, and all but the last are full |
| FixedChunker.SlicesCount | telegram_bot-backup.py:26 | there are `ceil(len / maxLength)` slices |
| FixedChunker.FixedSplitCount | telegram_bot-backup.py:24-26 | the chunk count is the fewest full slices that cover the text; empty text gives one empty chunk |
| FixedChunker.SlicesAt | telegram_bot-backup.py:26 | slice `j` is `text[j*m : (j+1)*m]` |
| FixedChunker.FixedSplitAt | telegram_bot-backup.py:26 | chunk `j` of long text is `text[j*m : (j+1)*m]`, as the comprehension reads |
| WordChunker.Step | Bale_Bot.py:38-42 | one word keeps the grouping well formed: there is an open group, and every group after the first holds a word |
| WordChunker.Groups | Bale_Bot.py:37-43 | the fold of the word loop yields a well-formed grouping: every group after the first holds a word |
| WordChunker.Closed | Bale_Bot.py:39 | one closed chunk per group but the open one |
| WordChunker.StepEffect | Bale_Bot.py:38-42 | on overflow the open chunk is closed (stripped, blank line, end marker) and the new one is the start marker, a blank line and the word; otherwise the open chunk grows by a space and the word |
| WordChunker.SplitChunks | Bale_Bot.py:25-47 | the loop equals the word split; text within the limit is returned whole; without a start marker (telegram_bot.py) it fails exactly when the text is over the limit |
| WordChunker.StepFlatten | Bale_Bot.py:37-43 | one step appends exactly its word to the grouped words |
| WordChunker.GroupsFlatten | Bale_Bot.py:34-43 | the groups hold exactly the input words, in order |
| WordChunker.StepWithinLimit | Bale_Bot.py:38-42 | a step keeps every group within the limit unless it is a single word |
| WordChunker.GroupsWithinLimit | Bale_Bot.py:37-43 | every group's text is within the limit unless the group is a single word |
| WordChunker.StepGreedy | Bale_Bot.py:38-42 | a step keeps the grouping greedy |
| WordChunker.GroupsGreedy | Bale_Bot.py:37-43 | every closed group was closed because its next word did not fit |
| WordChunker.FirstWordOverflows | Bale_Bot.py:38-40 | a first word that does not fit closes an empty first group |
| WordChunker.SingleGroupFits | Bale_Bot.py:30-43 | when nothing overflows, the text built from the words is within the limit |
| WordChunker.OverLimitSplits | Bale_Bot.py:30-43 | text over the limit is always split into at least two groups |
| WordChunker.ChunksShape | Bale_Bot.py:39-45 | one chunk per group: closed chunks are the stripped text, a blank line and the end marker; the last is the stripped text |
| WordChunker.OverLimitChunks | Bale_Bot.py:30-47 | text over the limit becomes the chunks of its word groups, at least two |
| WordChunker.ClosedChunksEndWithMarker | Bale_Bot.py:39 | every chunk but the last ends with a blank line and the end marker |
| WordChunker.LaterChunksOpenWithMarker | Bale_Bot.py:40-45 | every chunk after the first opens with the start marker, followed by its words behind a blank line |
| WordChunker.FirstWordTooLong | Bale_Bot.py:38-39 | an over-long first word leaves a first chunk that is only the end marker |
| WordChunker.ChunkLengths | Bale_Bot.py:38-45 | a chunk (before its end marker) exceeds the limit only when it holds one word |
| WordChunker.SplitTextNonEmpty | Bale_Bot.py:30-47 | the split always returns a chunk, so `chunks[0]` exists |
| TelegramBot.SplitFor | telegram_bot.py:25-49 | the configured split succeeds with at least one chunk; text within the limit is the only chunk |
| TelegramBot.SplitText | telegram_bot-backup.py:19-26 | the split method equals the configured split function |
| TelegramBot.SendPhotoThenRest | telegram_bot.py:59-62 | the photo with the first chunk through the retry loop, then the other chunks, stopping at an error |
| TelegramBot.SendMessage | telegram_bot.py:51-68 | `send_message` computes its spec: caption-limit split with a photo, message-limit split without; every exception is swallowed |
| TelegramBot.SendMessageWithImages | telegram_bot.py:70-87 | the image loop computes its spec: text only when there are no images; the caption is cleared after a successful image |
| TelegramBot.PhotoThenRestOk | telegram_bot.py:57-62 | against an accepting platform: the photo with the first chunk, then each remaining chunk, in order |
| TelegramBot.CurrentDropsLongText | telegram_bot.py:41 | as written, text over the limit sends nothing at all |
| TelegramBot.CorrectedSendsLongText | telegram_bot.py:25-49 | with the start marker set, long text is delivered as its word chunks (two or more), in order |
| TelegramBot.TextsMessages | telegram_bot-backup.py:47-48 | the texts of the chunk messages written one after the other are the chunks' concatenation |
| TelegramBot.BackupDeliversWholeText | telegram_bot-backup.py:28-50 | against an accepting platform, the delivered texts and captions together are exactly the text |
| TelegramBot.FirstUnopenable | telegram_bot.py:78-79 | none exactly when every image opens; otherwise one that is listed and cannot be opened |
| TelegramBot.ImagesRaiseOnOpen | telegram_bot.py:78-87 | the image loop raises exactly when an image cannot be opened, with that image's error |
| TelegramBot.CaptionOnly | telegram_bot.py:85 | one empty-captioned photo per image |
| TelegramBot.ImagesAfterClear | telegram_bot.py:78-85 | once the caption is cleared, each image is sent once with an empty caption |
| TelegramBot.ImagesAllOk | telegram_bot.py:78-85 | against an accepting platform: the first image carries the first chunk, then the rest of the text, then the other images without caption |
| TelegramBot.FailedImageKeepsText | telegram_bot.py:80-87 | an image refused without flood control keeps the text for the next image |
| TelegramBot.CurrentImagesDropLongText | telegram_bot.py:80-87 | as written, a caption over the limit sends nothing for any image |
| BaleBot.BaleSplit | Bale_Bot.py:25-47 | at least one chunk; text within the limit is the only chunk |
| BaleBot.SplitText | Bale_Bot.py:25-47 | the loop equals the word split with Bale's markers |
| BaleBot.SendTextSpec | Bale_Bot.py:69-83 | a send consumes outcomes, and raises only after consuming at least one |
| BaleBot.SendTextsSpec | Bale_Bot.py:111-112 | the chunk sends consume outcomes, and raise only after consuming at least one |
| BaleBot.SendTexts | Bale_Bot.py:111-112 | the chunk loop computes its spec |
| BaleBot.SendPhotoSpec | Bale_Bot.py:85-121 | each restart consumes an outcome, so the self-call after flood control ends |
| BaleBot.SendPhotoWithCaption | Bale_Bot.py:85-121 | the method computes its spec |
| BaleBot.Run | Bale_Bot.py:49-67 | `run` computes its spec |
| BaleBot.SendBatchMessages | Bale_Bot.py:130-153 | the slice loop computes its spec: every item in order, with a batch size of 0 raising as `range` does |
| BaleBot.SendBatch | Bale_Bot.py:137-145 | one batch delivers its items in order, each followed by the delay |
| BaleBot.BatchSliceStep | Bale_Bot.py:135-137 | delivering one slice and then the rest is delivering everything from the slice on |
| BaleBot.DeliverAllAppend | Bale_Bot.py:135-137 | delivering two lists one after the other is delivering their concatenation |
| BaleBot.SendTextEvents | Bale_Bot.py:73-83 | the log of a send: one attempt; after a flood error one more, after a wait of the parsed time |
| BaleBot.SendTextAtMostTwice | Bale_Bot.py:73-83 | a text is attempted at most twice, delivered iff one of those succeeds, and raises iff the resend fails |
| BaleBot.TextOk | Bale_Bot.py:75 | against an accepting platform the text is delivered once |
| BaleBot.SendTextsOk | Bale_Bot.py:111-112 | against an accepting platform every chunk is delivered in order |
| BaleBot.PhotoOk | Bale_Bot.py:105-112 | a usable photo against an accepting platform: the photo with the first chunk, then the other chunks |
| BaleBot.PhotoRetriesAfterFlood | Bale_Bot.py:114-119 | a flood error on the photo is logged, followed by a wait of the parsed time, and the whole send then goes through |
| BaleBot.RunChunksTextOk | Bale_Bot.py:58-64 | text-only `run`: each chunk's attempt followed by a one-second wait, in order |
| BaleBot.RunTextOk | Bale_Bot.py:56-64 | text-only `run` logs exactly that for the chunks of the text |
| BaleBot.MessagesHaveNoPhoto | Bale_Bot.py:111-112 | text messages carry no photo |
| BaleBot.PhotoRunsCount | Bale_Bot.py:58-61 | one photo is delivered per chunk |
| BaleBot.PhotoChunkOk | Bale_Bot.py:61-64 | one chunk with a usable photo, then the one-second pause, delivers that photo send |
| BaleBot.RunChunksPhotoOk | Bale_Bot.py:58-64 | `run` with a usable photo delivers the photo send once per chunk |
| BaleBot.RunSendsPhotoPerChunk | Bale_Bot.py:56-64 | `run` with a photo sends the photo once per 950-character chunk, so long text duplicates the image |
| BaleBot.RunChunksUnusablePhoto | Bale_Bot.py:93-98 | an unusable photo sends nothing; only the one-second pauses are logged |
| BaleBot.ExtensionExamples | Bale_Bot.py:100-101 | the extension check ignores case and accepts `.gif` |
| BaleBot.ExtensionRefused | Bale_Bot.py:100-103 | a `.bmp` file is refused |
| BaleBot.UnopenablePhotoSendsNothing | Bale_Bot.py:107-121 | a path that exists and is readable but that `open` refuses sends nothing: the error is caught and is no flood |
| Docx.Extension | extract_content.py:75 | the extension taken from the content type (after its last `/`) contains no `/` |
| Docx.NumberOfImagePath | extract_content.py:76 | an image path carries the directory prefix, and its number reads back as the counter |
| Docx.ImagePathsDistinct | extract_content.py:76 | different counters give different paths |
| Docx.Paths | extract_content.py:69-80 | one path per image |
| Docx.PathsAt | extract_content.py:76-80 | the `k`-th saved image is numbered from the counter plus `k` |
| Docx.PathsAppend | extract_content.py:69-80 | saving two runs of images one after the other numbers them as one run |
| Docx.SaveImages | extract_content.py:69-80 | the image loop appends one numbered path per image and advances the counter by the image count |
| Docx.HeadText | extract_content.py:59 | a section's opening text is non-empty and already stripped |
| Docx.Line | extract_content.py:65-66 | a body line is empty or ends in a non-space |
| Docx.LinesEnd | extract_content.py:63-66 | collected body text is empty or ends in a non-space |
| Docx.LinesSnoc | extract_content.py:63-80 | one more paragraph appends its line and its image types |
| Docx.ContentStripped | extract_content.py:40 | the collected content is already stripped, so `strip()` keeps it |
| Docx.PathNumber | extract_content.py:76 | the `k`-th path of a run carries the prefix and the number counter plus `k` |
| Docx.NumberedAppend | extract_content.py:76-80 | images saved at the running counter keep the list numbered by position |
| Docx.NumberedDistinct | extract_content.py:76-80 | a numbered image list has no duplicate path |
| ExtractContent.Step | extract_content.py:34-80 | one paragraph keeps the state invariant: while collecting there is non-empty content; otherwise no content and no images |
| ExtractContent.StepBody | extract_content.py:63-80 | a body paragraph while collecting appends its stripped line and its numbered images |
| ExtractContent.Run | extract_content.py:33-80 | the paragraph loop keeps the state invariant |
| ExtractContent.ExtractHeadingsContentWithImages | extract_content.py:14-90 | the method computes the fold over the paragraphs and the final close |
| ExtractContent.StepSections | extract_content.py:34-61 | emitted sections are never changed, and a Heading 4 opens exactly one section |
| ExtractContent.RunAppend | extract_content.py:33 | the loop over two runs of paragraphs is the loop over the first, continued |
| ExtractContent.RunSections | extract_content.py:33-80 | emitted sections stay, and sections opened grow by the Heading 4 count |
| ExtractContent.ExtractCount | extract_content.py:14-90 | exactly one section per Heading 4 paragraph |
| ExtractContent.IgnoredOutside | extract_content.py:63 | outside a section, paragraphs other than Heading 1 and Heading 4 change nothing |
| ExtractContent.CollectStep | extract_content.py:63-80 | collecting one more body paragraph extends the collected text and images |
| ExtractContent.CollectBody | extract_content.py:63-80 | body paragraphs under a Heading 4 are collected: their lines and numbered images |
| ExtractContent.FinishKeeps | extract_content.py:82-88 | the final close keeps emitted sections |
| ExtractContent.BoundaryCloses | extract_content.py:38-56 | a Heading 1 or Heading 4 while collecting emits the section with its prefix |
| ExtractContent.EmittedSurvive | extract_content.py:33-88 | an emitted section is in the final result at the same index |
| ExtractContent.ClosedRecord | extract_content.py:38-88 | a section followed by a boundary or the end is emitted with the prefix that boundary gives |
| ExtractContent.OpenSection | extract_content.py:49-61 | a Heading 4 closes the open section, opens one with its stripped text or the fallback, and keeps the counter |
| ExtractContent.SectionRecord | extract_content.py:14-90 | the section of the `k`-th Heading 4 is the prefix, a blank line, the heading and its body lines, stripped, with the images of its body |
| ExtractContent.CloseImages | extract_content.py:38-56 | closing moves the pending images into the sections, in order |
| ExtractContent.StepCounted | extract_content.py:69-80 | a step keeps the image list numbered up to the counter |
| ExtractContent.RunCounted | extract_content.py:33-80 | the loop keeps the image list numbered up to the counter |
| ExtractContent.ImagesNumbered | extract_content.py:76-80 | all images, across sections, are numbered 0, 1, 2, ... in order and are pairwise distinct |
| ExtractContent.SubheadingIsBody | extract_content.py:49-66 | a Heading 2 under a Heading 4 is body text |
| ExtractContent.NextHeadingPrefix | extract_content.py:34-44 | a section closed by a Heading 1 gets that new heading as its prefix |
| ExtractHeadings.Step | extract_content_headings.py:33-72 | one paragraph keeps the state invariant |
| ExtractHeadings.StepBody | extract_content_headings.py:55-72 | a body paragraph while collecting appends its stripped line and its numbered images |
| ExtractHeadings.Run | extract_content_headings.py:32-72 | the paragraph loop keeps the state invariant |
| ExtractHeadings.ExtractHeadingsContentWithImages | extract_content_headings.py:14-81 | the method computes the fold over the paragraphs and the final close |
| ExtractHeadings.StepSections | extract_content_headings.py:33-54 | emitted sections are never changed, and a Heading 4 opens exactly one section |
| ExtractHeadings.RunAppend | extract_content_headings.py:32 | the loop over two runs of paragraphs is the loop over the first, continued |
| ExtractHeadings.RunSections | extract_content_headings.py:32-72 | emitted sections stay, and sections opened grow by the Heading 4 count |
| ExtractHeadings.ExtractCount | extract_content_headings.py:14-81 | exactly one section per Heading 4 paragraph |
| ExtractHeadings.IgnoredOutside | extract_content_headings.py:55 | outside a section, paragraphs that are not Heading 1 to 4 change nothing |
| ExtractHeadings.CollectStep | extract_content_headings.py:55-72 | collecting one more body paragraph extends the collected text and images |
| ExtractHeadings.CollectBody | extract_content_headings.py:55-72 | body paragraphs under a Heading 4 are collected: their lines and numbered images |
| ExtractHeadings.FinishKeeps | extract_content_headings.py:74-79 | the final close keeps emitted sections |
| ExtractHeadings.BoundaryCloses | extract_content_headings.py:35-51 | a Heading 1 to 4 while collecting emits the section's text and images |
| ExtractHeadings.EmittedSurvive | extract_content_headings.py:32-79 | an emitted section is in the final result at the same index |
| ExtractHeadings.ClosedRecord | extract_content_headings.py:35-79 | a section followed by a boundary or the end is emitted as collected |
| ExtractHeadings.OpenSection | extract_content_headings.py:33-44 | a Heading 4 closes the open section and opens one with its stripped text or the fallback |
| ExtractHeadings.SectionRecord | extract_content_headings.py:14-81 | the section of the `k`-th Heading 4 is the heading and its body lines, with the images of its body |
| ExtractHeadings.CloseImages | extract_content_headings.py:35-51 | closing moves the pending images into the sections, in order |
| ExtractHeadings.StepCounted | extract_content_headings.py:61-72 | a step keeps the image list numbered up to the counter |
| ExtractHeadings.RunCounted | extract_content_headings.py:32-72 | the loop keeps the image list numbered up to the counter |
| ExtractHeadings.ImagesNumbered | extract_content_headings.py:68-72 | all images are numbered 0, 1, 2, ... in order and are pairwise distinct |
| ExtractHeadings.SubheadingStops | extract_content_headings.py:45-54 | a Heading 2 ends the Heading 4 section, and what follows it is dropped |
| Delivery.TelegramLoop | main.py:24-25 | the section loop computes its spec, stopping at the first exception |
| Delivery.BaleImages | main.py:40-54 | the image loop computes its spec: unusable images are skipped, and the text is cleared after a run |
| Delivery.BaleLoop | main.py:34-58 | the section loop computes its spec |
| Delivery.Deliver | main.py:7-62 | `main` computes its spec: extraction, then Telegram, then Bale |
| Delivery.UsableImages | main.py:42-48 | the images kept are usable and listed, and every usable listed image is kept |
| Delivery.CaptionedShape | main.py:50-54 | one run per usable image, the text on the first only |
| Delivery.BaleImagesFollowPlan | main.py:40-54 | the image loop equals running the plan: usable images, text on the first |
| Delivery.BaleSectionFollowsPlan | main.py:35-58 | a section's Bale sends equal running its plan |
| Delivery.BaleFollowsPlans | main.py:34-58 | the Bale loop equals running the sections' plans in order |
| Delivery.PlanShape | main.py:38-58 | a section without images runs its text once; otherwise one run per usable image, the text with the first |
| Delivery.SkippedImageKeepsText | main.py:42-54 | a missing first image leaves the text for the next usable one |
| Delivery.SectionRaises | telegram_bot.py:75-79 | a section raises out of `send_message_with_images` iff it has an image that cannot be opened |
| Delivery.TelegramRaises | main.py:22-28 | Telegram delivery is cut short iff some section has an image that cannot be opened |
| Delivery.TelegramStopsAtBlocked | main.py:24-25 | nothing after the first blocked section reaches Telegram |
| Delivery.MainDelivers | main.py:13-62 | a failed extraction sends nothing; Bale receives the plans of the extracted sections whatever Telegram did; a platform without credentials receives nothing |

## Left out

- The platform SDKs, `async`/`await` scheduling and real time: sends are scripted outcomes, and sleeps are logged, not waited for.
- An exhausted script answers every further call with success.
  - This is what makes the unbounded retry loops and the Bale photo restart end.
  - The model does not capture a platform that returns flood errors forever.
- `print` output and the messages it carries.
- The literal text of the exception for an image that cannot be opened (`TelegramBot.OpenFailure` stands for it).
- Reading the `.docx` file.
  - A document is given as its paragraphs (style, text, and the content types of the images in its runs).
  - A document that cannot be loaded is `None`.
  - Style names are the datatype `Style`.
- Writing image files and `os.makedirs`.
- Reading the environment: the credentials are the booleans `telegramSet` and `baleSet`.
- The user prompt: `main.py` line 9 is modelled as the document that was read.
- The file system is modelled as three sets: the paths that exist, the readable ones, and those `open` accepts. Both bots and `main.py` see the same three sets.
  - `os.path.abspath` is the identity.
- `\d` and `int()` are restricted to the ASCII digits, while Python also accepts other Unicode decimal digits.
- `str.lower` is restricted to the ASCII letters. This is exact for the extension check: no other character lowers to a letter of `.jpg`, `.jpeg`, `.png` or `.gif`.
- `str.strip` removes exactly the characters Python's `str.isspace` accepts (`Text.IsSpace`).
- Character counts are code points.
  - The continuation markers are parameters, so their lengths in code points do not matter to any lemma.
- `async with self.client` (`Bale_Bot.py:53`, `134`) is left out: opening and closing the client session is part of the SDK.
- The `except` branch of `send_batch_messages` (`Bale_Bot.py:146-153`) is left out. `run` catches every exception inside its `try`, so that branch is reachable only through a failure of `async with self.client` at line 53, and that is left out.
- FixedChunker.FixedSplit: requires `maxLength > 0`; Python's `range` would raise on a zero step, but both callers pass 1024.
- WordChunker.GroupsWithinLimit: requires `maxLength >= 0`, which every caller meets.
- BaleBot.SendBatchMessages: `delay` is a natural number of seconds.
- Delivery.Deliver: takes any valid Telegram configuration. `main.py` uses telegram_bot.py's, `TelegramBot.Current`.
- `continuation_notation or <default>` (`telegram_bot.py:23`) is not modelled: the end marker is a parameter of the configuration.
- BaleBot.SendPhotoSpec: an `open` error whose text contains `Retry in` (a path containing those words) is treated as no flood. The source would restart on it, and `open` would fail again each time.

## Findings

| source | as written | input that shows it | evidently intended | confidence | as-written member | corrected member |
|---|---|---|---|---|---|---|
| telegram_bot.py:20-23 | `continuation_start` is never assigned, so line 41 raises `AttributeError` whenever the text must be split. `send_message` swallows the error and sends nothing. | any text of more than 4000 characters without a photo, or more than 1024 with one | the text is delivered in word chunks, with the start marker on every chunk after the first | not executed | TelegramBot.CurrentDropsLongText | TelegramBot.CorrectedSendsLongText |
