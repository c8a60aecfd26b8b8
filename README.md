# imhumane challenge core, modelled in Dafny

imhumane is a CAPTCHA-style service. It groups images into collections, one
directory per topic. It builds a collage of up to nine images, remembers which
of them belong to the topic as a bit mask, and hands the collage to a browser
widget. There the user ticks the matching tiles. A correct answer turns the
challenge id into a token that the protected site can redeem exactly once.

This project models three parts of that system and proves their properties:

- **The answer and token ledger** of both service versions.
  - `Service.ImHumane` is the newer `src/service/service.rs`, with validated
    tokens.
  - `LegacyService.ImHumane` is the older `src/imhumane/service.rs`, with
    answers only.
  - Each class holds the service's maps, sets and queues as fields. Its
    methods are tied to transition functions on a value: `Service.AfterCheckAnswer`
    and `Service.AfterCheckToken` on a `Service.Ledger` for the newer service,
    `LegacyService.AfterCheckAnswer` on the answer map for the older one.
  - Lemmas over arbitrary call sequences show that answers and tokens are
    one-shot: over `Service.Replay` for the newer service and over
    `LegacyService.Successes` for the older one.
- **Challenge construction** (`Generation`), which both versions share word
  for word: the guard on the number of collections, the weighted candidate
  list, the answer bit-mask loop and the tile layout of the collage. The
  thumbnail naming rule (`Thumbnails`) and the directory scan of the newer
  service also belong here. The scan is a loop method proved against a
  specification function `Scan`.
- **The browser widget** (`src/html/challenge.js`):
  - the checkbox grid as a class over an `array<bool>` (`WidgetGrid`);
  - the container's idempotent setup (`WidgetLifecycle`);
  - the `runUntilComplete` loop, as a transition function `Step` over a
    `View` of the page. Each awaited promise becomes an `Event`.

Bit masks are naturals below 2^32 (`Bits.u32`). Bitwise OR and single bits are
defined on naturals (`Bits.Or`, `Bits.Bit`). Random choices are an input: a
`Generation.Draw`, constrained by `ValidDraw` to what the rand crate
guarantees. The file system is an input too: a listing of `Service.RootEntry`
values.

## Model

| member | source | states |
|---|---|---|
| Service.AfterCheckAnswer | src/service/service.rs:65-77 | a check succeeds iff an entry for the id exists and equals the answer; the entry is gone afterwards whatever the result; the id becomes a validated token exactly when the check succeeds |
| Service.ImHumane.CheckAnswer | src/service/service.rs:65-77 | the result and new answers/tokens are those of `AfterCheckAnswer`; queues and collections are untouched |
| Service.AfterCheckToken | src/service/service.rs:79-81 | a token check succeeds iff the id is a validated token, and removes it; the answers are untouched |
| Service.ImHumane.CheckToken | src/service/service.rs:79-81 | the result and new token set are those of `AfterCheckToken`; nothing else changes |
| Service.SecondAnswerCheckFails | src/service/service.rs:66 | a second answer check of the same id fails, whatever both answers were |
| Service.TokenChecksBounded | src/service/service.rs:65-81 | over any call sequence, successful token checks for an id plus its remaining credit never exceed its initial credit plus the times it was recorded |
| Service.RedeemedAtMostOnce | src/service/service.rs:79-81 | an id unknown at the start and recorded at most once passes at most one token check |
| Service.TokenNeedsCorrectAnswer | src/service/service.rs:71-81 | every successful token check is matched by a successful answer check of the same id (or a token validated before the sequence) |
| Service.AfterRecord | src/service/service.rs:90-93 | recording stores the answer under the id, keeps every other answer, adds only that key, and leaves the tokens alone |
| Service.ReplayLength | src/service/service.rs:65-81 | replaying n calls yields n results |
| Service.ImHumane.constructor | src/service/service.rs:43-51 | a new service has empty queues, no collections, no answers and no tokens |
| Service.ImHumane.RunGeneratorStep | src/service/service.rs:86-126 | a generated challenge has its answer recorded under its id and is then appended to the queue; a failed generation (fewer than two collections) changes nothing |
| Service.ImHumane.ScanForCollections | src/service/service.rs:251-313 | the thumbnail queue grows by exactly the kept images lacking a thumbnail; on success the collection list is replaced by exactly the collections `Scan` finds; on a non-Unicode directory name the error is returned and the list is left as it was |
| Service.ImHumane.ScanDirectory | src/service/service.rs:264-286 | the images of a directory are exactly its regular files not named like a thumbnail, in order; those without a thumbnail are queued |
| Service.ScanKeepsCleanCollections | src/service/service.rs:262-304 | every collection found is a named directory of the listing, is not empty, and holds no thumbnail file |
| Service.ThumbnailsNeverCollected | src/service/service.rs:269-274 | no path produced by `get_thumbnail_path` is ever a collection image |
| Service.ScanStopsAtError | src/service/service.rs:293-297 | once the scan has failed, the remaining entries change neither the result nor the queued thumbnails |
| Service.ScanEntryExtends | src/service/service.rs:261-305 | one root entry only appends queued paths and at most one collection; an earlier error is final; a new error is `CollectionName` of a directory whose name is not valid Unicode |
| Service.ScanOutcome | src/service/service.rs:254-306 | a scan finds at most one collection per root entry, and its only error names a directory of the listing with a non-Unicode name |
| Service.ScanPrefix | src/service/service.rs:254-306 | scanning one more entry is one `ScanEntry` step on the scan of the prefix |
| Service.KeptImagesClean | src/service/service.rs:269-274 | every kept image is a regular file of the listing whose name does not start with `.thumbnail.` |
| Service.KeptImagesComplete | src/service/service.rs:265-285 | conversely, every regular file of the listing whose name does not start with `.thumbnail.` is kept |
| Service.ScanFindsEveryCollection | src/service/service.rs:262-304 | conversely, after a successful scan every directory of the listing with at least one kept image has a valid Unicode name, and its collection, holding exactly the images kept from its listing, is among those found |
| Generation.Generate | src/service/service.rs:197-249 | fewer than two collections give `InsufficientCollections`, the only error this model has (the image errors of `generate_image` are left out); otherwise the topic is the first drawn collection, the id is the drawn one, bit k of the answer is set iff the k-th question image comes from the topic collection (no other bit is set), and the collage is a canvas of side `CanvasSide(CeilSqrt(picks))` that shows the picked images in order on disjoint tiles inside it (the older service's `generate`, src/imhumane/service.rs lines 95-137, is the same code) |
| Generation.AnswerMask | src/service/service.rs:234-241 | bit k of the mask is set iff k is below the number of question images and the k-th weight is the topic weight; the mask is below 2^(number of images) (same loop at src/imhumane/service.rs lines 122-129) |
| Generation.Candidates | src/service/service.rs:214-227 | the weighted list begins with every topic image, in order, each with weight `num_collections` |
| Generation.BuildCandidates | src/service/service.rs:214-227 | the weighted list is the topic's images with weight `num_collections`, followed by each other drawn collection's images with weight 1 |
| Generation.TopicIffWeight | src/service/service.rs:214-227 | since the topic weight is at least 2, a candidate has the topic weight iff it comes from the topic collection (same weighting at src/imhumane/service.rs lines 112-118) |
| Generation.DistractorsWeighOne | src/service/service.rs:221-227 | every image of a non-topic drawn collection weighs 1 |
| Generation.CeilSqrt | src/service/service.rs:166 | `grid_xy` is the least g with g·g at least the image count |
| Generation.PlaceTiles | src/service/service.rs:164-184 | the canvas side is `grid_xy·(IMG+GAP)+GAP`; tile k shows image k at column k mod `grid_xy`, row k div `grid_xy`; every tile lies inside the canvas and no two overlap (same layout at src/imhumane/service.rs lines 69-84) |
| Generation.TileInside | src/service/service.rs:166-181 | for i below `grid_xy`², the tile at (GAP+(IMG+GAP)·(i mod g), GAP+(IMG+GAP)·(i div g)) lies wholly inside the canvas |
| Generation.GridLaidOut | src/service/service.rs:166-184 | placing image k at cell k of a grid with room for all images shows them in order, each inside the canvas, none overlapping |
| Generation.TilesApart | src/service/service.rs:172-184 | tiles of different indices do not overlap |
| Bits.OrBits | src/service/service.rs:238 | a bit of `a \| b` is set iff it is set in a or in b |
| Bits.Pow2Bits | src/service/service.rs:238 | `1 << i` has exactly bit i set |
| Bits.OrBelow | src/service/service.rs:238 | OR of two values below 2^m stays below 2^m |
| Thumbnails.ThumbnailPath | src/service/service.rs:34-40 | the thumbnail is in the same directory and named `.thumbnail.` + stem + `.jpg`, so it is recognised as a thumbnail name |
| Thumbnails.Stem | src/service/service.rs:37 | the stem is a prefix of the name, non-empty for a non-empty name, and the whole name when it has no dot |
| Thumbnails.IsThumbnailName | src/service/service.rs:269-274 | a name is a thumbnail's exactly when it is `.thumbnail.` followed by anything |
| Thumbnails.PrefixedIsThumbnailName | src/service/service.rs:269-274 | every name starting with `.thumbnail.` is rejected by the scan's test |
| Thumbnails.LastDot | src/service/service.rs:37 | finds the last dot of a file name, or none when the name has no dot |
| Thumbnails.StemOfExtended | src/service/service.rs:37 | the stem of `stem.ext` (ext without dots, stem not empty) is `stem` |
| Thumbnails.StemSplits | src/service/service.rs:37 | a name with an extension is its stem, a dot and an extension without dots |
| Thumbnails.ThumbnailStem | src/service/service.rs:34-40 | a thumbnail's own stem is `.thumbnail.` followed by the image's stem |
| Thumbnails.SameThumbnailIffSameStem | src/service/service.rs:34-40 | two images share a thumbnail file iff they are in the same directory and have the same stem |
| LegacyService.AfterCheckAnswer | src/imhumane/service.rs:42-48 | a check succeeds iff an entry for the id exists and equals the answer; a known id's entry is removed; an unknown id leaves the table unchanged |
| LegacyService.ImHumane.CheckAnswer | src/imhumane/service.rs:42-48 | result and new table are those of `AfterCheckAnswer`; queue and collections untouched |
| LegacyService.ChecksBounded | src/imhumane/service.rs:42-59 | over any call sequence, successful checks of an id plus its pending entry never exceed its initial entry plus the times it was recorded |
| LegacyService.AnsweredAtMostOnce | src/imhumane/service.rs:43 | an id unknown at the start and recorded at most once is answered successfully at most once |
| LegacyService.ImHumane.constructor | src/imhumane/service.rs:22-28 | a new service has an empty queue, no collections and no answers |
| LegacyService.ImHumane.RunGeneratorStep | src/imhumane/service.rs:53-66 | a generated challenge has its answer recorded under its id and is then appended to the queue; fewer than two collections change nothing |
| WidgetGrid.ChallengeGrid.constructor | src/html/challenge.js:81-86 | a grid has exactly gridLength² checkboxes, all unchecked, and an enabled button |
| WidgetGrid.Accepted | src/html/challenge.js:57-60 | an accepted status is a 2xx success other than 200 (that exactly 204 ends the loop is `SuccessIffNoContent`) |
| WidgetGrid.AnswerString | src/html/challenge.js:143-147 | the fold yields one character per checkbox, `'1'` where it is checked and `'0'` where it is not |
| WidgetGrid.ChallengeGrid.ReadAnswer | src/html/challenge.js:143-147 | the answer has one character per checkbox, `'1'` exactly at the checked ones and `'0'` elsewhere |
| WidgetGrid.AnswerStringInjective | src/html/challenge.js:143-147 | different selections give different answer strings |
| WidgetGrid.ContainerLength | src/html/challenge.js:103 | the container side is n+1 gaps plus n images |
| WidgetGrid.ContainerLengthExample | src/html/challenge.js:103 | gap 4, image 100, grid 3 give 316 |
| WidgetGrid.ContainerMatchesCanvas | src/html/challenge.js:103 | with the server's 8 px gap and 96 px tiles the container is exactly as wide as the server's collage |
| WidgetGrid.ChallengeGrid.Toggle | src/html/challenge.js:83-85 | clicking a checkbox flips it and no other |
| WidgetGrid.ChallengeGrid.Submit | src/html/challenge.js:97-100 | a click on the enabled button disables it and yields the current answer; a disabled button yields nothing |
| WidgetGrid.ChallengeGrid.Reset | src/html/challenge.js:149-152 | every checkbox is unchecked and the button enabled, and the answer is all `'0'` |
| WidgetLifecycle.SuccessIffNoContent | src/html/challenge.js:57-60 | a validation response ends the loop in success iff its status is 204; the token is then the answered challenge's id; otherwise the loop waits to retry and the token is unchanged |
| WidgetLifecycle.Step | src/html/challenge.js:292-327 | a finished loop ignores every event; requests are only appended, at most one per step, and only for a click on the shown grid, carrying gridLength² digits and that challenge's id; success is entered only from a 204 response, and then the token is the answered id |
| WidgetLifecycle.GridAnswerFitsPage | src/html/challenge.js:295-302 | the answer read from a grid built for a challenge has exactly gridLength² characters, the length a click on the page carries |
| WidgetLifecycle.StepKeepsConsistent | src/html/challenge.js:292-327 | every step keeps the page consistent with its phase |
| WidgetLifecycle.RunKeepsConsistent | src/html/challenge.js:292-327 | over any events: at most one grid is rendered and the style holds its rules; after a failure both are cleared before the next load; no token, success class or success event exists before a 204 |
| WidgetLifecycle.FetchShowsGrid | src/html/challenge.js:292-300 | at the top of the loop a fetched challenge becomes the one being answered: its grid alone is rendered, its rules are in the style element and the overlay is hidden, with no request sent; a failed fetch rejects the loop's promise |
| WidgetLifecycle.DelayRestarts | src/html/challenge.js:324-327 | once the 3000 ms delay after a failure has elapsed, the body is empty, the style element holds only the container's own rules, the overlay says "Loading" and the loop is back at its top, with the requests and token unchanged |
| WidgetLifecycle.FailureRestartsWithNewChallenge | src/html/challenge.js:303-327 | a non-204 response or a thrown validation shows "Failed: Incorrect selection" or "Validation failed: " and the error, and waits with the token unchanged; after the delay the grid and its rules are cleared and the overlay says "Loading"; the next fetched challenge is then shown and answered, with no request sent and no success visible |
| WidgetLifecycle.FinishedIsFinal | src/html/challenge.js:307-316 | after success (or a failed fetch) no event changes the page |
| WidgetLifecycle.TokenIsLastAnsweredId | src/html/challenge.js:307-314 | on success the token input holds the id of the last answered challenge, the root has the success class, and exactly one success event carrying that id was dispatched |
| WidgetLifecycle.OneRequestPerFetch | src/html/challenge.js:292-306 | the requests sent, plus a grid still awaiting its click, never exceed the challenges fetched: no challenge is answered twice |
| WidgetLifecycle.RequestAnswersShownGrid | src/html/challenge.js:300-306 | a submit on a consistent page sends exactly one request, for the challenge whose grid is shown, with gridLength² digits, and keeps earlier requests; a selection of another length cannot come from that grid and changes nothing |
| WidgetLifecycle.AfterSetup | src/html/challenge.js:276-287 | setup marks itself done; if it was done, nothing changes; otherwise one style element and three root children are added |
| WidgetLifecycle.SetupIdempotent | src/html/challenge.js:276-287 | calling setup twice is the same as calling it once |
| WidgetLifecycle.ChallengeContainer.Setup | src/html/challenge.js:276-287 | the container's new state is `AfterSetup` of the old one |
| WidgetLifecycle.CssClassIsNotSuccess | src/html/challenge.js:172 | the random class name is never `imhumane-success` |
| WidgetLifecycle.ChallengeContainer.constructor | src/html/challenge.js:168-265 | a new container is not set up, has the class `imhumane-` + hex digits, a visible empty overlay, an empty body and an empty token |
| WidgetLifecycle.ChallengeContainer.RunUntilComplete | src/html/challenge.js:289-327 | after setup the page is the run of `Step` over the events consumed; the loop stops early only when it has succeeded or the fetch failed |
| WidgetLifecycle.FreshContainerConsistent | src/html/challenge.js:289-293 | a fresh container, once set up and at the top of the loop, shows a consistent page |

## Left out

- Generation.Generate: does not model the failures of `generate_image` (src/service/service.rs:245, src/imhumane/service.rs:133). `generate` also fails when an image or thumbnail cannot be opened, copied or encoded, and it panics at `as_rgb8().unwrap()` for an image that is not 8-bit RGB. Without pixel data the model has no such inputs, so its `generate` fails only for fewer than two collections.
- Image work is not modelled: opening, resizing, the gradient fill, `copy_from`, JPEG encoding and thumbnail reuse by size (`get_thumbnail`). `PlaceTiles` yields tile positions instead of pixels.
- File-system access is an input listing. The `ScanSnafu` errors are not modelled: a failing `read_dir` of the root or of a collection (src/service/service.rs:254, 265), a failing directory entry (255, 266) and a failing `file_type` (259). Only the non-Unicode collection name error is. `Path::exists` (278) returns no error; a thumbnail it cannot see is an `ImageEntry` whose `thumbnailExists` is false, and that image is queued. File locking is not modelled.
- Randomness (`gen_range`, `choose_multiple`, `choose_multiple_weighted`, `Uuid::new_v4`) is the `Draw` input. `ValidDraw` states the guarantees the model uses: 2 ≤ `num_collections` ≤ min(collections, 5), distinct sample, and min(9, candidates) distinct picks. The weighting's effect on probabilities is not modelled. Because the sample has at least two entries, the second `InsufficientCollections` path (`sample.next()` failing) cannot occur and has no branch.
- `Generation.CeilSqrt` replaces `f32::ceil(f32::sqrt(n))`. The two agree for the at most nine images a challenge shows.
- Concurrency is not modelled: locks, the `deadqueue` queues, `block_on`, and the endless `run_generator` loop with its one-second sleep. Only the challenge queue is bounded (`deadqueue::resizable`, src/service/service.rs:27, 45); the thumbnail queue is `deadqueue::unlimited` (28, 46). The challenge queue is an unbounded sequence in the model, and `RunGeneratorStep` is one round of the loop. Generating thumbnails while the queue is full (src/service/service.rs:100-118) depends on queue capacity and file I/O and is left out.
- `empty` only asks whether the challenge queue is empty; `try_get_challenge` and `get_challenge` only pop it. All three are left out.
- The older `scan_for_collections` (src/imhumane/service.rs:139-189) is not part of this model.
- `src/service/challenge.rs` declares the answer as a `String`. The service code stores and compares it as `u32`, and that use is modelled.
- HTTP, CLI and configuration glue (router, error mapping, main) are not part of this model. The widget posts its answer as a `'0'/'1'` string. No step that turns that string into the service's `u32` exists in this source: `src/http/router.rs` declares the payload's `answer` as a `u32` and passes it straight to `check_answer`, so that router would reject the widget's string.
- Widget DOM and CSS are reduced to the state the loop changes. `gapPercentage` and the style text are not modelled. The grid's first CSS rule reads `this.cssClass` and `this.containerLength`, which `ChallengeGrid` never sets; CSS text is outside the model.
- Response headers are taken as parsed naturals. The `+headers.get(...)` conversions giving `NaN` or 0 for missing headers are not modelled.
- A failed challenge fetch is not caught inside `runUntilComplete`. The loop ends with a rejected promise (phase `Rejected`) and does not retry.
- `fetch`, `FileReader`, `setTimeout` and `CustomEvent` are events or fields of the `View`: the delay is `DelayElapsed`, and a dispatched success event is an entry of `dispatched`.
