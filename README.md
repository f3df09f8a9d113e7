# Media handlers of mra-aws, modelled in Dafny

The repository deploys four storage-triggered handlers that turn an uploaded
"original" into derivatives in the same bucket:

- **Image resizer** (`mraLambdaS3BucketsImageResizer`, Node). For a key holding
  `-org.`:
  - it marks the original `processing`;
  - for each of five widths, it writes an empty WebP placeholder, resizes the
    image, writes the content with its metadata and sets the derivative's tags;
  - it then marks the original `completed`.
  Any error answers 500.
- **Video thumbnail generator** (`mraLambdaS3BucketVideoThumbnailGenerator`,
  Node). It downloads the video and probes its size. For five sizes, turned
  for a vertical video, it extracts one frame, puts it as a WebP object and
  deletes the frame file. An error in that block is caught, and the `finally`
  clause always deletes the downloaded video.
- **Video processor** (`mraLambdaS3BucketsVideoProcessor`, Node). It decodes
  the event's key and filters it by its last four characters, lower-cased,
  and by the `-org<ext>` ending. For an accepted key it fires one asynchronous
  invocation of the thumbnail generator, swallowing its error.
- **Video resizer** (`mraLambdaS3BucketsVideoResizer`, Python). It downloads
  the video and opens it with moviepy. For each of five thumbnail sizes it
  calls `save_frame` with that size and uploads the file as a JPEG. For each
  of five resolutions it resizes the clip, writes the video and uploads it as
  an MP4. Each file is removed after its upload. It then removes the download
  and closes the clip. Nothing is caught.

The image resizer, the thumbnail generator and the video resizer are each
modelled by:

- a specification function `Expected`, which gives the answer and the full
  log of external calls for every combination of what the outside world
  replies (an `Env` value);
- an imperative `Handler` method, with the source's loops, proved equal to
  `Expected`;
- lemmas about `Expected`, stating what each handler promises.

The video processor has no loop and no state. It is the function
`VideoProcessor.Handle`, and lemmas about that function.

A log is a sequence of `Done(op)` / `Failed(op)` entries (module `Trace`). In
the image resizer, the video processor and the video resizer, a failed call is
the last entry. In the thumbnail generator, a failure inside the `try` block
is followed by the `finally` deletion of the video file.

The image resizer's response bodies are `JSON.stringify` of its messages, so
they are the messages in double quotes (`ImageResizer.JsonString`). The video
resizer's body is the plain message.

Shared modules:

- `Text`: JavaScript `includes`, `indexOf`, first-occurrence `replace`,
  `endsWith`, `slice(-n)` and ASCII `toLowerCase`; Python's all-occurrence
  `str.replace`; Node's `path.basename`/`path.extname`; the extension part of
  Python's `os.path.splitext`.
- `Uri`: `+` to space, then `decodeURIComponent` on ASCII escapes, with an
  encoder and the round trip.
- `Trace`: logs, sequencing that stops at the first error, and blocks of calls.
- `Wrappers`: `Option`.

Where the code differs from the repository's design notes, the model follows
the code:

- The image resizer's 10-tag cap guards only the metadata pairs. An original
  with nine or more tags gives derivatives with more than ten
  (`ImageResizer.TagCapExceeded`).
- An error in any resolution ends the whole image run with status 500. The
  loop does not go on with the remaining resolutions.
- A failure of the thumbnail generator's final `unlinkSync` is not only logged:
  it rejects the invocation (`ThumbnailGenerator.CleanupAlways`).
- The Python resizer keeps `-org` in its thumbnail keys
  (`VideoResizer.ThumbnailKeyOfOriginal`). It replaces every occurrence of the
  extension (`VideoResizer.ThumbnailKeyEveryOccurrence`), and it decodes and
  filters no key.

## Model

| member | source | states |
|---|---|---|
| Text.IndexOf | Lambdas/mraLambdaS3BucketsImageResizer/index.mjs:39 | `indexOf` is -1 exactly when the pattern does not occur, and otherwise the leftmost occurrence |
| Text.ReplaceFirstSpec | Lambdas/mraLambdaS3BucketsImageResizer/index.mjs:72 | a string-pattern `replace` changes nothing without an occurrence, and replaces only the leftmost one otherwise |
| Text.ReplaceFirstAt | Lambdas/mraLambdaS3BucketVideoThumbnailGenerator/index.mjs:45 | when the pattern starts nowhere in `a`, `replace` on `a + pat + b` gives `a + rep + b` |
| Text.ReplaceAllAbsent | Lambdas/mraLambdaS3BucketsVideoResizer/lambda_function.py:62 | Python `str.replace` with an absent non-empty pattern returns the string unchanged |
| Text.ReplaceAllKeepsPrefix | Lambdas/mraLambdaS3BucketsVideoResizer/lambda_function.py:58 | a prefix in which no occurrence starts is copied unchanged by `str.replace` |
| Text.ReplaceAllSingle | Lambdas/mraLambdaS3BucketsVideoResizer/lambda_function.py:62 | with exactly one occurrence, Python's all-occurrence and JavaScript's first-occurrence replacement agree |
| Text.ReplaceAllWhole | Lambdas/mraLambdaS3BucketsVideoResizer/lambda_function.py:49 | a whole string equal to the pattern becomes the replacement |
| Text.ReplaceAllTwice | Lambdas/mraLambdaS3BucketsVideoResizer/lambda_function.py:49 | a pattern repeated twice is replaced twice |
| Text.ReplaceAllEmpty | Lambdas/mraLambdaS3BucketsVideoResizer/lambda_function.py:49 | an empty pattern inserts the replacement before every character and at the end: in blocks of one more than the replacement's length, block `i` is a copy of `rep` then character `i`, and a final copy ends the result; the length follows |
| Text.ReplaceRepeated | Lambdas/mraLambdaS3BucketsVideoResizer/lambda_function.py:49 | after a dot-free prefix, a repeated dotted pattern is replaced twice by `str.replace` and once by JavaScript's `replace` |
| Text.SliceLast | Lambdas/mraLambdaS3BucketsVideoProcessor/index.mjs:12 | `slice(-n)` holds the last `n` characters, or all of `s` when it is shorter, and is a suffix of `s` |
| Text.Lower | Lambdas/mraLambdaS3BucketsVideoProcessor/index.mjs:12 | `toLowerCase` keeps the length and lowers each ASCII capital in place |
| Text.LastIndexOfSpec | Lambdas/mraLambdaS3BucketsVideoResizer/lambda_function.py:18 | a non-negative last index holds the character and no later position does; -1 means the character is absent |
| Text.BasenameSpec | Lambdas/mraLambdaS3BucketsVideoResizer/lambda_function.py:18 | the base name is the slash-free suffix after the last `/`, or the whole path |
| Text.ExtnameSpec | Lambdas/mraLambdaS3BucketVideoThumbnailGenerator/index.mjs:14 | Node's extension is a suffix of the base name; a non-empty one is a dot followed by slash- and dot-free text |
| Text.BasenameWithoutSpec | Lambdas/mraLambdaS3BucketVideoThumbnailGenerator/index.mjs:15 | removing the extension leaves the part of the base name before it |
| Text.SplitextExtSpec | Lambdas/mraLambdaS3BucketsVideoResizer/lambda_function.py:49 | `splitext`'s extension is a suffix of the path; a non-empty one is a dot followed by slash- and dot-free text |
| Text.ExtensionAtEnd | Lambdas/mraLambdaS3BucketVideoThumbnailGenerator/index.mjs:14 | for a path ending in a dot and `n` plain characters after a plain character, Node's and Python's extensions are both that dot and what follows it |
| Text.ExtensionOfName | Lambdas/mraLambdaS3BucketsVideoResizer/lambda_function.py:49 | the extension of `front.ext`, for a slash- and dot-free `ext`, is `.ext` in both Node and Python |
| Uri.PlusToSpace | Lambdas/mraLambdaS3BucketsImageResizer/index.mjs:36 | `/\+/g` to space keeps the length and replaces each `+` in place |
| Uri.DecodeEncodeRoundTrip | Lambdas/mraLambdaS3BucketsImageResizer/index.mjs:36 | decoding the event-record encoding of an ASCII key gives back the key |
| Uri.DecodeWithoutEscapes | Lambdas/mraLambdaS3BucketsVideoProcessor/index.mjs:11 | a raw key without `%` decodes to itself with every `+` turned into a space |
| Uri.PercentDecodePlain | Lambdas/mraLambdaS3BucketsVideoProcessor/index.mjs:11 | `decodeURIComponent` without `%` is the identity |
| VideoProcessor.AcceptsIff | Lambdas/mraLambdaS3BucketsVideoProcessor/index.mjs:6-18 | a key is accepted exactly when it ends with `-org` followed by one of the listed four-character extensions |
| VideoProcessor.AcceptedWitness | Lambdas/mraLambdaS3BucketsVideoProcessor/index.mjs:12-15 | an accepted key's extension is a listed four-character one, and the key ends with `-org` + that extension |
| VideoProcessor.ListedAccepted | Lambdas/mraLambdaS3BucketsVideoProcessor/index.mjs:12-15 | a key ending in `-org` and a listed four-character extension is accepted with that extension |
| VideoProcessor.ExtensionsLowerCase | Lambdas/mraLambdaS3BucketsVideoProcessor/index.mjs:6 | the listed four-character extensions are in lower case |
| VideoProcessor.WebmNeverAccepted | Lambdas/mraLambdaS3BucketsVideoProcessor/index.mjs:6-15 | `.webm` is listed but a four-character slice never equals it, so no `.webm` key is accepted |
| VideoProcessor.UpperCaseRejected | Lambdas/mraLambdaS3BucketsVideoProcessor/index.mjs:12-15 | an upper-case letter among the last four characters rejects the key |
| VideoProcessor.UpperCaseExample | Lambdas/mraLambdaS3BucketsVideoProcessor/index.mjs:12-15 | `clip-org.MP4` is skipped and `clip-org.mp4` accepted |
| VideoProcessor.HandleOutcome | Lambdas/mraLambdaS3BucketsVideoProcessor/index.mjs:8-32 | an undecodable key rejects with no call, and a refused key resolves with no call. An accepted key resolves after exactly one `Event` invocation of the thumbnail generator with the bucket and decoded key, failed or not |
| VideoProcessor.PlusBecomesSpace | Lambdas/mraLambdaS3BucketsVideoProcessor/index.mjs:11-31 | without escapes, the dispatched key is the raw key with `+` turned into spaces |
| VideoProcessor.EncodedKeyDispatched | Lambdas/mraLambdaS3BucketsVideoProcessor/index.mjs:11-31 | an event carrying an encoded ASCII key dispatches exactly that key when it is accepted, and nothing otherwise |
| ImageResizer.ForceWebpSpec | Lambdas/mraLambdaS3BucketsImageResizer/index.mjs:72 | `/\.[^.]+$/` to `.webp` replaces a final dot-led extension and otherwise changes nothing |
| ImageResizer.DerivativeKeySteps | Lambdas/mraLambdaS3BucketsImageResizer/index.mjs:72 | after `-org.` is replaced the key holds a dot, and the derivative key ends in `.webp` unless it ends in a dot |
| ImageResizer.DerivativeKeyOfOriginal | Lambdas/mraLambdaS3BucketsImageResizer/index.mjs:72 | `base-org.ext` with a dot-free extension gives `base` + suffix + `.webp` |
| ImageResizer.NoDashBase | Lambdas/mraLambdaS3BucketsImageResizer/index.mjs:72 | a dash-free base holds no earlier `-org.` |
| ImageResizer.PhotoExample | Lambdas/mraLambdaS3BucketsImageResizer/index.mjs:72 | `photo-org.png` gives `photo-xs.webp` |
| ImageResizer.ResolutionTable | Lambdas/mraLambdaS3BucketsImageResizer/index.mjs:47-53 | five resolutions xs, sm, md, lg, xl with suffix `-tag` and strictly increasing widths |
| ImageResizer.DefinedFields | Lambdas/mraLambdaS3BucketsImageResizer/index.mjs:92-98 | the metadata strings are exactly the listed fields the read-back metadata defines, with its values |
| ImageResizer.DefinedFieldsInOrder | Lambdas/mraLambdaS3BucketsImageResizer/index.mjs:92-98 | the metadata strings follow the order of the field list: each later entry comes from a later field, so the pairs kept under the tag cap are those of the first defined fields |
| ImageResizer.CollectMetadataStrings | Lambdas/mraLambdaS3BucketsImageResizer/index.mjs:93-98 | the `reduce` loop builds exactly those entries |
| ImageResizer.MetadataStringsRestrict | Lambdas/mraLambdaS3BucketsImageResizer/index.mjs:92-98 | as an object, the metadata strings are the read-back metadata restricted to the listed fields |
| ImageResizer.MetadataStringsKeys | Lambdas/mraLambdaS3BucketsImageResizer/index.mjs:119-125 | derived strings from unreserved fields never override `status`, `resolution` or `org-image-key` |
| ImageResizer.FieldsNotReserved | Lambdas/mraLambdaS3BucketsImageResizer/index.mjs:92 | none of the six read-back fields is a reserved key |
| ImageResizer.CappedTagsShape | Lambdas/mraLambdaS3BucketsImageResizer/index.mjs:101-112 | the new tags are the existing tags, then `resolution` and `org-image-key`, then a prefix of the metadata pairs. With room for the two fixed tags, they stay within 10 |
| ImageResizer.TagCapExceeded | Lambdas/mraLambdaS3BucketsImageResizer/index.mjs:101-112 | with nine existing tags, the derivative gets eleven |
| ImageResizer.BuildTags | Lambdas/mraLambdaS3BucketsImageResizer/index.mjs:101-112 | the `push` loop under the length guard builds exactly the capped tag list |
| ImageResizer.PlaceholderMetadataOverlay | Lambdas/mraLambdaS3BucketsImageResizer/index.mjs:78-83 | the placeholder keeps the user metadata, with `status: processing`, the resolution tag and the back-reference set |
| ImageResizer.FinalMetadataOverlay | Lambdas/mraLambdaS3BucketsImageResizer/index.mjs:119-125 | in the final metadata the derived strings win, then the fixed keys, then the user's |
| ImageResizer.MarkStatus | Lambdas/mraLambdaS3BucketsImageResizer/index.mjs:18-27 | the status write is a self-copy of the object that keeps the user metadata and sets `status` |
| ImageResizer.ResolutionRunStops | Lambdas/mraLambdaS3BucketsImageResizer/index.mjs:70-132 | one iteration stops at its first error |
| ImageResizer.ResolutionRunTargets | Lambdas/mraLambdaS3BucketsImageResizer/index.mjs:70-132 | every call of an iteration concerns that resolution's derivative key |
| ImageResizer.ResolutionRunSucceeded | Lambdas/mraLambdaS3BucketsImageResizer/index.mjs:73-132 | a successful iteration issues the placeholder put, the transform, the content put and the tagging put, in order |
| ImageResizer.ResolvedStops | Lambdas/mraLambdaS3BucketsImageResizer/index.mjs:70-133 | the resolution loop stops at its first error |
| ImageResizer.ResolvedTargets | Lambdas/mraLambdaS3BucketsImageResizer/index.mjs:70-133 | every call of the loop concerns one of the resolutions' derivatives |
| ImageResizer.ResolvedSucceeded | Lambdas/mraLambdaS3BucketsImageResizer/index.mjs:70-133 | a successful loop gives resolution `j` calls `4j` to `4j+3` |
| ImageResizer.FinishMarksFirst | Lambdas/mraLambdaS3BucketsImageResizer/index.mjs:56-67 | the four calls before the loop issue no put, and the third writes `processing` to the original |
| ImageResizer.FinishCompletes | Lambdas/mraLambdaS3BucketsImageResizer/index.mjs:136 | only the final write marks the original `completed`, and it does so exactly when the block succeeds |
| ImageResizer.ProcessingStopsAtFirstError | Lambdas/mraLambdaS3BucketsImageResizer/index.mjs:55-141 | the `try` block stops at its first error |
| ImageResizer.ProcessingMarksFirst | Lambdas/mraLambdaS3BucketsImageResizer/index.mjs:64 | `processing` is written by the third call, before any derivative put |
| ImageResizer.ProcessingCompletes | Lambdas/mraLambdaS3BucketsImageResizer/index.mjs:136 | `completed` is written to the original exactly when the whole block succeeds, by its last call |
| ImageResizer.ProcessingSucceeded | Lambdas/mraLambdaS3BucketsImageResizer/index.mjs:55-141 | a successful block issues the four calls before the loop, four calls per resolution in table order, then `completed` |
| ImageResizer.HandlerOutcome | Lambdas/mraLambdaS3BucketsImageResizer/index.mjs:34-148 | relates the answer to the log: <br>• undecodable key: rejected; <br>• skipped key: 200 with no call; <br>• 500: ends in a failed call and never marks the original `completed`; <br>• success: 25 calls |
| ImageResizer.ProcessResolution | Lambdas/mraLambdaS3BucketsImageResizer/index.mjs:71-132 | the loop body issues exactly the calls of the iteration's specification |
| ImageResizer.ResolveAll | Lambdas/mraLambdaS3BucketsImageResizer/index.mjs:70-133 | the resolution loop issues exactly the loop's specified calls |
| ImageResizer.ProcessOriginal | Lambdas/mraLambdaS3BucketsImageResizer/index.mjs:55-141 | the `try` block issues exactly its specified calls |
| ImageResizer.Handler | Lambdas/mraLambdaS3BucketsImageResizer/index.mjs:34-149 | the handler's response and log are those of `Expected` |
| ThumbnailGenerator.VideoOfSpec | Lambdas/mraLambdaS3BucketVideoThumbnailGenerator/index.mjs:13-15 | the download path is under `/tmp` and ends with the key's base name, which ends with the extension |
| ThumbnailGenerator.ThumbnailKeyOfOriginal | Lambdas/mraLambdaS3BucketVideoThumbnailGenerator/index.mjs:45 | `base-org.ext` with a dot-free extension gives `base` + suffix |
| ThumbnailGenerator.ThumbnailKeyAbsent | Lambdas/mraLambdaS3BucketVideoThumbnailGenerator/index.mjs:45 | without `-org<ext>` the thumbnail key is the video's key |
| ThumbnailGenerator.ClipExample | Lambdas/mraLambdaS3BucketVideoThumbnailGenerator/index.mjs:13-45 | the names derived for an MP4 original in a folder |
| ThumbnailGenerator.SizeTable | Lambdas/mraLambdaS3BucketVideoThumbnailGenerator/index.mjs:23-29 | five landscape sizes xs to xl, strictly growing, with `.webp` suffixes |
| Orientation.Oriented | Lambdas/mraLambdaS3BucketVideoThumbnailGenerator/index.mjs:38-39 | the size used for a video has the table size's two dimensions, and for a landscape table size it is portrait exactly when the video is vertical; the Python resizer's `size[::-1]` is the same rule |
| ThumbnailGenerator.ScaleFollowsOrientation | Lambdas/mraLambdaS3BucketVideoThumbnailGenerator/index.mjs:35-39 | a vertical video gets portrait thumbnails and any other video landscape ones |
| ThumbnailGenerator.PhoneVideoExample | Lambdas/mraLambdaS3BucketVideoThumbnailGenerator/index.mjs:35-39 | a 1080x1920 video's smallest thumbnail is extracted at 240x320 |
| ThumbnailGenerator.FramesAt | Lambdas/mraLambdaS3BucketVideoThumbnailGenerator/index.mjs:37-45 | frame `j` is that of size `j` |
| ThumbnailGenerator.FrameRunShape | Lambdas/mraLambdaS3BucketVideoThumbnailGenerator/index.mjs:42-54 | an iteration stops at its first error, and ends normally exactly when extract, read, put and unlink all return. The call after a returned put deletes the frame file |
| ThumbnailGenerator.ThumbnailsStop | Lambdas/mraLambdaS3BucketVideoThumbnailGenerator/index.mjs:37-55 | the size loop stops at its first error |
| ThumbnailGenerator.ThumbnailsFailed | Lambdas/mraLambdaS3BucketVideoThumbnailGenerator/index.mjs:37-55 | a failed loop is the successful iterations before some `k`, then iteration `k` up to its error |
| ThumbnailGenerator.FailedShape | Lambdas/mraLambdaS3BucketVideoThumbnailGenerator/index.mjs:37-55 | the log of a loop failed at `k` is four calls per earlier frame, in order, then a prefix of frame `k`'s calls ending in the error |
| ThumbnailGenerator.ThumbnailsSucceeded | Lambdas/mraLambdaS3BucketVideoThumbnailGenerator/index.mjs:37-55 | a successful loop gives frame `j` calls `4j` to `4j+3` |
| ThumbnailGenerator.TryBlockStops | Lambdas/mraLambdaS3BucketVideoThumbnailGenerator/index.mjs:31-56 | the `try` block stops at its first error |
| ThumbnailGenerator.DownloadFails | Lambdas/mraLambdaS3BucketVideoThumbnailGenerator/index.mjs:18-20 | a failed download or write rejects the invocation with no put and no unlink |
| ThumbnailGenerator.CleanupAlways | Lambdas/mraLambdaS3BucketVideoThumbnailGenerator/index.mjs:31-60 | once the video is written, the last call deletes it whatever the `try` block did. The invocation is rejected only when that deletion throws |
| ThumbnailGenerator.HandlerCleanup | Lambdas/mraLambdaS3BucketVideoThumbnailGenerator/index.mjs:11-61 | every invocation either failed its download or ends with the deletion of the video file |
| ThumbnailGenerator.ProbedSucceeded | Lambdas/mraLambdaS3BucketVideoThumbnailGenerator/index.mjs:18-60 | a successful probe and loop give the download, the write, the probe, the loop's blocks, then the deletion |
| ThumbnailGenerator.HandlerSucceeded | Lambdas/mraLambdaS3BucketVideoThumbnailGenerator/index.mjs:11-61 | with every call returning, 24 calls are issued: <br>• the download, the write and the probe; <br>• then the four calls of the frame of size `j` from `3+4j`, each put an `image/webp` object whose frame file is deleted next; <br>• then the deletion of the video |
| ThumbnailGenerator.GenerateThumbnail | Lambdas/mraLambdaS3BucketVideoThumbnailGenerator/index.mjs:38-54 | the loop body issues exactly the calls of its frame's specification |
| ThumbnailGenerator.GenerateAll | Lambdas/mraLambdaS3BucketVideoThumbnailGenerator/index.mjs:37-55 | the size loop issues exactly the loop's specified calls |
| ThumbnailGenerator.Handler | Lambdas/mraLambdaS3BucketVideoThumbnailGenerator/index.mjs:11-61 | the handler's outcome and log are those of `Expected` |
| VideoResizer.ThumbnailKeyOfOriginal | Lambdas/mraLambdaS3BucketsVideoResizer/lambda_function.py:49 | `base-org.ext` gives `base-org` + suffix: `-org` is kept |
| VideoResizer.ThumbnailKeyEveryOccurrence | Lambdas/mraLambdaS3BucketsVideoResizer/lambda_function.py:49 | a name followed by the extension twice gets the suffix twice, where a first-occurrence replacement would keep one extension |
| VideoResizer.ThumbnailKeyNoExtension | Lambdas/mraLambdaS3BucketsVideoResizer/lambda_function.py:49 | a key without an extension gets a copy of the suffix before every character and at the end, each character right after its copy |
| VideoResizer.RenditionKeyOfOriginal | Lambdas/mraLambdaS3BucketsVideoResizer/lambda_function.py:62 | `base-org.mp4` with no earlier `-org.mp4` gives `base` + suffix |
| VideoResizer.RenditionKeyAbsent | Lambdas/mraLambdaS3BucketsVideoResizer/lambda_function.py:62 | without `-org.mp4` the rendition key is the key itself |
| VideoResizer.ResolutionTable | Lambdas/mraLambdaS3BucketsVideoResizer/lambda_function.py:26-32 | five landscape renditions 240p to 1080p, strictly growing, with `.mp4` suffixes |
| VideoResizer.ThumbnailTable | Lambdas/mraLambdaS3BucketsVideoResizer/lambda_function.py:33-39 | five landscape thumbnails xs to xl, strictly growing, with `.jpg` suffixes |
| VideoResizer.ScaleFollowsOrientation | Lambdas/mraLambdaS3BucketsVideoResizer/lambda_function.py:23-57 | both kinds of output are portrait exactly for a vertical video; a square video keeps landscape sizes |
| VideoResizer.OutputsAt | Lambdas/mraLambdaS3BucketsVideoResizer/lambda_function.py:42-62 | output `j` is that of row `j` |
| VideoResizer.OutputOps | Lambdas/mraLambdaS3BucketsVideoResizer/lambda_function.py:47-64 | an iteration issues 3 (thumbnail) or 4 (rendition) calls: the upload second to last, then the removal of the uploaded file |
| VideoResizer.LoopStops | Lambdas/mraLambdaS3BucketsVideoResizer/lambda_function.py:42-64 | each loop stops at its first error |
| VideoResizer.LoopCalls | Lambdas/mraLambdaS3BucketsVideoResizer/lambda_function.py:42-64 | every call of a loop is of its kind: thumbnail uploads are `image/jpeg`, rendition uploads `video/mp4` |
| VideoResizer.LoopSucceeded | Lambdas/mraLambdaS3BucketsVideoResizer/lambda_function.py:42-64 | a successful loop gives iteration `j` its calls from `Width·j`, in order |
| VideoResizer.RemoveFollowsUpload | Lambdas/mraLambdaS3BucketsVideoResizer/lambda_function.py:50-64 | the call after a returned upload removes the uploaded file |
| VideoResizer.CleanupReturned | Lambdas/mraLambdaS3BucketsVideoResizer/lambda_function.py:67-68 | a returned cleanup removes the download, then closes the clip |
| VideoResizer.WorkStops | Lambdas/mraLambdaS3BucketsVideoResizer/lambda_function.py:42-68 | the loops and the cleanup stop at their first error |
| VideoResizer.NoJpegAfterThumbnails | Lambdas/mraLambdaS3BucketsVideoResizer/lambda_function.py:54-68 | the rendition loop and the cleanup upload no JPEG |
| VideoResizer.JpegBeforeMp4 | Lambdas/mraLambdaS3BucketsVideoResizer/lambda_function.py:42-64 | every JPEG upload precedes every MP4 upload, whatever raises |
| VideoResizer.NoCleanupOnError | Lambdas/mraLambdaS3BucketsVideoResizer/lambda_function.py:42-68 | when a loop raises, nothing follows the failed call: the download is not removed and the clip is never closed |
| VideoResizer.OpenedSucceeded | Lambdas/mraLambdaS3BucketsVideoResizer/lambda_function.py:19-68 | on success the download and opening are followed by every thumbnail block, every rendition block, then removal and closing |
| VideoResizer.FirstCallDownloads | Lambdas/mraLambdaS3BucketsVideoResizer/lambda_function.py:14-19 | the first call downloads the event's key as given to `/tmp/` + its base name, with no filter and no decoding |
| VideoResizer.HandlerStops | Lambdas/mraLambdaS3BucketsVideoResizer/lambda_function.py:13-73 | an invocation stops at its first error, and answers 200 with the fixed body exactly when no call raised; otherwise it raises |
| VideoResizer.HandlerSucceeded | Lambdas/mraLambdaS3BucketsVideoResizer/lambda_function.py:13-73 | every call returning gives 39 calls: <br>• thumbnail blocks at `2+3j`; <br>• rendition blocks at `17+4j`; <br>• then the removal and the closing; <br>• answer 200 |
| VideoResizer.LoopReturns | Lambdas/mraLambdaS3BucketsVideoResizer/lambda_function.py:42-64 | a loop in which no call raises ends normally |
| VideoResizer.EveryKeyProcessed | Lambdas/mraLambdaS3BucketsVideoResizer/lambda_function.py:13-73 | when no call raises, every key is downloaded as given, 39 calls are issued and 200 is answered |
| VideoResizer.SaveThumbnail | Lambdas/mraLambdaS3BucketsVideoResizer/lambda_function.py:43-51 | the thumbnail loop body issues exactly its iteration's specified calls |
| VideoResizer.WriteRendition | Lambdas/mraLambdaS3BucketsVideoResizer/lambda_function.py:55-64 | the rendition loop body issues exactly its iteration's specified calls |
| VideoResizer.GenerateThumbnails | Lambdas/mraLambdaS3BucketsVideoResizer/lambda_function.py:42-51 | the thumbnail loop issues exactly the loop's specified calls |
| VideoResizer.GenerateRenditions | Lambdas/mraLambdaS3BucketsVideoResizer/lambda_function.py:54-64 | the rendition loop issues exactly the loop's specified calls |
| VideoResizer.Finalize | Lambdas/mraLambdaS3BucketsVideoResizer/lambda_function.py:67-68 | the cleanup issues exactly its specified calls |
| VideoResizer.Process | Lambdas/mraLambdaS3BucketsVideoResizer/lambda_function.py:42-68 | the loops and cleanup issue exactly their specified calls |
| VideoResizer.Handler | Lambdas/mraLambdaS3BucketsVideoResizer/lambda_function.py:13-73 | the handler's outcome and log are those of `Expected` |

## Left out

- The storage SDKs (aws-sdk, boto3), sharp, ffprobe, ffmpeg, moviepy and the file system are not modelled. Each call is an operation in the log; whether it returns, and what it returns, is an input (`Env`).
- Image and video content is not modelled: resizing, rotation, WebP, JPEG and MP4 encoding, frame choice. A body is a symbolic value and the read-back metadata is an input.
- Uri.PercentDecode: escapes of bytes 0x80 and above are refused. `decodeURIComponent` would decode valid UTF-8 sequences instead, because the model has no UTF-8 decoder.
- Text.Extname, Text.Basename: keys with a trailing `/` are not treated as Node does. Storage keys of objects do not end in `/`.
- The parsing of ffprobe's text output with `split('x').map(Number)` is not modelled, and nor are `NaN` dimensions: the probe returns integer dimensions as an input.
- An event without `Records[0]`, or without `bucket`/`key`, is not modelled: the source then throws before any call.
- Logging (`console.log`, `console.error`, moviepy's progress output) is left out: it has no effect on the answer or the calls.
- Concurrency is not modelled: asynchronous scheduling, and invocations sharing `/tmp` paths such as `/tmp/thumbnail-xs.jpg`. Each invocation is sequential on its own.
- The asynchronously invoked thumbnail generator is not run by the processor model: only the invocation request is logged.
- Names that the source recomputes in every iteration, such as the thumbnail key and the output path, are pure functions of loop-invariant values, and the model computes them from the same inputs.
- Tables and field lists are parameters of the loop specifications. The handlers pass the source's constants.
- ImageResizer.Handler, ThumbnailGenerator.Handler, VideoResizer.Handler: each requires one reply per table row in `Env`. This is the shape of the environment, not a demand the source makes.
- The `sys.path` setup and the client construction in the Python file are module-level setup, not invocation behaviour.
- `clip_resized` is never closed by the source. The model has no resource accounting, so this is not stated.
- `t=1.0` and `withmask=False` of `save_frame` only choose what is extracted.
- Whether the installed moviepy accepts `save_frame`'s `size` argument is not modelled. The call is logged with that size, and a `TypeError` it raises is the first thumbnail's failure path.
- Text.ReplaceFirst: JavaScript's `$&`, `$1` and `$$` in a replacement string are not interpreted. No replacement the handlers use contains `$`.
