# Duplicate finder — a verified Dafny model

This project models the core of a browser application that walks a
directory chosen by the user and reports duplicate files: files with the
same name, files with the same content (a SHA-256 digest of the whole file
or of a sampled part of it) and images that look alike (a 16×16 grey
thumbnail compared position by position). It also models the statistics the
application draws from those groups, the helpers that format times,
speeds and HTML, the scan settings check, and the USB speed classifier.

Each JavaScript file of the core becomes one Dafny module:

- `Base` — the JavaScript primitives the code leans on: `toLowerCase`
  (ASCII), `lastIndexOf`, `split`, `replace` with `/g`, `trim`,
  `padStart`, decimal and hexadecimal text, `%`, numbers that may be NaN,
  object slots that may be missing, and `Option`/`Result`.
- `Multimap` — a JavaScript `Map` from names to lists with its insertion
  order, and the grouping step every scanner ends with (keep the keys
  whose list has more than one entry).
- `FsTree` — the directory the File System Access API hands over, as a
  tree of files and directories; a directory whose listing throws is
  marked as such.
- `FileUtils` (`js/file-utils.js`) — the file-type classifiers, the MIME
  table, `splitFileName`, `isSystemOrTempFile` and the content digest
  sampler, a method over arrays.
- `HashWorker` (`js/hash-worker.js`) — the three-window partial sample
  copied into a fresh array, and the replies of the message handler.
- `ImageUtils` (`js/image-utils.js`) — Hamming distance, similarity
  percentage, the squared Euclidean sum, the bitmap signature and the
  colour histogram as loops over arrays, and the blend of the two scores.
- `ScannerModel` (`js/scanner.js`) — the `Scanner` class with its name,
  content and image maps, its counters and `running` flag; the walk, the
  three duplicate searches and the greedy image clustering.
- `DebugScan` (`js/debug.js`) — the `checkDuplicates` walk, with its type
  counters, its `openDirs` cap and its final grouping.
- `Statistics` (`js/statistics.js`) — savings by file type, the directory
  tree and the totals.
- `AppNew` and `Html` (`js/app-new.js`) — translation, `formatTime` and
  `TimeFormatter`, `escapeHtml`, `generateSummary`, the `ScanEstimator`
  class and the bounded quick scan of `estimateDirectorySize`.
- `UiController` (`js/ui-controller.js`) — `validateScanSettings`, which
  corrects its argument in place, the worker recommendation, the two
  time formatters, `formatSpeed` and the progress percentage.
- `AppLegacy` (`js/app.js`) — path joining, the name and hash grouping of
  `checkDuplicates` and its two debug variants, `formatTime`, the progress
  bar, `getSampleFiles` and the scan estimates.
- `UsbDetector` (`js/usb-detector.js`) — `analyzeSpeed` and the fallback
  of `detectConnection`.

Code that changes objects in place (the scanner and its maps, the debug
walk, the estimator, the settings check, the array samplers) is written
as classes and methods with loops, each proved against a recursive
function of the old state; the pure helpers are functions with lemmas.
SHA-256, image decoding and the speed test are parameters of the model.

## Model

| member | source | states |
|---|---|---|
| Base.Bump | js/debug.js:390 | `obj[key] += k` adds k to a number and leaves a missing or NaN slot non-numeric |
| Base.JsRem | js/ui-controller.js:1151 | JavaScript's `%`: equal to the mathematical remainder on a non-negative dividend, and strictly within (-b, b) |
| Base.Lower | js/file-utils.js:57 | `toLowerCase` keeps the length and lower-cases character by character |
| Base.LowerAppend | js/file-utils.js:57 | lower-casing distributes over concatenation |
| Base.LastIndexOf | js/file-utils.js:119 | `lastIndexOf` gives -1 or a position holding the character, with no later occurrence |
| Base.AfterLast | js/scanner.js:199 | `split(c).pop()` holds no c, and is the whole text when c does not occur |
| Base.Extension | js/file-utils.js:14 | the lower-cased name from its last '.', a single dotted suffix, or the whole lower-cased name when it has no '.' |
| Base.ExtensionOfJoin | js/file-utils.js:14 | the extension of `stem + ext` is `ext` lower-cased, whatever the stem |
| Base.Split | js/statistics.js:102 | `split(c)` gives at least one piece, none holding c |
| Base.SplitJoin | js/statistics.js:102 | splitting `a + c + b` with no c in a gives a, then the pieces of b |
| Base.ReplaceAll | js/app-new.js:148 | a global replace removes every c when the replacement holds none |
| Base.TrimEnd | js/app-new.js:61 | trimming the end keeps a prefix that does not end in a space and drops only spaces |
| Base.TrimStart | js/app-new.js:61 | trimming the start keeps a suffix that does not start with a space |
| Base.PadStart | js/ui-controller.js:1154-1156 | `padStart(n, c)` ends with the text, is at least n long and fills only with c |
| Base.NatToString | js/ui-controller.js:1154 | the decimal text of a number is non-empty and made of digits |
| Base.ParseNatToString | js/ui-controller.js:1154 | the decimal text reads back as the number |
| Base.ByteHex | js/scanner.js:247-249 | `b.toString(16).padStart(2, '0')` is always two hexadecimal digits |
| Base.HexEncode | js/scanner.js:247-249 | the hex text of a digest has two hexadecimal digits per byte |
| Base.Overwrite | js/hash-worker.js:60-62 | after `set(src, offset)` the array holds src from the offset on and its old contents elsewhere |
| Base.OverwriteThree | js/hash-worker.js:59-62 | three `set` calls that cover the array back to back leave exactly the three pieces, in order |
| Base.WithPrototypeAgrees | js/statistics.js:77 | a lookup in an object literal gives the own entry exactly when the key is an own key or names no `Object.prototype` member |
| Base.ArraySet | js/hash-worker.js:60-62 | the in-place copy leaves the array equal to the overwritten contents |
| FileUtils.ImageExtensionsDotted | js/file-utils.js:13 | every entry of the image extension list starts with '.' |
| FileUtils.VideoExtensionsDotted | js/file-utils.js:24 | every entry of the video extension list starts with '.' |
| FileUtils.AudioExtensionsDotted | js/file-utils.js:35 | every entry of the audio extension list starts with '.' |
| FileUtils.DocumentExtensionsDotted | js/file-utils.js:46 | every entry of the document extension list starts with '.' |
| FileUtils.NoDotNotListed | js/file-utils.js:12-49 | a name with no '.' is in no dotted extension list, so none of the four type predicates holds for it |
| FileUtils.ListedBySuffix | js/file-utils.js:14-15 | for an extension whose only '.' is its first character, `stem + ext` is classified exactly when the lower-cased `ext` is listed, whatever the stem |
| FileUtils.IsImageFile | js/file-utils.js:12-16 | `isImageFile`: the lower-cased text from the last '.' is on the image list |
| FileUtils.IsVideoFile | js/file-utils.js:23-27 | `isVideoFile`: the same against the video list |
| FileUtils.IsAudioFile | js/file-utils.js:34-38 | `isAudioFile`: the same against the audio list |
| FileUtils.IsDocumentFile | js/file-utils.js:45-49 | `isDocumentFile`: the same against the document list |
| FileUtils.MimeKey | js/file-utils.js:57 | the lookup key never contains '.', and a name without '.' gives the whole lower-cased name |
| FileUtils.MimeKeyOfJoin | js/file-utils.js:57 | the key of `stem + "." + ext` (ext without '.') is `ext` lower-cased |
| FileUtils.GetMimeTypeAsWritten | js/file-utils.js:56-111 | the lookup on the object literal returns a member inherited from `Object.prototype` only for a key naming one |
| FileUtils.PrototypeKeyEscapes | js/file-utils.js:110 | "a.constructor" gets the inherited `constructor` member back instead of a MIME string |
| FileUtils.LongKeyUnlisted | js/file-utils.js:58-108 | no key longer than four characters is in the MIME table |
| FileUtils.GetMimeType | js/file-utils.js:56-111 | a listed key gives its table entry, any other key 'application/octet-stream' |
| FileUtils.GetMimeTypeAgrees | js/file-utils.js:110 | the own-property lookup agrees with the code as written on every key that is not an `Object.prototype` member |
| FileUtils.MimeTypeBySuffix | js/file-utils.js:56-111 | only the lower-cased text after the last '.' decides the MIME type |
| FileUtils.SplitFileName | js/file-utils.js:118-131 | (fileName, '') when there is no '.', otherwise name + '.' + extension == fileName with no '.' in extension |
| FileUtils.SplitFileNameRoundTrip | js/file-utils.js:118-131 | splitting `stem + "." + ext` (ext without '.') gives back exactly stem and ext |
| FileUtils.SlicesInside | js/file-utils.js:187-202 | above digestSize the head, middle and tail slices lie inside the input |
| FileUtils.SmallInputUnchanged | js/file-utils.js:170-172 | an input no longer than digestSize is returned unchanged |
| FileUtils.StrideDigest | js/file-utils.js:168-183 | stride branch: digestSize bytes, byte i taken from min(i·floor(n/d), n−1), that index equal to i·floor(n/d) and strictly increasing in i |
| FileUtils.HeadMiddleTailDigest | js/file-utils.js:186-204 | large-file branch: digestSize bytes made of the first floor(0.4·d) bytes, floor(0.2·d) bytes from floor(n/2) − floor(middle/2), and the last d − head − middle bytes, in that order |
| FileUtils.CreateFileContentDigest | js/file-utils.js:152-205 | the method returns the digest the branches above describe |
| FileUtils.SampleEvenly | js/file-utils.js:175-183 | the for loop fills byte i from the stride index for every i below digestSize |
| FileUtils.SampleHeadMiddleTail | js/file-utils.js:187-204 | the three `set` calls leave head, middle and tail back to back in the fresh array |
| FileUtils.IsSystemOrTempFile | js/file-utils.js:212-230 | `isSystemOrTempFile`: the thirteen patterns, the `/i` ones on the lower-cased name |
| FileUtils.ContentDigest | js/file-utils.js:152-205 | `createFileContentDigest`: the whole buffer when short enough, an even sample for a full scan, else head, middle and tail |
| FileUtils.TempSuffixes | js/file-utils.js:222-225 | a .tmp/.temp/.bak/.old suffix in any letter case marks the file, whatever the stem |
| FileUtils.DollarWordMarks | js/file-utils.js:216 | `$word$` anywhere in a name, with one or more word characters, marks it |
| HashWorker.PartialSample | js/hash-worker.js:48-63 | the sample has length min(n, 3·4096) |
| HashWorker.WindowsInside | js/hash-worker.js:53-56 | above 3·4096 bytes the three windows lie inside the input, are disjoint and ascending |
| HashWorker.SmallInputsUsedWhole | js/hash-worker.js:48-50 | inputs of at most 3·4096 bytes are used whole and unchanged |
| HashWorker.SampleLayout | js/hash-worker.js:51-63 | above 3·4096 bytes: bytes [0, 4096), then 4096 bytes from floor(n/2) − 2048, then the last 4096 bytes |
| HashWorker.SameWindowsSameSample | js/hash-worker.js:53-63 | inputs of one length that agree on the three windows give the same sample |
| HashWorker.CombinedSample | js/hash-worker.js:48-63 | the three `set` calls into a fresh array build exactly the partial sample |
| HashWorker.OnMessage | js/hash-worker.js:6-86 | a reply exactly for 'hash', 'perceptual-hash' and 'partial-hash'; it carries the task id; hash is set exactly when error is not; isPartial exactly for partial tasks; perceptual tasks always get hash null and the fixed error |
| HashWorker.SuccessfulReplies | js/hash-worker.js:9-83 | a digest that resolves gives its hex text, two characters per byte; a digest that rejects gives hash null and its message |
| HashWorker.PartialRepliesIgnoreOtherBytes | js/hash-worker.js:53-76 | partial tasks on inputs that agree on the windows get the same reply |
| ImageUtils.Luma | js/image-utils.js:48 | the gray value (scaled by 1000) lies in [0, 255000] |
| ImageUtils.HammingDistance | js/image-utils.js:158-170 | an error on a length mismatch, otherwise the number of differing positions |
| ImageUtils.DifferencesAtMostLength | js/image-utils.js:163-169 | the distance never exceeds the length |
| ImageUtils.DifferencesSymmetric | js/image-utils.js:163-169 | the distance is symmetric |
| ImageUtils.DifferencesZeroIffEqual | js/image-utils.js:163-169 | the distance is 0 exactly for equal strings |
| ImageUtils.DifferencesAllDiffer | js/image-utils.js:163-169 | the distance is the length when every position differs |
| ImageUtils.SimilarityPercentage | js/image-utils.js:178-182 | an error exactly on a length mismatch; NaN for two empty strings; otherwise a value in [0, 100] that is 100 for equal strings and 0 when every bit differs |
| ImageUtils.EuclideanSquared | js/image-utils.js:191-201 | an error on a length mismatch, otherwise the sum of squared differences |
| ImageUtils.SumSquaresZeroIffEqual | js/image-utils.js:196-202 | the sum under the root is non-negative and zero exactly when the vectors are equal |
| ImageUtils.BitmapSignature | js/image-utils.js:40-60 | one character per pixel, '1' exactly when its gray value is at least the mean, and at least one '1' for a non-empty grid |
| ImageUtils.SomePixelAtLeastMean | js/image-utils.js:54-59 | in exact arithmetic some pixel is at least as bright as the mean |
| ImageUtils.ChannelBin | js/image-utils.js:117-119 | a channel falls in one of the 4 bins |
| ImageUtils.BinIndex | js/image-utils.js:122 | r·16 + g·4 + b is always one of the 64 bins |
| ImageUtils.ColorHistogram | js/image-utils.js:113-130 | 64 bins, bin k holding the number of pixels in bin k divided by 64·64 |
| ImageUtils.CountsSumToPixels | js/image-utils.js:116-124 | the raw counts sum to the number of pixels (4096 on the 64x64 grid) |
| ImageUtils.Blend | js/image-utils.js:222-232 | the histogram score lies in [0, 100] and is 0 from distance 1 on; the 70/30 blend lies in [0, 100] when the signature score does |
| ScannerModel.MergeOptions | js/scanner.js:6-14 | every option given by the caller wins over its default; with none given the options are the defaults (all checks on, threshold 90, two workers) |
| ScannerModel.ShouldSkipFile | js/scanner.js:297-313 | a file is skipped exactly when its name starts with '.' or is thumbs.db / desktop.ini in any ASCII case |
| ScannerModel.IsImageFile | js/scanner.js:315-319 | a name recognised as an image has an extension, so contains a '.' |
| ScannerModel.FilenameKey | js/scanner.js:197-200 | the map key is the last '/'-segment of the name: it holds no '/', and a name without '/' is its own key |
| ScannerModel.ThumbnailSignature | js/scanner.js:378-388 | the signature has one gray value per thumbnail pixel, each the weighted luma of that pixel (scaled by 1000), within 0..255000 |
| ScannerModel.ProcessImageFileSpec | js/scanner.js:321-351 | storing an image signature leaves the name and content maps alone and adds at most the file's own path to the image map |
| ScannerModel.ProcessFileSpec | js/scanner.js:151-195 | processing a file never changes the file, directory counters or the running flag and never decreases the byte count |
| ScannerModel.FileStep | js/scanner.js:119-121 | one file entry of the directory loop counts exactly one file, no directory, and leaves the scanner running exactly when it ran and no stop arrived during that file |
| ScannerModel.Walk | js/scanner.js:101-149 | a directory walk only grows the counters and never turns `running` back on |
| ScannerModel.WalkEntries | js/scanner.js:114-140 | the entry loop from any position only grows the counters and never turns `running` back on |
| ScannerModel.ProcessFileKeepsValid | js/scanner.js:151-195 | processing a file keeps the three maps well formed (key order matches the keys, no empty list) and every image signature stored under its own path |
| ScannerModel.FilingKeepsValid | js/scanner.js:175-186 | filing by name, then by content, then as an image keeps the index well formed |
| ScannerModel.NameStepKeepsValid | js/scanner.js:176-178 | filing by name keeps the index well formed |
| ScannerModel.ContentStepKeepsValid | js/scanner.js:180-182 | filing by content keeps the index well formed |
| ScannerModel.ImageStepKeepsValid | js/scanner.js:184-186 | filing as an image keeps the index well formed |
| ScannerModel.WalkKeepsValid | js/scanner.js:101-149 | a whole directory walk keeps the index well formed |
| ScannerModel.WalkEntriesKeepValid | js/scanner.js:114-140 | the entry loop keeps the index well formed |
| ScannerModel.Cleared | js/scanner.js:49-56 | clearing before a scan gives a well-formed empty index with `running` set and the counters kept |
| ScannerModel.PathsOf | js/scanner.js:274 | the path list has one path per file, in order |
| ScannerModel.ToNameGroups | js/scanner.js:268-277 | one name group per map entry, in order |
| ScannerModel.ToContentGroups | js/scanner.js:286-292 | one content group (the filed array) per map entry, in order |
| ScannerModel.Penalty | js/scanner.js:418-419 | the penalty of one position is never negative |
| ScannerModel.PenaltySum | js/scanner.js:413-420 | the summed penalty is never negative |
| ScannerModel.CalculateImageSimilarity | js/scanner.js:408-424 | the loop computes the similarity function: 0 for a missing or length-mismatched signature, otherwise 100 times one minus the mean penalty (NaN for two empty signatures) |
| ScannerModel.PenaltySumZero | js/scanner.js:418-419 | signatures that differ by less than 25 everywhere have penalty 0 |
| ScannerModel.PenaltySumAtMostLength | js/scanner.js:418-419 | for gray values (0..255) each penalty is at most 1, so the sum is at most the length |
| ScannerModel.RealRatio | js/scanner.js:423 | a penalty between 0 and the length gives a mean within [0, 1] |
| ScannerModel.ImageSimilarityFacts | js/scanner.js:408-424 | missing or mismatched signatures score 0; signatures close everywhere, identical ones in particular, score 100; gray-value signatures always score within [0, 100] |
| ScannerModel.ImageSimilarity | js/scanner.js:408-424 | 0 for a missing or length-mismatched signature, NaN for two empty ones, else 100 × (1 − the mean penalty) |
| ScannerModel.ClusterImages | js/scanner.js:426-476 | the greedy pass returns groups of at least two distinct paths, no path in two groups; each group is anchored at an entry and holds exactly the later untaken entries reaching the threshold, with the lowest score as its similarity; an entry left out of every group has all its passing successors grouped; fewer than two entries give no group |
| ScannerModel.Greedy | js/scanner.js:426-476 | the greedy pass over the first i images: an unprocessed image anchors a group of itself and every later unprocessed image scoring at least the threshold against it; a group of one is dropped |
| ScannerModel.GrowGroup | js/scanner.js:451-464 | the inner loop computes the group of anchor i: the anchor, then every later entry not yet processed whose score reaches the threshold, marking each processed, with the running minimum score |
| ScannerModel.GrowKeepsInv | js/scanner.js:451-464 | after any prefix of the inner loop the group's paths, members, minimum score and processed set are as described |
| ScannerModel.GreedyKeepsInv | js/scanner.js:443-472 | after any prefix of the outer loop the groups are disjoint, anchored and cover every passing successor of every entry seen |
| ScannerModel.GreedyStep | js/scanner.js:443-472 | one anchor of the outer loop keeps that invariant |
| ScannerModel.GreedyIsClustering | js/scanner.js:426-476 | the greedy pass meets every promise of image grouping stated for ClusterImages |
| ScannerModel.NameGroupsExact | js/scanner.js:263-280 | filename groups are exactly the names filed more than once, each once, paths in filing order and the size of the first file |
| ScannerModel.ContentGroupsExact | js/scanner.js:282-295 | content groups are exactly the arrays of keys filed more than once, each key once, in insertion order |
| ScannerModel.ContentKey | js/scanner.js:243-260 | a file is filed under the hexadecimal SHA-256 digest of its bytes, or under a key made of its name and size when reading fails |
| ScannerModel.UnreadableFilesShareKey | js/scanner.js:256-260 | unreadable files with the same name and size share one content key and so are reported as duplicates of each other |
| ScannerModel.ErrorKeyIsNotADigest | js/scanner.js:259 | the fallback key never equals a hex digest, since its second character 'r' is not a hex digit |
| ScannerModel.SkippedFileIsOnlyCounted | js/scanner.js:152-170 | a file that cannot be opened or is skipped leaves the maps and byte count alone yet is still counted |
| ScannerModel.StoppedWalkChangesNothing | js/scanner.js:102 | once `running` is false a directory walk changes nothing |
| ScannerModel.StoppedEntriesChangeNothing | js/scanner.js:114-115 | once `running` is false the entry loop changes nothing |
| ScannerModel.StopIsFinal | js/scanner.js:101-149 | `running` becomes false only through a stop landing during the last file counted or while the last directory listing (or the listing of the directory that stays uncounted) was read: every earlier file ran with the scanner running and no file is processed after the stop |
| ScannerModel.StopIsFinalEntries | js/scanner.js:114-140 | the same for the entry loop from any position, whose nested directories each consult the stop during their listing |
| ScannerModel.Listed | js/scanner.js:105-108 | reading a listing leaves everything but `running`, which a `stop()` landing meanwhile clears |
| ScannerModel.UninterruptedWalkCounts | js/scanner.js:101-149 | without a stop a walk counts every reachable file entry once (skipped or failed included) and every directory whose listing succeeds once |
| ScannerModel.UninterruptedEntriesCount | js/scanner.js:114-140 | the same for the entry loop from any position |
| ScannerModel.StoredImagesHaveDistinctPaths | js/scanner.js:336-341 | image entries are keyed by path, so the stored entries have distinct paths, as the grouping needs |
| ScannerModel.Scanner.constructor | js/scanner.js:6-40 | a new scanner has the merged options, empty maps and results, zero counters and is not running |
| ScannerModel.Scanner.Scan | js/scanner.js:42-99 | a scan clears the maps, walks the tree, builds exactly the groups the options ask for and ends not running, reporting the results and the three counters |
| ScannerModel.Scanner.Reset | js/scanner.js:44-56 | the start of a scan sets `running`, empties the three maps and the results and keeps the counters |
| ScannerModel.Scanner.FindDuplicates | js/scanner.js:69-79 | the results are the groups of each enabled kind, the index unchanged |
| ScannerModel.Scanner.ScanDirectory | js/scanner.js:101-149 | the new state is the directory walk of the old one; a listing that throws leaves the state as it was |
| ScannerModel.Scanner.ScanEntry | js/scanner.js:117-139 | one loop entry: a file is processed and counted, a directory walked |
| ScannerModel.Scanner.ProcessFile | js/scanner.js:151-195 | the new state is the processing of the file in the old one; results untouched |
| ScannerModel.Scanner.AddToFilenameMap | js/scanner.js:197-211 | the entry is appended to the list of its last-segment key, a new key going to the end of the key order |
| ScannerModel.Scanner.ProcessFileContent | js/scanner.js:213-241 | `{path, name, size}` is appended under the file's content key |
| ScannerModel.Scanner.CalculateFileHash | js/scanner.js:243-261 | the key is the hex digest of the bytes (two characters per digest byte) or, when reading fails, a key starting with "error-hash-" |
| ScannerModel.Scanner.ProcessImageFile | js/scanner.js:321-351 | images above 20 MiB, of another MIME type or that cannot be decoded get no signature; otherwise the signature is stored under the path, replacing an older one |
| ScannerModel.Scanner.CalculateImageSignature | js/scanner.js:353-406 | no signature exactly when the image cannot be loaded; otherwise the gray values of the thumbnail |
| ScannerModel.Scanner.FindFilenameDuplicates | js/scanner.js:263-280 | only the filename results change, to the name groups of the name map |
| ScannerModel.Scanner.FindContentDuplicates | js/scanner.js:282-295 | only the content results change, to the content groups of the content map |
| ScannerModel.Scanner.FindImageDuplicates | js/scanner.js:426-476 | only the image results change, to the greedy grouping of the stored signatures |
| ScannerModel.Scanner.Stop | js/scanner.js:478-481 | `running` becomes false, nothing else changes |
| DebugScan.FileTypeBySuffix | js/debug.js:64-77 | only the text after the last '.' decides the type, in any ASCII case; a name without '.' is classified as a whole |
| DebugScan.GetFileType | js/debug.js:64-77 | `getFileType`: the lower-cased text after the last '.' looked up in the four lists |
| DebugScan.BumpType | js/debug.js:390 | bumping a type counter never touches the `audio` and `other` counters the stats object was created with |
| DebugScan.BumpTypeKeepsInv | js/debug.js:390 | an image, document or video file adds one to its counter; an audio or other file bumps the missing key `audios`/`others`, which becomes NaN, and leaves every numeric counter as it was |
| DebugScan.FullScanSkipsArePrefix | js/debug.js:465-471 | the full scan's skip list is the first five names of the pre-count's list |
| DebugScan.FullScanSkipsAreSystem | js/debug.js:341-357 | every directory the full scan skips by name is skipped by the pre-count too |
| DebugScan.SkipSystemDirectories | js/debug.js:341-357 | `skipSystemDirectories`: a listed system name, or a name starting with '.' or '$' |
| DebugScan.FullScanSkipsNotHidden | js/debug.js:465-471 | no name on the full scan's skip list starts with '.' |
| DebugScan.HiddenDirsOnlyPreCountSkips | js/debug.js:354-356 | a hidden directory such as ".git" is left out of the pre-count yet walked by the full scan |
| DebugScan.FileStep | js/debug.js:376-462 | a file entry leaves the open-directory count as it was |
| DebugScan.OpenedStep | js/debug.js:380-459 | an opened file leaves the open-directory count as it was |
| DebugScan.Walk | js/debug.js:368-494 | the `openDirs++` on entry is undone by the `finally`, whatever the entries do |
| DebugScan.WalkEntries | js/debug.js:375-488 | the entry loop from any position leaves the open-directory count as it was |
| DebugScan.EntryStep | js/debug.js:376-487 | one loop entry leaves the open-directory count as it was |
| DebugScan.InitialInv | js/debug.js:41-61 | the initial stats and empty maps satisfy the walk invariant |
| DebugScan.NameStepKeepsInv | js/debug.js:401-410 | the name check keeps the maps well formed and `byName` equal to the number of names filed at least twice |
| DebugScan.AddDupIndicator | js/debug.js:406-409 | a push raises the count of duplicate keys by one exactly when its list reaches two entries |
| DebugScan.AddSecondSize | js/debug.js:437-441 | a push adds its file's size to the duplicate size exactly when its list reaches two entries |
| DebugScan.AddImageKeepsSeparated | js/debug.js:431-442 | filing an image below 20 MB keeps the image map holding only images and the content map holding none |
| DebugScan.AddFileKeepsSeparated | js/debug.js:443-455 | filing a non-image below 20 MB keeps the two maps apart |
| DebugScan.ImageHashStepKeepsInv | js/debug.js:431-442 | the image branch keeps the invariant: `images` counts image keys with two or more files and the duplicate size sums their second files |
| DebugScan.FileHashStepKeepsInv | js/debug.js:443-455 | the non-image branch keeps the invariant for `byContent` |
| DebugScan.HashStepKeepsInv | js/debug.js:413-459 | the content check keeps the invariant, a failed read included |
| DebugScan.FileStepKeepsInv | js/debug.js:376-462 | a file entry keeps the invariant, an unopenable one included |
| DebugScan.OpenedStepKeepsInv | js/debug.js:380-459 | an opened file keeps the invariant |
| DebugScan.StatsStepKeepsInv | js/debug.js:377-390 | changing the counters outside `duplicatesFound` and `fileTypes` keeps the invariant |
| DebugScan.OpenStepKeepsInv | js/debug.js:380-390 | counting bytes and the type of an opened file keeps the invariant |
| DebugScan.WalkKeepsInv | js/debug.js:368-494 | a directory walk keeps the invariant |
| DebugScan.WalkEntriesKeepInv | js/debug.js:375-488 | the entry loop keeps the invariant |
| DebugScan.EntryStepKeepsInv | js/debug.js:376-487 | one entry keeps the invariant |
| DebugScan.DepthCap | js/debug.js:481-486 | a subdirectory is entered only while at most five directories are open, so nothing deeper than five levels below the start affects the outcome |
| DebugScan.DepthCapEntries | js/debug.js:481-486 | the same for the entry loop at a given depth |
| DebugScan.InvOrderedKeys | js/debug.js:531-549 | under the invariant every map's key order lists its keys once each |
| DebugScan.OutcomeCounters | js/debug.js:530-577 | `byName`, `byContent` and `images` equal the lengths of the three result lists and `summary.duplicates.totalCount` their sum |
| DebugScan.OutcomeSeparatesImages | js/debug.js:544-549 | the image results hold only images below 20 MB and the content results no image |
| DebugScan.DuplicateCheck.constructor | js/debug.js:41-61 | the check starts from the initial stats and empty maps |
| DebugScan.DuplicateCheck.ProcessDirectory | js/debug.js:368-494 | the new state is the walk of the directory from the old one |
| DebugScan.DuplicateCheck.ProcessEntry | js/debug.js:376-487 | the new state is the step of one entry |
| DebugScan.DuplicateCheck.ProcessFile | js/debug.js:376-462 | a file is counted, then, once opened, its size, its type, its name and, below 20 MB, its content |
| DebugScan.DuplicateCheck.RecordName | js/debug.js:401-410 | the entry is filed under its name; `byName` and `total` go up when the list reaches two |
| DebugScan.DuplicateCheck.RecordHash | js/debug.js:413-459 | the content of a file below 20 MB is filed under its hex digest in the image or the other map; a failed read changes nothing |
| DebugScan.DuplicateCheck.RecordImageHash | js/debug.js:431-442 | the image is filed under its digest; on the second file `images`, `total` and the duplicate size go up |
| DebugScan.DuplicateCheck.RecordFileHash | js/debug.js:443-455 | the file is filed under its digest; on the second file `byContent`, `total` and the duplicate size go up |
| DebugScan.CheckDuplicates | js/debug.js:521-577 | the result is the walk from the initial state followed by the lists of the keys filed more than once, in insertion order |
| DebugScan.WalkedInv | js/debug.js:521 | the walk from the initial state keeps the invariant |
| DebugScan.CheckDuplicatesConsistent | js/debug.js:521-577 | for every tree the counters reported agree with the result lists and images are kept apart from other content |
| DebugScan.Outcome | js/debug.js:555-576 | the object resolved: the three groupings, the counters and the summary built from them |
| Statistics.ExtensionOf | js/statistics.js:75-76 | the extension is the lower-cased text after the last '.' of the last '/'-segment, so it holds neither '/' nor '.' |
| Statistics.ExtensionOfLastSegment | js/statistics.js:75 | only the last '/'-segment of a path decides its extension |
| Statistics.ExtensionBySuffix | js/statistics.js:76 | the extension of `stem.ext` is `ext` in lower case, whatever the stem |
| Statistics.BareNameIsExtension | js/statistics.js:76 | a last segment without '.' is its own extension, so a file named `jpg` counts as an image |
| Statistics.FamilyOfExt | js/statistics.js:15-77 | the family of an extension: the first of the seven lists that holds it, else 'other' (the own keys of the map only; see Findings) |
| Statistics.FamilyOf | js/statistics.js:75-77 | the family of a path is that of its extension |
| Statistics.FileTypeAsWritten | js/statistics.js:77 | `fileTypeMap[extension] || 'other'` as written, where an extension naming an `Object.prototype` member finds that member |
| Statistics.PrototypeExtensionEscapes | js/statistics.js:75-81 | a group whose first path ends in `.constructor` is looked up as the inherited `constructor` function instead of 'other' |
| Statistics.ListedExtensionsShort | js/statistics.js:15-46 | no extension of the seven lists is longer than four characters |
| Statistics.LongExtensionIsOther | js/statistics.js:77 | an extension longer than four characters falls to 'other' |
| Statistics.Plus | js/statistics.js:80-81 | `obj[family] += k` moves that family by k and no other |
| Statistics.TotalPlus | js/statistics.js:80-81 | adding k under one family adds k to the sum over all families |
| Statistics.ByFileTypeCounts | js/statistics.js:13-88 | every family starts at 0 and receives exactly the extra copies of its own groups, and their sizes |
| Statistics.ByFileTypeTotals | js/statistics.js:13-88 | summed over the families, the counts are the duplicate files of the savings analysis and the sizes its potential saving |
| Statistics.ByFileTypeStep | js/statistics.js:73-82 | one more group adds its extra copies and their size under its family to the analysis of the groups before it |
| Statistics.ByFileType | js/statistics.js:73-82 | the `forEach` over the groups: each adds its extra copies and their size under the family of its first path |
| Statistics.AnalyzeByFileType | js/statistics.js:13-88 | the loop computes the per-family counts and sizes of the groups |
| Statistics.TotalsFacts | js/statistics.js:138-151 | `totalFiles` counts every listed path, the duplicate files are all of them but one per group, and the saving never exceeds the total size |
| Statistics.TotalsOf | js/statistics.js:141-151 | the four running totals over the groups |
| Statistics.SavingsOf | js/statistics.js:138-160 | the totals and the saving percentage, 0 for a zero total size |
| Statistics.SavingPercentageBounds | js/statistics.js:153-159 | the saving percentage lies in [0, 100], is 0 when the total size is 0, and is 0 exactly when nothing can be saved |
| Statistics.AnalyzePotentialSavings | js/statistics.js:138-160 | the loop computes the four totals and the percentage of the groups |
| Statistics.NonEmpty | js/statistics.js:102 | `filter(p => p)` keeps no empty segment |
| Statistics.NeedsNodeAsWritten | js/statistics.js:108 | `!currentLevel[part]` as written: true for '_count' or '_size' exactly when that counter is falsy, and for any other part when it is no child and names no `Object.prototype` member |
| Statistics.NodeLookupEscapes | js/statistics.js:105-115 | 'toString' under the root is found as the inherited function, and '_count' under a node counted once is found as the counter, so no node is created where the model creates one |
| Statistics.AddPath | js/statistics.js:100-120 | `addPathToTree`: create the missing ancestors, then bump the parent node by one and by the size |
| Statistics.CreateNodesEffect | js/statistics.js:105-115 | walking down creates exactly the missing ancestors among the first k prefixes, each with zero counters, and keeps every existing node |
| Statistics.AddPathEffect | js/statistics.js:100-120 | adding a path creates every missing ancestor at 0, bumps only the parent node by one and by the size, and changes nothing else |
| Statistics.AddAllRecords | js/statistics.js:123-128 | after adding a list of copies each node counts exactly the copies whose parent it is and sums their sizes; the root node exists only when a copy lies directly under it and then holds NaN, as `undefined++` does |
| Statistics.UnderSnoc | js/statistics.js:118-119 | one more copy moves only its parent's counters |
| Statistics.AddPathNodes | js/statistics.js:100-120 | adding a copy keeps every node below the root recording its copies |
| Statistics.AddPathRoot | js/statistics.js:118-119 | adding a copy keeps the root record |
| Statistics.SizeUnderZero | js/statistics.js:118-119 | a node with no copies of its own has no size either |
| Statistics.DirectoryTreeRecords | js/statistics.js:95-131 | the directory tree counts, under each node, exactly the non-first paths whose parent it is, each once |
| Statistics.DirectoryTree | js/statistics.js:95-131 | every path of a group but the first added to an empty tree, group after group |
| Statistics.AddPathToTree | js/statistics.js:100-120 | the loop computes the path's addition to the tree |
| Statistics.AddAllAppend | js/statistics.js:123-128 | adding two lists of copies one after the other is adding their concatenation |
| Statistics.AddGroup | js/statistics.js:123-128 | every path of a group but the first goes into the tree, in order |
| Statistics.AnalyzeByDirectory | js/statistics.js:95-131 | the loops compute the directory tree of the groups |
| Statistics.KnownFamilyOfKey | js/statistics.js:455-467 | every family's key is recognised as that family |
| Statistics.TypeLabel | js/statistics.js:455-467 | an unknown type is its own label |
| Statistics.TypeColor | js/statistics.js:475-487 | an unknown type gets the fallback grey; every colour is a 7-character '#' code |
| Statistics.LabelsOfFamilies | js/statistics.js:455-487 | each family key gets its own label, which differs from the key, and its own colour; only 'other' shares the fallback grey |
| Statistics.TypeLabelAsWritten | js/statistics.js:466 | `labels[type] || type` as written, where a type naming an `Object.prototype` member finds that member |
| Statistics.TypeColorAsWritten | js/statistics.js:486 | `colors[type] || '#9E9E9E'` as written, likewise |
| Statistics.PrototypeTypeEscapes | js/statistics.js:455-487 | the type 'toString' gets the inherited function as its label and its colour, where it should be its own label and grey |
| AppNew.TranslateLookup | js/app-new.js:6-21 | a key of the message table gives its entry, any other key comes back unchanged |
| AppNew.Translate | js/app-new.js:19-21 | `translations[key] || key` over the own keys of the table (see Findings) |
| AppNew.TranslateAsWritten | js/app-new.js:20 | `translations[key] || key` as written, where a key naming an `Object.prototype` member finds that member |
| AppNew.TranslatePrototypeEscapes | js/app-new.js:19-21 | `translate('toString')` gives the inherited function where an unknown key should come back unchanged |
| AppNew.HmsOfFloor | js/app-new.js:35-37 | the hours, minutes and seconds floors of a non-negative duration are those of its whole seconds |
| AppNew.Quotient3600 | js/app-new.js:35-36 | flooring a division or remainder by 3600 of a non-negative duration is the integer division or remainder of its whole seconds |
| AppNew.Quotient60 | js/app-new.js:36-37 | the same for 60 |
| AppNew.TimeTextIsRender | js/app-new.js:39-51 | the assembled text is the shown fields joined by spaces, with a trailing space exactly when the seconds field is left out |
| AppNew.TimeTextFields | js/app-new.js:39-61 | with a field to show, the trimmed text is the rendered fields |
| AppNew.ShownFacts | js/app-new.js:41-51 | the shown fields are at least one, the first non-zero, minutes and seconds below 60, and together they add up to the whole duration |
| AppNew.ShownText | js/app-new.js:39-61 | for a non-zero duration the trimmed text renders the shown fields, is never blank, and the fields add up to the duration |
| AppNew.RenderEdges | js/app-new.js:39-51 | a rendering of fields starts with a digit and does not end with a space |
| AppNew.FormatTimeFields | js/app-new.js:32-62 | from ten seconds on the text writes the whole seconds as hours, minutes and seconds (minutes and seconds below 60), leaving out only leading zero hours and minutes and a zero seconds field after them, starting with a non-zero field |
| AppNew.FormatTimeNeverBlank | js/app-new.js:32-62 | 'less than a second' is never returned; NaN, 0 and negative durations give 'calculating...' and durations below ten seconds 'few seconds' |
| AppNew.FormatTime | js/app-new.js:32-62 | `formatTime(seconds)`: 'calculating...' without a positive number, 'few seconds' below ten, else the trimmed fields text |
| AppNew.TimeFormatterCases | js/app-new.js:65-78 | below 30 seconds both formatters give 'less than 30 seconds'; NaN gives 'calculating...' (behind '~ ' for an estimate); from 30 seconds on they give the fields, the estimate behind '~ ' |
| AppNew.FormatDuration | js/app-new.js:66-71 | `formatDuration`: the fixed text below 30 seconds, else `formatTime` |
| AppNew.FormatEstimatedTime | js/app-new.js:73-78 | `formatEstimatedTime`: the fixed text below 30 seconds, else `formatTime` behind '~ ' |
| AppNew.FormatElapsedTime | js/app-new.js:80-83 | `formatElapsedTime`: `formatTime` of the milliseconds since the start, in seconds |
| AppNew.ElapsedTimeCases | js/app-new.js:80-83 | a clock not past the start gives 'calculating...'; less than ten seconds past it gives 'few seconds' |
| AppNew.ElapsedNotStarted | js/app-new.js:80-83 | a clock not past the start gives 'calculating...' |
| AppNew.ElapsedFewSeconds | js/app-new.js:80-83 | less than ten seconds past the start gives 'few seconds' |
| AppNew.MillisToSeconds | js/app-new.js:81 | a millisecond difference over 1000 keeps its sign and is below ten seconds exactly when the difference is below 10000 |
| AppNew.GenerateSummary | js/app-new.js:775-805 | no results give no summary; the total count is the sum of the three list lengths; missing stats give zero totals and zero type counts |
| AppNew.GenerateSummaryOfCheck | js/app-new.js:775-805 | on what the debug scanner's check resolves to, the rebuilt summary is the check's own summary with a scan time of 0 |
| AppNew.ScanEstimator.constructor | js/app-new.js:973-989 | the estimator starts with every counter 0, no inodes and an empty size list |
| AppNew.ScanEstimator.Initialize | js/app-new.js:992-1002 | every counter is reset, the size list emptied and the start time set to now |
| AppNew.ScanEstimator.TrackFile | js/app-new.js:1004-1013 | the first call sets the update time, the depth reached becomes the larger of the two, the size is added to the total and appended to the size list, keeping the total equal to the sum of the list |
| AppNew.ScanEstimator.ProgressPercentBounds | js/app-new.js:1038-1049 | the percentage is 0 until both estimates are positive, never above 99 and never negative; with no inode recorded it is 30% of the byte progress |
| AppNew.ScanEstimator.ProgressPercent | js/app-new.js:1038-1049 | `getProgressPercent`: 0 until both estimates are positive, else 0.7 of the files share plus 0.3 of the bytes share, capped at 99 |
| AppNew.OrDefault | js/app-new.js:1079-1081 | a given non-zero option wins, a missing or zero one takes the default |
| AppNew.QuickScan | js/app-new.js:1103-1144 | the recursive scan computes the sample of the tree: nothing below the depth limit or past the file cap, files that fail to open skipped, directories counted and scanned one level deeper |
| AppNew.Scan | js/app-new.js:1103-1144 | `quickScan(handle, depth)`: nothing below the depth limit or once enough files are sampled, else the entry loop at this depth |
| AppNew.ScanKeepsInv | js/app-new.js:1103-1144 | the scan samples every file it counts, at most the file cap of them, and records no depth beyond the limit |
| AppNew.ScanEntriesKeepInv | js/app-new.js:1115-1140 | the entry loop keeps the sample invariant |
| AppNew.EntryScanKeepsInv | js/app-new.js:1121-1139 | one entry keeps the sample invariant |
| AppNew.ScanDepthCap | js/app-new.js:1106-1110 | the scan sees the tree only down to the depth limit |
| AppNew.ScanEntriesDepthCap | js/app-new.js:1115-1140 | the same for the entry loop |
| AppNew.EstimateDirectorySize | js/app-new.js:1078-1201 | the estimate is the figures computed from the sample of the tree |
| AppNew.EstimateBounds | js/app-new.js:1078-1201 | the estimate samples every file it counts, at most the file cap, reaches no deeper than the depth limit, keeps the scan time within one second .. one hour once it sampled anything (0 otherwise) and never estimates fewer files or bytes than it saw |
| AppNew.EstimateCovers | js/app-new.js:1150-1158 | a non-empty sample's estimated files and bytes are at least the counted ones |
| AppNew.EstimateDepthCap | js/app-new.js:1103-1147 | the estimate of a tree is that of the tree cut off below the depth limit |
| AppNew.Conclude | js/app-new.js:1150-1195 | the figures computed from the sample: the file multiplier, the estimated files and bytes, and the scan time clamped to one second .. one hour |
| Html.ReplaceAllKeepsAbsent | js/app-new.js:147-152 | a character absent from the text and from the replacement stays absent after a global replace |
| Html.EscapeTextChar | js/app-new.js:147-152 | on one character the chain of replacements gives its entity: '&' goes first, so no entity's '&' is escaped again |
| Html.EscapeTextFrom | js/app-new.js:148-152 | the later replacements leave an entity alone |
| Html.EscapeTextAppend | js/app-new.js:147-152 | escaping distributes over concatenation |
| Html.EscapeTextIsPerChar | js/app-new.js:147-152 | the chain of global replacements escapes character by character |
| Html.EscapedHasNoSpecials | js/ui-controller.js:531-539 | no '<', '>', '"' or ''' survives escaping; the copy inside `displayResults` is the same chain as `js/app-new.js:145-153`, so one `EscapeHtml` serves both |
| Html.UnescapeEscapeChars | js/app-new.js:147-152 | escaping loses nothing: decoding the entities gives the text back |
| Html.EscapeHtmlRoundTrip | js/app-new.js:145-153 | `escapeHtml` round-trips on strings and gives '' on anything else |
| Html.EscapeHtml | js/app-new.js:145-153 | `escapeHtml`: '' for a non-string, else the chain of five global replacements |
| UiController.ScanSettings.constructor | js/ui-controller.js:317-325 | the settings object holds the five fields it is built from |
| UiController.ValidateScanSettings | js/ui-controller.js:299-315 | a missing object is an error; otherwise the same object is returned with a non-number or below-1 worker count replaced by the reported core count (or 2), a non-number or out-of-[0,100] threshold replaced by 90, and the three flags untouched |
| UiController.CheckedWorkerCount | js/ui-controller.js:304-306 | the worker count kept: a non-number or a number below 1 becomes the core count or 2; NaN stays |
| UiController.CheckedThreshold | js/ui-controller.js:308-312 | the threshold kept: a non-number or a number outside 0..100 becomes 90; NaN stays |
| UiController.CheckedFieldsValid | js/ui-controller.js:304-312 | after the check both fields are numbers, the worker count at least 1 and the threshold within 0..100 unless the field held NaN, and checking again changes nothing |
| UiController.NaNWorkerCountKept | js/ui-controller.js:304-312 | a NaN worker count or threshold, what `parseInt` gives for a non-numeric field, passes the check unchanged |
| UiController.StrictWorkerCountValid | js/ui-controller.js:304-306 | the corrected check always leaves a finite worker count of at least 1 and keeps every valid one |
| UiController.RecommendedWorkersBounds | js/ui-controller.js:495-500 | the recommendation never exceeds 8, nor the core count when there is a core; it is at least 1 exactly when there are 2 GB of memory and 0 below that |
| UiController.RecommendedWorkers | js/ui-controller.js:495-500 | the least of cores − 1 (at least 1), half the memory rounded down, and 8 |
| UiController.LabelsAgree | js/ui-controller.js:485-510 | the class and the impact badge agree, and an option over the core count is never labelled recommended |
| UiController.OptimalClass | js/ui-controller.js:485-493 | 'not-recommended' over the core count, 'recommended' at the recommended count, else no class |
| UiController.PerformanceImpact | js/ui-controller.js:502-510 | the warning badge over the core count, the optimal badge at the recommended count, else the neutral one |
| UiController.OverCoreRecommendation | js/ui-controller.js:485-500 | with cores = 0 and 4 GB one worker is recommended, yet that option is labelled not recommended (cores = 0 is reachable only by a direct call, since js/app.js:818 puts 4 in place of a missing count) |
| UiController.SecondsTextFields | js/ui-controller.js:129-135 | from a minute on the text gives whole minutes and the leftover seconds (below 60), which together make the seconds; below a minute the seconds alone |
| UiController.StaticFormatTimeMinutes | js/ui-controller.js:126-136 | a positive `ms` is written through its whole seconds, which reach a minute exactly from 60000 on |
| UiController.StaticFormatTime | js/ui-controller.js:126-136 | `UIController.formatTime(ms)`: the zero text for 0 or NaN, else minutes and remaining seconds, or seconds alone below a minute |
| UiController.ScaleDownFacts | js/ui-controller.js:173-176 | the unit loop keeps the unit index within the four units and the value times 1024 to the unit index equal to the input; it stops below 1024 unless at the largest unit, and a divided value is at least 1 |
| UiController.FormatSpeed | js/ui-controller.js:164-179 | NaN or 0 gives '0 B'; otherwise the loop result, a value and one of B/KB/MB/GB |
| UiController.FormatSpeedUnit | js/ui-controller.js:164-179 | the printed value times 1024 to the unit's index is the input, and the unit is the largest that keeps the value at least 1 (or GB); below 1024 the value is the input in B |
| UiController.PadKeepsValue | js/ui-controller.js:1154-1156 | padding digits with zeros keeps them digits and keeps their value |
| UiController.PaddedField | js/ui-controller.js:1154-1156 | a padded field is digits only, reads back as its value, and is exactly two digits below 100 |
| UiController.ClockArithmetic | js/ui-controller.js:1149-1153 | for a non-negative whole number of seconds the `%=` steps give hours, minutes below 60 and seconds that add back to the number |
| UiController.ClockFieldsSplit | js/ui-controller.js:1154-1156 | three padded fields joined by ':' split back into digit fields that read back as the numbers |
| UiController.ClockRoundTrip | js/ui-controller.js:1148-1157 | for a non-negative input the clock splits at ':' into three digit fields, minutes and seconds two digits each and below 60, that read back as the whole seconds of the input |
| UiController.ClockText | js/ui-controller.js:1148-1157 | the module `formatTime(seconds)`: floor, hours, then minutes and seconds by `%=`, each padded to two characters, joined by ':' |
| UiController.PercentCompleteBounds | js/ui-controller.js:748-754 | the percentage lies in 0..99, is 99 once every file is scanned, and never decreases as files are scanned |
| UiController.PercentComplete | js/ui-controller.js:748-754 | the bar percentage: 0 without a positive file total, else the rounded share capped at 99 |
| AppLegacy.CutOffsDiffer | js/app.js:179-182 | the three finders disagree at the edges: a file of exactly 10 MB is hashed only by `testDuplicateDetection`, one from 5 MB up to 10 MB by `checkDuplicates` but not by `quickCheckDuplicates` |
| AppLegacy.NameIndex | js/app.js:1133-1137 | the name map built from the recorded files is well formed |
| AppLegacy.NameIndexPaths | js/app.js:1126-1137 | a name is a key exactly when some recorded file has it, and its list is the paths of the files with that name, in scan order |
| AppLegacy.InitialInv | js/app.js:1115-1117 | the empty lists and maps satisfy the walk invariant |
| AppLegacy.SmallPathsGrow | js/app.js:1126-1140 | recording a file keeps every earlier small path and adds its own when it is below the cut-off |
| AppLegacy.RecordKeepsInv | js/app.js:1126-1137 | recording a file keeps the name map the one its files give |
| AppLegacy.HashStepKeepsInv | js/app.js:1140-1156 | the content check keeps the invariant (every path under a digest is a recorded file below the cut-off) and records no file |
| AppLegacy.FileStepKeepsInv | js/app.js:1122-1156 | a file that opens keeps the invariant |
| AppLegacy.WalkKeepsInv | js/app.js:1120-1162 | a walk that does not throw keeps the invariant |
| AppLegacy.Walk | js/app.js:1120-1162 | `processDirectory(handle, path)`: the entries in order; a listing that throws aborts the search |
| AppLegacy.WalkEntriesKeepInv | js/app.js:1121-1161 | the entry loop keeps the invariant |
| AppLegacy.EntryStepKeepsInv | js/app.js:1122-1160 | one entry keeps the invariant |
| AppLegacy.AbortsOnError | js/app.js:1120-1123 | a listing that throws, or a file directly in the directory that cannot be opened, makes the walk throw, so the whole search returns null |
| AppLegacy.ListingAborts | js/app.js:1121 | a listing that throws makes the loop throw from any position |
| AppLegacy.FileAborts | js/app.js:1123 | an unopenable file ahead in the listing makes the loop throw |
| AppLegacy.WalkedInv | js/app.js:1164 | a completed walk from the empty state keeps the invariant |
| AppLegacy.CheckDuplicatesExact | js/app.js:1109-1185 | when the search resolves, `byName` lists exactly the names of two or more recorded files, each once, with every path of that name in scan order; `byContent` lists only keys with two or more paths, each the path of a recorded file below 10 MB, and is exactly the grouping of the (hex digest, path) pairs of the readable files below 10 MB in walk order: every digest shared by two or more such files is listed once, with exactly their paths in order |
| AppLegacy.DigestKey | js/app.js:1142-1146 | a hashed file is keyed by the hexadecimal text of the SHA-256 digest of its bytes |
| AppLegacy.HashedPairs | js/app.js:1120-1162 | the walk pushes one (digest, path) pair for each file below 10 MB whose bytes were read, in walk order |
| AppLegacy.AddAll | js/app.js:1148-1152 | the pairs pushed onto the map one after the other |
| AppLegacy.AddAllAppend | js/app.js:1148-1152 | pushing two runs of pairs one after the other is pushing their concatenation |
| AppLegacy.AddAllPaths | js/app.js:1148-1152 | pushing pairs onto an empty map makes a key exactly of each digest some pair has, its list exactly the paths paired with it, in order |
| AppLegacy.WalkHashes | js/app.js:1120-1162 | a walk that resolves has pushed exactly the directory's (digest, path) pairs onto the content map |
| AppLegacy.WalkEntriesHashes | js/app.js:1121-1161 | the same for the entry loop from any position |
| AppLegacy.EntryHashes | js/app.js:1122-1160 | one entry pushes its own pair (a file below 10 MB that was read) or its subdirectory's pairs |
| AppLegacy.WalkedContentGroups | js/app.js:1164-1171 | after a walk that resolves, the content groups are the keys with two or more paths of the pushed pairs, each once, with exactly its paths in order, and no such key is missing |
| AppLegacy.LegacyCheck.constructor | js/app.js:1115-1117 | the search starts with no files and empty maps |
| AppLegacy.LegacyCheck.ProcessDirectory | js/app.js:1120-1162 | the new state is the walk of the directory; the result says whether it threw |
| AppLegacy.LegacyCheck.ProcessEntry | js/app.js:1122-1160 | the new state is the step of one entry; the result says whether it threw |
| AppLegacy.LegacyCheck.ProcessFile | js/app.js:1122-1156 | a file is recorded, its path pushed under its name and, below the cut-off, under its digest; the result says whether opening it threw |
| AppLegacy.CheckDuplicates | js/app.js:1109-1185 | null when the walk threw, otherwise the duplicate names, the duplicate contents and every recorded file |
| AppLegacy.QuickCheckDuplicates | js/app.js:218-296 | the same walk with a 5 MB cut-off; null when it threw, otherwise the duplicate names and contents |
| AppLegacy.FileCollector.constructor | js/app.js:122 | the collector starts with no files |
| AppLegacy.FileCollector.CollectFiles | js/app.js:125-152 | the files of the directory, in listing order with subdirectories in place, are appended; unopenable files are skipped and a failing listing keeps what it yielded |
| AppLegacy.FileCollector.CollectEntry | js/app.js:130-147 | one entry appends its own file or its subdirectory's files |
| AppLegacy.TestNameIndex | js/app.js:159-168 | the name map of the collected files is well formed |
| AppLegacy.TestHashIndex | js/app.js:178-199 | the digest map of the collected files is well formed |
| AppLegacy.IndexByName | js/app.js:159-168 | the loop pushes every collected file under its name |
| AppLegacy.IndexByContent | js/app.js:178-199 | the loop pushes every readable collected file of at most 10 MB under its hex digest |
| AppLegacy.TestDuplicateDetection | js/app.js:117-215 | the result is the collected files with their name and content groups of two or more, which AppLegacy.TestOutcomeExact shows are exactly the shared names and digests |
| AppLegacy.TestNameIndexSound | js/app.js:159-168 | every file under a name key has that name |
| AppLegacy.TestHashIndexSound | js/app.js:178-199 | every file under a digest key is at most 10 MB, was readable, and has that digest |
| AppLegacy.TestNameGroupsSound | js/app.js:170-171 | each reported name group holds two or more collected files, all with that name |
| AppLegacy.TestContentGroupsSound | js/app.js:201-202 | each reported content group holds two or more collected files of at most 10 MB, all with that digest |
| AppLegacy.FilesNamedMembers | js/app.js:160-168 | a file is listed under a name exactly when it is collected and has that name |
| AppLegacy.FilesHashedMembers | js/app.js:181-199 | a file is listed under a digest exactly when it is collected, at most 10 MB, readable and has that digest |
| AppLegacy.TestNameIndexFiles | js/app.js:159-168 | a name is a key of `filenameMap` exactly when some collected file has it, and its list is exactly those files in collection order |
| AppLegacy.TestHashIndexFiles | js/app.js:178-199 | a digest is a key of `hashMap` exactly when some hashed file has it, and its list is exactly those files in collection order |
| AppLegacy.NameGroupsOfIndex | js/app.js:170-171 | the name groups list each name shared by two or more files once, with exactly its files, and no other name |
| AppLegacy.HashGroupsOfIndex | js/app.js:201-202 | the content groups list each digest shared by two or more hashed files once, with exactly its files, and no other digest |
| AppLegacy.TestOutcomeExact | js/app.js:159-210 | the result reports every duplicate and only duplicates: every shared name and every shared digest of readable files of at most 10 MB appears exactly once, with exactly the files that share it |
| AppLegacy.Records | js/app.js:1126-1130 | one record per collected file |
| AppLegacy.RecordsAppend | js/app.js:1126-1130 | records of a concatenation are the concatenated records |
| AppLegacy.HealthyWalksAgree | js/app.js:1120-1162 | on a tree without errors `checkDuplicates` resolves and records exactly the files `testDuplicateDetection` collects, in the same order under the same paths |
| AppLegacy.HealthyEntriesAgree | js/app.js:1121-1161 | the same for the entry loop from any position |
| AppLegacy.HealthyEntryAgrees | js/app.js:1122-1160 | the same for one entry |
| AppLegacy.FormatTimeIsClock | js/app.js:490-500 | on a non-negative input the clock text equals the other front end's, so its fields read back as the whole seconds |
| AppLegacy.FormatTime | js/app.js:490-500 | `formatTime(seconds)`: the floors of hours, minutes and seconds, each padded to two characters and joined by ':' |
| AppLegacy.ProgressPercentBounds | js/app.js:647-655 | the bar is left alone before the first file, then shows 1..99 and never moves backwards as more files are scanned |
| AppLegacy.ProgressPercent | js/app.js:647-655 | the bar percentage: none before the first file, else the rounded share of f in f + 100, capped at 99 |
| AppLegacy.FileEntries | js/app.js:730-735 | the file entries are among the listing and are files |
| AppLegacy.FileEntriesAppend | js/app.js:730-735 | the file entries of a concatenation are the concatenated file entries |
| AppLegacy.GetSampleFiles | js/app.js:727-741 | the directory's file entries in order, stopping as soon as `sampleSize` are held (at least one once a file is seen); when the loop reaches the end of a listing that then throws, the empty list |
| AppLegacy.SampleComplete | js/app.js:733 | once `cap` files of the first entries are held, they are the first `cap` file entries of all |
| AppLegacy.FileEntriesPrefix | js/app.js:730-735 | the file entries of a prefix are a prefix of the file entries |
| AppLegacy.PreScanEstimate | js/app.js:447 | the pre-scan estimate is at least 10 seconds, a tenth of a second per file from 100 files on |
| AppLegacy.RemainingSecondsFacts | js/app.js:679-690 | an estimate exists exactly when time has passed, a file was scanned and files remain; it is the time the remaining files (at least 100) take at the rate so far |
| AppLegacy.RemainingSeconds | js/app.js:679-690 | the remaining-time estimate: at least 100 remaining files over the files per second, shown only while that rate is positive and files remain |
| UsbDetector.AnalyzeSpeedFacts | js/usb-detector.js:47-83 | the reported speed is the average of the two; the result is optimal exactly when the average exceeds 60 MB/s, and then carries details, otherwise a warning; the tier boundaries are strict |
| UsbDetector.AnalyzeSpeed | js/usb-detector.js:47-83 | `analyzeSpeed`: the tier of the average speed, with its name, note and colour |
| UsbDetector.TierMonotone | js/usb-detector.js:51-82 | a faster average never gives a slower tier |
| UsbDetector.AverageBetween | js/usb-detector.js:48 | the average lies between the two speeds and is half their sum |
| UsbDetector.DetectConnectionCases | js/usb-detector.js:2-14 | the result has type 'Unknown', and has no colour, exactly when the speed test threw; that fallback reports speed 0, not optimal, with a warning |
| UsbDetector.DetectConnection | js/usb-detector.js:2-14 | `detectConnection`: the analysis of the speed test, or the fixed 'Unknown' result when it throws |
| UsbDetector.TierNamesDistinct | js/usb-detector.js:51-82 | the four tier names are distinct, so the type alone tells the tier |
| Multimap.Add | js/scanner.js:201-205 | `set(k, [v])` or `get(k).push(v)`: the key is added (at the end of the key order when new), its array gains v at the end, every other key keeps its array, and a well-formed map stays well formed |
| Multimap.AddMembers | js/scanner.js:201-205 | every value after a push is the pushed value or was there before |
| Multimap.GroupsExact | js/scanner.js:263-295 | the collected groups are exactly the keys with two or more values, each once, each with its whole array |
| Multimap.CollectGroups | js/debug.js:531-549 | the `forEach` loop collects, in insertion order, the keys whose arrays hold more than one value |
| Multimap.GroupsOfSnoc | js/debug.js:531-535 | one more key in the order adds that key's entry to the groups exactly when it is a duplicate |
| Multimap.TallyCountsGroups | js/debug.js:406-409 | the number of keys with two or more values is the number of groups |
| Multimap.AddTally | js/debug.js:401-410 | one push moves a per-key tally only by the change on the one array it touched |
| Multimap.Put | js/scanner.js:336-341 | `set(k, v)` replaces or adds the value, appending the key to the order only when new |
| Multimap.Values | js/scanner.js:437 | `Array.from(m.values())`: one value per key, in insertion order |
| FsTree.JoinPath | js/scanner.js:117 | a child's path is its bare name at the root and the parent path plus '/' plus the name below it |
| FsTree.LastSegmentOfJoin | js/scanner.js:117 | the last '/'-segment of a joined path is the entry's own name |
| FsTree.Truncate | js/debug.js:481-486 | the depth-cut tree keeps the root's name and number of entries |

## Left out

- Rendering and the DOM: the `UI` object of `js/app-new.js` apart from `escapeHtml` and `generateSummary`, the show/display/update rendering of `js/ui-controller.js`, the chart builders of `js/statistics.js` and the button wiring of `js/app.js`.
- The File System Access API (`showDirectoryPicker`, permission requests, `for await` over a handle, `getFile`): the model starts from an `FsTree` value.
- SHA-256 (section 6.2 of FIPS 180-4) is computed by the browser: the digest is a function parameter; only its hexadecimal encoding is modelled.
- Image decoding and canvas drawing: the model starts from the pixel array of the drawing: the 16×16 thumbnail of the scanner, the 32×32 signature and the 64×64 histogram image of `js/image-utils.js`.
- ImageUtils.BitmapSignature: compares grey values exactly, as the integer luma 299·R + 587·G + 114·B (one thousand times the grey value). `js/image-utils.js:48-55` computes each grey value, the running sum and the mean in doubles, so rounding can put the mean just above a uniform image's value and give '0' where the model gives '1'. ScannerModel.ThumbnailSignature likewise leaves out the float32 rounding of the grey values stored in the scanner's `Float32Array` (`js/scanner.js:375`).
- `toLowerCase` is modelled on ASCII letters only.
- JavaScript numbers are IEEE doubles; the model computes in exact reals, so no division, product, sum or conversion rounds. `Math.round`, `Math.floor`, truncation and comparisons are applied to the exact value. The results can differ where a double lands just below or above a half-way point or a threshold. This affects UiController.PercentComplete, UiController.StaticFormatTime, UiController.ClockText, UiController.FormatSpeed, UiController.RecommendedWorkers, AppLegacy.ProgressPercent, AppLegacy.FormatTime, AppLegacy.PreScanEstimate, AppLegacy.RemainingSeconds, AppNew.FormatTime, AppNew.ScanEstimator.ProgressPercent, ImageUtils.SimilarityPercentage, ImageUtils.ColorHistogram, ImageUtils.EuclideanSquared, ImageUtils.Blend, ScannerModel.CalculateImageSimilarity, Statistics.SavingsOf and UsbDetector.AnalyzeSpeed.
- UiController.PercentComplete: rounds the exact share, not the double. With totalFiles = 200 and filesScanned = 29 the source computes `Math.round(14.499999999999998)`, which is 14; the model gives 15.
- ScannerModel.Scanner.ScanDirectory: the `progressCallback` call after each file (`js/scanner.js:123-135`) is not modelled. Its payload is not what its names suggest: `totalFiles` is the entry count of the current directory only, and `duplicatesFound` holds the key counts of the three maps, not counts of duplicates.
- ScannerModel.StopIsFinal: the listing oracle is keyed by `(filesScanned, dirsScanned)`. A listing that throws does not advance `dirsScanned`, so the next sibling's listing gets the same answer. A stop that lands during the second of two such listings but not the first is therefore not among the schedules the model covers.
- `Date.now()` and timers: the moment `stop()` takes effect is given by two oracles, one consulted after each file and one while each directory listing is read; elapsed times are taken as arguments.
- The size formatters built on `Math.log` and `toFixed` (`formatSize`, `formatBytes`, `formatMemory`) and the square root of the Euclidean distance (the model keeps the sum of squares).
- The pre-count `countFiles` of `js/debug.js:287-339` is not modelled; its result enters as a parameter.
- The pre-scan walk of `showScanEstimate` in `js/app.js:430-444` is not modelled; only the formula of line 447 is.
- `USBDetector.performSpeedTest` writes and times a 50 MB file: its outcome is a parameter.
- `estimateCompletionTime` and `calculateEstimatedTime` in `js/app.js` sample at random and are not modelled.
- The file objects of `testDuplicateDetection` and `quickCheckDuplicates` are reduced to name, path, size and content.
- `js/file-worker.js`, `js/system-check.js` and `js/app-state.js` are not part of this model.
- The `escapeHtml` nested in the module-level `displayResults` (`js/ui-controller.js:883-891`): `/<//g` parses as `/</ / g`, a division by the undeclared `g`, so the function throws a ReferenceError whenever it is called; it is not modelled (the class's own `escapeHtml` is, in `Html`).
- Module initialisation of `js/app.js`, whose duplicate declarations keep it from loading, is not modelled; its functions are modelled one by one.
- Console logging and the `debugInfo` text are not modelled.
- AppNew.ElapsedTimeCases: states only the 'calculating...' and 'few seconds' cases of `formatElapsedTime`; from ten seconds on it is `formatTime`, whose fields AppNew.FormatTimeFields states.
- AppNew.ScanEstimator.TrackFile: leaves `bytesPerSecond` unchanged; the smoothing of `js/app-new.js:1015-1019`, the `updateEstimates` call every two seconds and `getEstimatedRemainingTime` depend on the clock and floating point.
- AppNew.EstimateDirectorySize: does not model the `Date.now()` time budget of the quick scan, nor the time formulas of `js/app-new.js:1150-1173` beyond the final clamp.
- Statistics.ByFileTypeStep: states the lookup over the own keys of `fileTypeMap`; an extension naming an `Object.prototype` member (such as `constructor`) is looked up differently by the source, as Statistics.FileTypeAsWritten and the Findings table show.
- Statistics.ByFileTypeCounts: states the lookup over the own keys of `fileTypeMap`; an extension naming an `Object.prototype` member (such as `constructor`) is looked up differently by the source, as Statistics.FileTypeAsWritten and the Findings table show.
- Statistics.ByFileTypeTotals: states the lookup over the own keys of `fileTypeMap`; an extension naming an `Object.prototype` member (such as `constructor`) is looked up differently by the source, as Statistics.FileTypeAsWritten and the Findings table show.
- Statistics.AnalyzeByFileType: states the lookup over the own keys of `fileTypeMap`; an extension naming an `Object.prototype` member (such as `constructor`) is looked up differently by the source, as Statistics.FileTypeAsWritten and the Findings table show.
- Statistics.CreateNodesEffect: creates a node wherever a segment is no child yet; the source's `!currentLevel[part]` also finds `Object.prototype` members and a node's own `_count` and `_size`, as Statistics.NeedsNodeAsWritten and the Findings table show.
- Statistics.AddPathEffect: creates a node wherever a segment is no child yet; the source's `!currentLevel[part]` also finds `Object.prototype` members and a node's own `_count` and `_size`, as Statistics.NeedsNodeAsWritten and the Findings table show.
- Statistics.AddAllRecords: creates a node wherever a segment is no child yet; the source's `!currentLevel[part]` also finds `Object.prototype` members and a node's own `_count` and `_size`, as Statistics.NeedsNodeAsWritten and the Findings table show.
- Statistics.AddPathNodes: creates a node wherever a segment is no child yet; the source's `!currentLevel[part]` also finds `Object.prototype` members and a node's own `_count` and `_size`, as Statistics.NeedsNodeAsWritten and the Findings table show.
- Statistics.AddPathRoot: creates a node wherever a segment is no child yet; the source's `!currentLevel[part]` also finds `Object.prototype` members and a node's own `_count` and `_size`, as Statistics.NeedsNodeAsWritten and the Findings table show.
- Statistics.DirectoryTreeRecords: creates a node wherever a segment is no child yet; the source's `!currentLevel[part]` also finds `Object.prototype` members and a node's own `_count` and `_size`, as Statistics.NeedsNodeAsWritten and the Findings table show.
- Statistics.AddPathToTree: creates a node wherever a segment is no child yet; the source's `!currentLevel[part]` also finds `Object.prototype` members and a node's own `_count` and `_size`, as Statistics.NeedsNodeAsWritten and the Findings table show.
- Statistics.AnalyzeByDirectory: creates a node wherever a segment is no child yet; the source's `!currentLevel[part]` also finds `Object.prototype` members and a node's own `_count` and `_size`, as Statistics.NeedsNodeAsWritten and the Findings table show.
- Statistics.TypeLabel: states the lookup over the own keys of `labels`; a type naming an `Object.prototype` member is looked up differently by the source, as Statistics.TypeLabelAsWritten and the Findings table show.
- Statistics.TypeColor: states the lookup over the own keys of `colors`; a type naming an `Object.prototype` member is looked up differently by the source, as Statistics.TypeColorAsWritten and the Findings table show.
- AppNew.TranslateLookup: states the lookup over the own keys of `translations`; a key naming an `Object.prototype` member is looked up differently by the source, as AppNew.TranslateAsWritten and the Findings table show.

## Findings

| source | as written | input that shows it | evidently intended | confidence | as-written member | corrected member |
|---|---|---|---|---|---|---|
| js/file-utils.js:110 | `mimeTypes[ext]` also finds members inherited from `Object.prototype` | a file named `a.constructor` gets the `Object` function instead of a MIME string | only the table's own keys map to a type; anything else is `application/octet-stream` | not executed; high | FileUtils.PrototypeKeyEscapes | FileUtils.GetMimeTypeAgrees |
| js/ui-controller.js:304-306 | `typeof NaN` is `'number'` and `NaN < 1` is false, so a NaN worker count (and a NaN threshold) passes the check | `workerCount = NaN` | a worker count that is not a number of at least 1 is replaced | not executed; medium | UiController.NaNWorkerCountKept | UiController.StrictWorkerCountValid |
| js/statistics.js:77 | `fileTypeMap[extension]` also finds members inherited from `Object.prototype` | a group whose first path is `d/x.constructor`: its copies go under a key named after the `constructor` function, where they add to undefined, and 'other' is left unchanged | an extension outside the lists counts as 'other' | not executed; high | Statistics.PrototypeExtensionEscapes | Statistics.ByFileTypeCounts |
| js/statistics.js:108 | `!currentLevel[part]` also finds inherited members and the node's own `_count` and `_size` counters | a copy at `toString/a.txt` (no node is created; the counters are bumped on the inherited function); a copy at `a/_count/c.txt` after one at `a/b.txt` (the walk descends into the number 1) | every directory segment gets its own node | not executed; high | Statistics.NodeLookupEscapes | Statistics.AddPathEffect |
| js/statistics.js:466-486 | `labels[type]` and `colors[type]` also find inherited members | the type `toString` gets a function as its label and as its colour | an unknown type is its own label and is drawn grey | not executed; medium | Statistics.PrototypeTypeEscapes | Statistics.TypeColor |
| js/app-new.js:20 | `translations[key]` also finds inherited members | `translate('toString')` returns the `toString` function | an unknown key comes back unchanged | not executed; high | AppNew.TranslatePrototypeEscapes | AppNew.TranslateLookup |
