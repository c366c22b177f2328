# Archive migration: a verified model

The system moves game archives from two storage buckets into a new store.
It runs in two stages.

**Preparation** (`migrate/main.ts`):
- It lists the archive objects of both buckets.
- It tags each object with the catalog game its file name matches, using a fuzzy matcher over normalised titles.
- It drops the untagged objects and tags each remaining one with a platform.
- It groups the objects into `File`s of `FileItem`s, one group per game, platform and multi-volume archive.

**Migration** (`migrate/migrate.ts`) processes each group in turn:
- It downloads every part through a download daemon, with retries, stall recovery and cleanup of stale partial files (`migrate/libs/download.ts`).
- It extracts the primary volume, recompresses the result and uploads it.
- It records every item's status both in memory and in the persisted list of groups.

The model has one Dafny module per source file:
- `Text`: `text.helper.ts`.
- `FilePath`: `parse-file-path.helper.ts`.
- `StripExt`: `strip-ext.ts`.
- `FileUtils`: `utils/file.ts`.
- `GameMatcher`: `game-matcher.helper.ts`.
- `Preparation`: `main.ts`.
- `Download`: `libs/download.ts`.
- `Migrate`: `migrate.ts`.

There are three shared modules:
- `Types` holds the interfaces.
- `Seqs` holds sequence helpers and `Option`.
- `OrderedMaps` holds an insertion-ordered map standing for a JavaScript `Map` or `Set`.

The insertion order matters. The matcher's tie-break takes the first best score in insertion order. The groups are listed in the order their keys first occur.

Each loop of the source is a method with a loop. The method is proved equal to a function on values, and the properties are proved about that function:
- `ToHalfWidth` and `ExtractCjkBigrams`;
- the index building and the scoring;
- `detectMultipartMissing`;
- the tagging and grouping passes;
- the poll loop and the retry loop.

State that the source changes in place is modelled by classes:
- `FinalFilesStore` holds the persisted `final_files.json`, with a write counter.
- `LocalDisk` holds the local files as a map from path to size. A directory is not an entry of its own: it exists when some file lies under it (`PathExists`).
- `Migrator` holds the groups `main` loaded, the disk, the store and a log of the outside calls.

Each method of these classes states its new state as a function of the old one. The properties of `process` and `main` are lemmas about those functions.

The outside world is given as inputs:
- Replies to HEAD requests and daemon status polls are sequences of answers.
- What the daemon, the archive tool and the upload do is a reply per call: a result or an error, and the change it makes to the files.
- Time is the clock value carried by each poll.

## Model

| member | source | states |
|---|---|---|
| Text.HalfWidth | migrate/helpers/text.helper.ts:5-18 | Same length; each character folded on its own; no full-width form or ideographic space remains. |
| Text.ToHalfWidth | migrate/helpers/text.helper.ts:5-18 | The index loop keeps the length. It maps code 12288 to 32 and shifts 65281..65374 down by 65248. Every other code is unchanged, and no full-width code remains. |
| Text.HalfWidthIdempotent | migrate/helpers/text.helper.ts:9-12 | Folding twice is folding once. |
| Text.Lower | migrate/helpers/text.helper.ts:27 | Same length, no ASCII upper case left, other characters unchanged. |
| Text.Fold | migrate/helpers/text.helper.ts:27 | Half-width then lower case: same length, no upper-case ASCII and no full-width form. |
| Text.FoldAppend | migrate/helpers/text.helper.ts:27 | Folding works character by character, so it distributes over concatenation. |
| Text.FoldFixes | migrate/helpers/text.helper.ts:27 | A string with no upper-case ASCII and no full-width form is its own fold. |
| Text.StripArchiveSuffix | migrate/helpers/text.helper.ts:20-24 | The result is always a prefix of the name. |
| Text.StripArchiveSuffixNoDot | migrate/helpers/text.helper.ts:20-24 | A name without a dot is unchanged. |
| Text.StripSplitVolume | migrate/helpers/text.helper.ts:22 | `x.7z.001` (any container extension, 3+ digits) becomes `x`, for any `x` that does not itself end in a volume tag. |
| Text.StripContainerExt | migrate/helpers/text.helper.ts:22 | `x.zip` / `x.rar` / `x.7z` becomes `x`, for any `x` that does not itself end in a volume tag. |
| Text.StripPartVolume | migrate/helpers/text.helper.ts:22-23 | `x.part1.rar` becomes `x` for every `x`: the first replace removes the extension, the second the part tag. |
| Text.StripRzVolume | migrate/helpers/text.helper.ts:23 | `x.r00` / `x.z01` becomes `x` for every `x`. |
| Text.ReplaceBrackets | migrate/helpers/text.helper.ts:29 | Same length; each bracket becomes a space, nothing else changes. |
| Text.CollapseRuns | migrate/helpers/text.helper.ts:30-31 | Never longer; every kept character is a space or an original character outside the collapsed class. |
| Text.CollapseRunsKeepsOthers | migrate/helpers/text.helper.ts:30-31 | Every character outside the collapsed class, other than a space, survives in its original order. |
| Text.CollapseRunsAppend | migrate/helpers/text.helper.ts:30-31 | The replacement works piece by piece: the second piece starts inside a run exactly when the first ends with a class character. |
| Text.CollapseRunsOfRun | migrate/helpers/text.helper.ts:30-31 | A whole run of class characters becomes one space, or nothing when it continues a run already replaced. |
| Text.CollapseRunsMaximalRun | migrate/helpers/text.helper.ts:30-31 | Where a maximal run stood, the result has exactly one space, between the replacements of the text on either side. |
| Text.Trim | migrate/helpers/text.helper.ts:31 | The result is the infix left after dropping only white space from both ends, and it neither starts nor ends with white space. |
| Text.CollapseSpacesNoAdjacent | migrate/helpers/text.helper.ts:31 | After collapsing white space there are never two white-space characters in a row. |
| Text.NormalizeIsNormalized | migrate/helpers/text.helper.ts:26-32 | Every `normalize` result has no upper case, no full-width form and none of `. _ - [ ] { } ( )`. Its only white space is single plain spaces, none at either end. |
| Text.NormalizeFixesNormalized | migrate/helpers/text.helper.ts:26-32 | A string of that shape is left unchanged by `normalize`. |
| Text.NormalizeIdempotent | migrate/helpers/text.helper.ts:26-32 | `normalize(normalize(x)) == normalize(x)`. |
| Text.TokenRunsSound | migrate/helpers/text.helper.ts:38 | Every run the scan yields is a maximal `[a-z0-9]` run of the string. |
| Text.TokenRunsComplete | migrate/helpers/text.helper.ts:38 | Every maximal `[a-z0-9]` run of the string is yielded by the scan. |
| Text.TokenRunsOrder | migrate/helpers/text.helper.ts:38 | The scan yields runs left to right: a run yielded first occurs in the string before every occurrence of a later one. |
| Text.LatinTokensAreMaximalRuns | migrate/helpers/text.helper.ts:37-40 | The tokens are distinct and are exactly the maximal `[a-z0-9]` runs of length at least 2. They are listed in order of first occurrence: each earlier token occurs before every occurrence of each later one. |
| Text.CjkChars | migrate/helpers/text.helper.ts:43-45 | Keeps exactly the characters in the CJK ranges. |
| Text.ExtractCjkBigrams | migrate/helpers/text.helper.ts:42-51 | The push loop computes the deduplicated bigram list. |
| Text.CjkBigramsSpec | migrate/helpers/text.helper.ts:42-51 | The bigrams are distinct and are exactly the pairs of neighbours in the CJK-only filtered string. Non-CJK characters are skipped, not treated as separators. Both characters of each pair are CJK. The list is empty iff there are fewer than two CJK characters. `hasCjk` holds iff there is at least one. |
| Text.ComputeArchiveGroupKey | migrate/helpers/text.helper.ts:54-68 | The early-return loop over the patterns computes the group key. |
| Text.SplitVolumeKey | migrate/helpers/text.helper.ts:58 | `n.7z.001`, `n.7z.002`, ... all have the key `fold(n).7z`. |
| Text.PartVolumeKey | migrate/helpers/text.helper.ts:59 | `n.part1.rar`, `n.part2.rar`, ... all have the key `fold(n).rar`. |
| Text.RzVolumeKey | migrate/helpers/text.helper.ts:60-64 | `n.r00`, `n.z01`, ... all have the literal key `fold(n).$1`, because the third pattern has no group 1. |
| Text.PartPatternKeepsExt | migrate/helpers/text.helper.ts:59-64 | The part pattern's replacement keeps the container extension at the end. |
| Text.ContainerKeyEndsInExt | migrate/helpers/text.helper.ts:57-67 | The key of `n.rar` (any lower-case container extension) ends in that extension. |
| Text.RzKeyDiffersFromContainerKey | migrate/helpers/text.helper.ts:60-64 | `n.r00` and `n.rar` never share a group key, so such volumes are grouped apart from their `.rar`. |
| FilePath.PosixParse | migrate/helpers/parse-file-path.helper.ts:4 | `base` has no slash. It is empty iff the key is only slashes. |
| FilePath.PosixParseJoined | migrate/helpers/parse-file-path.helper.ts:4 | `dir/name` parses to `dir` and `name`. |
| FilePath.ParseFilePath | migrate/helpers/parse-file-path.helper.ts:3-10 | Folders are never empty and never contain `/`; the file name has no `/`. |
| FilePath.ParseBareName | migrate/helpers/parse-file-path.helper.ts:3-10 | A key without `/` is a file name in no folder. |
| FilePath.ParseFileNameAfterLastSlash | migrate/helpers/parse-file-path.helper.ts:4-9 | For a key not ending in `/`, the file name is the text after its last `/`. |
| FilePath.ParseIgnoresTrailingSlash | migrate/helpers/parse-file-path.helper.ts:4 | A trailing slash changes nothing. |
| FilePath.ParseJoinedPath | migrate/helpers/parse-file-path.helper.ts:3-10 | Folders joined by `/`, a `/` and a name parse back to those folders and that name. |
| StripExt.StripExt | migrate/utils/strip-ext.ts:1-10 | The result is a prefix of the name in both modes. |
| StripExt.StripExtNoDot | migrate/utils/strip-ext.ts:1-10 | A name without a dot is unchanged in both modes. |
| StripExt.StripLastExt | migrate/utils/strip-ext.ts:9 | Default mode: `b.e` loses exactly its last extension. |
| StripExt.StripLastExtNeedsBothSides | migrate/utils/strip-ext.ts:9 | Default mode: `.bashrc` and `a.` are unchanged. |
| StripExt.SplitPieces | migrate/utils/strip-ext.ts:7 | A dot-free piece followed by dot-separated extensions splits back into those pieces, none empty. |
| StripExt.StripAllExts | migrate/utils/strip-ext.ts:7 | `all` mode: `a.tar.gz` becomes `a`. |
| StripExt.StripAllExtsLeadingDot | migrate/utils/strip-ext.ts:4-5 | `all` mode: `.config.json` becomes `.config`. |
| StripExt.StripAllLeavesNoExt | migrate/utils/strip-ext.ts:3-7 | `all` mode: a changed name has no dot after its first character. |
| StripExt.StripAllIdempotent | migrate/utils/strip-ext.ts:3-7 | `all` mode: stripping twice is stripping once. |
| FileUtils.MultipartIffScheme | migrate/utils/file.ts:40-49 | `isMultipart` holds iff `detectMultipartMissing` finds a scheme: the two use the same three volume patterns. |
| FileUtils.FindFirst | migrate/utils/file.ts:52 | `find`: None iff no name satisfies the test, else the first that does. |
| FileUtils.StrLeqTotal | migrate/utils/file.ts:56 | The order used for sorting is total. |
| FileUtils.StrLeqTrans | migrate/utils/file.ts:56 | The order used for sorting is transitive. |
| FileUtils.Least | migrate/utils/file.ts:56 | The first element after sorting is a name of the list no greater than any other. |
| FileUtils.SelectPrimary | migrate/utils/file.ts:51-57 | None exactly for an empty list; otherwise an element of the list. |
| FileUtils.SelectPrimaryPriority | migrate/utils/file.ts:51-57 | The choice is the first name in list order matching `.part0*1.rar`. With none, it is the first `.rar`; with neither, the first `.7z/.zip` first volume. With none of the three, it is a least name. |
| FileUtils.SelectPrimaryPartExample | migrate/utils/file.ts:51-57 | `["a.part1.rar", "a.part2.rar"]` selects `a.part1.rar`. |
| FileUtils.IsMultipartExamples | migrate/utils/file.ts:40-49 | `["a.rar"]` is not multipart; `["a.part1.rar", "a.part2.rar"]` is. |
| FileUtils.FirstPartRarIsRar | migrate/utils/file.ts:53-54 | A `.part0*1.rar` name is also a `.rar` name and a part volume. |
| FileUtils.Collect | migrate/utils/file.ts:70-72 | The parsed volume numbers are exactly those of the matching names; empty iff none matches. |
| FileUtils.Max | migrate/utils/file.ts:73 | `Math.max` of a non-empty list is in it and bounds it. |
| FileUtils.MissingNumbers | migrate/utils/file.ts:74-76 | The push loop computes the gaps between the lower bound and the maximum. |
| FileUtils.GapsSpec | migrate/utils/file.ts:74-76 | The gaps are strictly ascending and are exactly the numbers in range that are absent. |
| FileUtils.NoGapsIffContiguous | migrate/utils/file.ts:74-77 | No gaps iff every number of the range is present. |
| FileUtils.DetectMultipartMissing | migrate/utils/file.ts:64-105 | The method computes the report function. |
| FileUtils.SchemePrecedence | migrate/utils/file.ts:69-104 | Part style wins if any part name exists, then 7z style, then r style. With no volume name the scheme is null and nothing is missing. |
| FileUtils.SchemeReport | migrate/utils/file.ts:64-105 | With a scheme, the missing numbers are the gaps of that scheme's numbers, from 0 for r style and from 1 otherwise. |
| FileUtils.MissingAreAbsentVolumes | migrate/utils/file.ts:70-101 | The missing numbers are strictly ascending. They are exactly the numbers from the scheme's start to its largest volume that no name carries. |
| FileUtils.UpdateFilesShape | migrate/utils/file.ts:113-120 | Every matching item of every group is updated; every other item, each group's platform and game id, and all lengths are kept. |
| FileUtils.UpdateFilesNoMatch | migrate/utils/file.ts:113-123 | With no matching item nothing changes. |
| FileUtils.FinalFilesStore.constructor | migrate/utils/file.ts:111 | The store holds the given groups and no write has happened. |
| FileUtils.FinalFilesStore.UpdateItemInFinalFiles | migrate/utils/file.ts:107-124 | The stored groups become their update; the store is written once iff some item matched. |
| GameMatcher.NormalizeAll | migrate/helpers/game-matcher.helper.ts:24 | A new list of the same length holding, in order, the normal form of each title. |
| GameMatcher.CandidatesSpec | migrate/helpers/game-matcher.helper.ts:22-27 | A game's candidates are distinct, non-empty and normalised. They are exactly the normal forms of its non-empty titles and aliases that do not normalise to nothing. |
| GameMatcher.CandidateIsNormalForm | migrate/helpers/game-matcher.helper.ts:22-27 | One candidate at a time: it is one iff it is the non-empty normal form of a non-empty title, and it names that title. |
| GameMatcher.AddKeysTo | migrate/helpers/game-matcher.helper.ts:10-14 | The `addToMap` loop adds the id to the set of every key. |
| GameMatcher.ListsAddKeys | migrate/helpers/game-matcher.helper.ts:10-14 | After `addToMap` over keys, an id is listed under a key iff it was before or it is the new id and the key is among the keys. |
| GameMatcher.IndexCandidates | migrate/helpers/game-matcher.helper.ts:30-38 | The inner loop indexes the Latin tokens of every candidate, and its bigrams only when it has CJK text. |
| GameMatcher.BuildGameIndex | migrate/helpers/game-matcher.helper.ts:16-42 | The nested loops build the index function. |
| GameMatcher.IndexMembership | migrate/helpers/game-matcher.helper.ts:30-37 | A game id is listed under a token iff a game with that id has a candidate with that token. It is listed under a bigram iff such a game has a CJK candidate with that bigram. |
| GameMatcher.CandidateMapKeys | migrate/helpers/game-matcher.helper.ts:28 | The candidate map has one entry per distinct game id, in order of first appearance. |
| GameMatcher.CandidateMapEntry | migrate/helpers/game-matcher.helper.ts:28 | An id's entry holds the candidates of the last game with that id, which may be none. |
| GameMatcher.IndexedIdsAreGames | migrate/helpers/game-matcher.helper.ts:16-41 | Every listed id, and every candidate-map key, is the id of some game, so every indexed id has a candidate entry. |
| GameMatcher.IndexListsDistinct | migrate/helpers/game-matcher.helper.ts:10-14 | A built index never lists an id twice under one key. |
| GameMatcher.AddWeightTo | migrate/helpers/game-matcher.helper.ts:50-55 | The `inc` loop over an id set. |
| GameMatcher.ScoreKeysInto | migrate/helpers/game-matcher.helper.ts:52-62 | The loop over tokens (or bigrams) that adds the weight for every listed id. |
| GameMatcher.AddWeightCounts | migrate/helpers/game-matcher.helper.ts:50-55 | Over distinct ids, an id's score grows by the weight iff it is among them. |
| GameMatcher.ScoreKeysCounts | migrate/helpers/game-matcher.helper.ts:52-62 | An id's score grows by the weight times the number of keys listing it. |
| GameMatcher.ScoresAreWeights | migrate/helpers/game-matcher.helper.ts:49-62 | A score is 1 per matching token plus 2 per matching bigram, and exactly the ids of positive weight are scored. |
| GameMatcher.PickBest | migrate/helpers/game-matcher.helper.ts:66-73 | The loop over score entries. |
| GameMatcher.BestOfSpec | migrate/helpers/game-matcher.helper.ts:66-73 | The chosen id has the highest score, and every id before it in insertion order scores strictly less. |
| GameMatcher.AnyConfirms | migrate/helpers/game-matcher.helper.ts:80-86 | The loop finds a candidate iff one is contained in the name, or, with spaces removed and at least 3 long, in the name with spaces removed. |
| GameMatcher.ChooseBestMatch | migrate/helpers/game-matcher.helper.ts:44-91 | The method computes the match function. |
| GameMatcher.NoSharedKeyNoMatch | migrate/helpers/game-matcher.helper.ts:49-64 | A name that shares no token or bigram with any indexed game matches nothing. |
| GameMatcher.TopIsFirstHeaviest | migrate/helpers/game-matcher.helper.ts:66-73 | When some game scores, the top game has the highest weight of all games. Every game before it in the score map's order weighs strictly less. |
| GameMatcher.MatchIsBestWeighted | migrate/helpers/game-matcher.helper.ts:45-90 | With no game scored, nothing matches. Otherwise only the top game can match: the first in the score map's order with the highest weight. It matches iff it has a candidate entry and either a candidate confirms the name, or the name has a bigram and the weight is at least 6, or the name has a token and the weight is at least 3. |
| GameMatcher.MatchIsAGame | migrate/helpers/game-matcher.helper.ts:44-91 | Against an index built from a game list, a match is always one of those games' ids. |
| Preparation.RawFiles | migrate/main.ts:18-23 | The listing keeps, in order, exactly the objects of both buckets whose key matches the suffix pattern. |
| Preparation.SuffixReIffStripped | migrate/main.ts:22 | A key matches the listing pattern iff `stripArchiveSuffix` shortens it. |
| Preparation.TagWithGameId | migrate/main.ts:41-48 | The `map` callback tags one object. |
| Preparation.TagAll | migrate/main.ts:41-48 | The `map` over the listing tags every object. |
| Preparation.TagWithGameIds | migrate/main.ts:37-51 | Build the index of the catalog, then tag every object by its parsed file name. |
| Preparation.TaggedAll | migrate/main.ts:41-48 | Tagging keeps the length. |
| Preparation.TaggedAllAt | migrate/main.ts:41-48 | Object `i` of the result is object `i` tagged on its own. |
| Preparation.TaggedIdsAreGames | migrate/main.ts:41-48 | Tagging changes only the game id. An untagged object gets one iff the matcher finds one, and that id is a catalog game's. |
| Preparation.FilterWithGameId | migrate/main.ts:53-58 | Keeps, in order, exactly the objects with a game id. |
| Preparation.AddPlatforms | migrate/main.ts:60-70 | Each object gets the platform of its own key; nothing else changes. |
| Preparation.PlatformOfFolders | migrate/main.ts:62-66 | The platform is PE iff one folder is exactly `PE`, case-sensitively. |
| Preparation.Prepared | migrate/main.ts:53-70 | After filtering and platform tagging, every object is ready for grouping and is a tagged object with its platform added. |
| Preparation.AddToGroup | migrate/main.ts:101-105 | One loop turn: the group of the object's key is created on first sight, then the object's new item is appended. No other group changes. |
| Preparation.GroupObjects | migrate/main.ts:94-106 | The grouping loop computes the group map. |
| Preparation.MakeFinalFiles | migrate/main.ts:72-115 | The saved groups are the values of the group map, in key order. |
| Preparation.GroupKeys | migrate/main.ts:97-101 | The grouping key of every object, in order. |
| Preparation.GroupMapKeys | migrate/main.ts:102-112 | Groups appear in the order their keys first occur. |
| Preparation.GroupMapHas | migrate/main.ts:94-106 | A group exists exactly for each key that occurs. It holds, in input order, the items of exactly the objects with that key, and it has the key's game id and platform. |
| Preparation.AddToGroupCount | migrate/main.ts:102-105 | Each loop turn adds exactly one item over all groups. |
| Preparation.FinalFilesCount | migrate/main.ts:94-112 | The grouping is a partition: the groups hold as many items as there were objects. |
| Preparation.FinalFilesGroup | migrate/main.ts:75-112 | Group `i` is the group of the `i`-th distinct key. Each of its items is PENDING, with empty new fields and size 0. Each carries the group's game id and comes from an object of the group's platform whose file name has the group's archive key. |
| Migrate.Updated | migrate/migrate.ts:161-168 | An item afterwards carries the defined fields of the update; undefined fields and its identity are kept. |
| Migrate.Mark | migrate/migrate.ts:158-184 | `updateFileItemStatus`: in memory, exactly the items with the target's key and game id are updated. The persisted list becomes `updateItemInFinalFiles` of the same test and update. The shape, files and call log are kept. |
| Migrate.MarkKeepsStoreInStep | migrate/migrate.ts:158-184 | Marking an item of a group keeps the persisted copy of that group equal to the group in memory. A persisted group sharing no item with it is unchanged. |
| Migrate.MarkEachKeepsStoreInStep | migrate/migrate.ts:40 | The same for marking each item of a list. |
| Migrate.MarkEach | migrate/migrate.ts:40 | Marking a list of targets keeps the group's shape, the files and the call log. |
| Migrate.MarkEachEffect | migrate/migrate.ts:158-170 | After marking a list of targets, an item matching a target carries the update and every other item is unchanged. |
| Migrate.MarkAllCarries | migrate/migrate.ts:40 | Marking each item of a group makes every item carry the update. |
| Migrate.Names | migrate/migrate.ts:27 | The original file names, in item order. |
| Migrate.LayoutOf | migrate/migrate.ts:23-29 | The primary archive is the save path of one of the group's own items. |
| Migrate.DownloadItem | migrate/migrate.ts:43-73 | One download step keeps the group's shape. |
| Migrate.DownloadEach | migrate/migrate.ts:42-74 | The download loop keeps the shape and only appends download calls. |
| Migrate.RunDownloadsStop | migrate/migrate.ts:68-70 | After a download throws, no later item is downloaded. |
| Migrate.NothingToDownload | migrate/migrate.ts:43-45 | With every file present and no control file, no download is requested and nothing changes. |
| Migrate.DownloadErrorHandling | migrate/migrate.ts:53-70 | A URL-check failure skips the item with the error's reason and the loop goes on. Any other error fails the item and throws. |
| Migrate.DownloadsStartProcessing | migrate/migrate.ts:40 | Before any download every item is PROCESSING. |
| Migrate.DownloadEachKeepsStoreInStep | migrate/migrate.ts:42-74 | The download loop keeps the persisted copy of the group in step and other persisted groups unchanged. |
| Migrate.AfterDownloads | migrate/migrate.ts:40-74 | Marking PROCESSING and downloading keep the group's shape. |
| Migrate.SkipMissing | migrate/migrate.ts:90-98 | The skipping loop changes statuses only: shape, files and calls are kept. |
| Migrate.SkipMissingStep | migrate/migrate.ts:90-97 | One turn of that loop, as seen from one item. |
| Migrate.SkipMissingSkips | migrate/migrate.ts:87-98 | In a multipart group, every item whose part is missing ends SKIPPED. |
| Migrate.SkipMissingKeepsStoreInStep | migrate/migrate.ts:90-98 | The skipping loop keeps the persisted copy of the group in step and other persisted groups unchanged. |
| Migrate.SkipMissingKeeps | migrate/migrate.ts:90-98 | An item whose part is present, like those of every item sharing its key, is left as it was. |
| Migrate.PrimaryMissingSkipsFirst | migrate/migrate.ts:107-122 | In a non-multipart group with the primary missing, only the first item (and items sharing its key) becomes SKIPPED. That happens only if the first item is not already SKIPPED; nothing else changes and nothing is called. |
| Migrate.Extract | migrate/migrate.ts:125-127 | Extraction does not touch the group. |
| Migrate.Package | migrate/migrate.ts:125-150 | Extract, compress, upload, clean up and complete keep the group's shape. |
| Migrate.UploadCompletesAll | migrate/migrate.ts:141-150 | Packaging that does not throw has an upload result, and every item carries COMPLETED and that one result's fields. |
| Migrate.PackageKeepsStoreInStep | migrate/migrate.ts:125-150 | Packaging keeps the persisted copy of the group in step and other persisted groups unchanged. |
| Migrate.Finish | migrate/migrate.ts:76-150 | Everything after the downloads keeps the group's shape. |
| Migrate.FinishKeepsStoreInStep | migrate/migrate.ts:76-150 | So does everything after the downloads. |
| Migrate.AllSkippedStopsAfterDownloads | migrate/migrate.ts:76-83 | If every item is SKIPPED after the downloads, nothing else happens: no extraction, compression, upload, clean-up or status change. |
| Migrate.ThrowFailsAll | migrate/migrate.ts:151-155 | A throw inside the `try` leaves every item FAILED. |
| Migrate.ProcessFailureFailsAll | migrate/migrate.ts:151-155 | A group whose processing throws ends with every item FAILED. |
| Migrate.ProcessSuccessCompletesAll | migrate/migrate.ts:141-150 | A group that uploads and does not throw ends with every item COMPLETED, all with the same upload fields. |
| Migrate.ProcessKeepsStoreInStep | migrate/migrate.ts:18-156 | `process` keeps the persisted copy of its group equal to the group in memory. A persisted group sharing no item with it is unchanged. |
| Migrate.ProcessGroupKeepsStoreInStep | migrate/migrate.ts:18-156 | `process`, for every group and every world, keeps the group's shape and the persisted list in step. |
| Migrate.ProcessLeavesSkippedGroup | migrate/migrate.ts:20-21 | A group with no items, or with all items SKIPPED, is left alone. |
| Migrate.MainStep | migrate/migrate.ts:188-194 | One turn of `main` touches only its own group. |
| Migrate.RunGroups | migrate/migrate.ts:186-195 | `main` over the first `n` groups leaves every later group as it was. |
| Migrate.MainStepKeepsStoreInStep | migrate/migrate.ts:188-194 | When the groups share no items and the persisted list equals them, one turn of `main` keeps it equal. |
| Migrate.RunKeepsStoreInStep | migrate/migrate.ts:186-195 | Starting from a persisted list equal to groups that share no items, `main` ends with the persisted list equal to the groups in memory. |
| Migrate.PreparedGroupsKeysApart | migrate/main.ts:94-106 | The groups built by `make_final_files` share no items: items of different groups never have the same key and game id. |
| Migrate.RunStopsAtFailure | migrate/migrate.ts:186-195 | Once a group throws, no later group is processed. |
| Migrate.CompletedGroupsPassedOver | migrate/migrate.ts:189-192 | Groups that are all COMPLETED are passed over: nothing changes and nothing is called. |
| Migrate.Migrator.constructor | migrate/migrate.ts:187 | The migrator starts on the given disk and store, with no groups loaded and no calls. |
| Migrate.Migrator.UpdateFileItemStatus | migrate/migrate.ts:158-184 | Updates group `i` in memory and in the store as `Mark` says; every other group is kept. |
| Migrate.Migrator.MarkAll | migrate/migrate.ts:40 | The loop over targets does what `MarkEach` says. |
| Migrate.Migrator.DownloadOne | migrate/migrate.ts:43-73 | One turn of the download loop does what `DownloadItem` says. |
| Migrate.Migrator.DownloadAll | migrate/migrate.ts:42-74 | The download loop does what `DownloadEach` says, stopping at a throw. |
| Migrate.Migrator.SkipMissingParts | migrate/migrate.ts:90-98 | The skipping loop does what `SkipMissing` says. |
| Migrate.Migrator.DeleteLeftovers | migrate/migrate.ts:134-139 | Removes the compressed archive, every part, and the extracted directory with everything under it, each only when present; the result is `Cleaned`. |
| Migrate.CleanedRemovesLeftovers | migrate/migrate.ts:134-139 | After the clean-up neither the archive, nor any part, nor anything at or under the extracted directory is left; every other file keeps its size. |
| Migrate.Migrator.PackageGroup | migrate/migrate.ts:125-150 | Extract, compress, upload, clean up and complete as `Package` says. |
| Migrate.Migrator.FinishGroup | migrate/migrate.ts:76-150 | What follows the downloads, as `Finish` says. |
| Migrate.Migrator.ProcessItems | migrate/migrate.ts:39-155 | The `try` block and its `catch`, as `ProcessWith` says. |
| Migrate.Migrator.Process | migrate/migrate.ts:18-156 | `process` on group `i`, as `ProcessGroup` says; other groups are kept. |
| Migrate.Migrator.MainTurn | migrate/migrate.ts:188-194 | One turn of `main`'s loop advances the run by one group. |
| Migrate.Migrator.RunAll | migrate/migrate.ts:186-195 | `main` leaves the state `RunGroups` describes over all loaded groups. When the loaded groups share no items, the store ends equal to the groups in memory. |
| Download.LocalDisk.Delete | migrate/libs/download.ts:324 | Removes exactly one path. |
| Download.WithoutTree | migrate/utils/file.ts:30-38 | After a recursive delete nothing exists at or under the path; every file outside it is kept with its size, and nothing is added. |
| Download.LocalDisk.DeleteTree | migrate/utils/file.ts:33-34 | The disk becomes `WithoutTree` of the old files. |
| Download.LocalDisk.Apply | migrate/libs/download.ts:404-472 | The daemon's writes and removals during a task, as `Applied` says: written files get their new size, removed files go, others stay. |
| Download.Prepared | migrate/libs/download.ts:316-340 | Afterwards the data file exists iff its control file does. Only those two may be removed. When both or neither existed, nothing changes. |
| Download.PrepareTargetForDownload | migrate/libs/download.ts:316-340 | The method leaves the disk as `Prepared` says. |
| Download.VerifyFileIntegrity | migrate/libs/download.ts:299-314 | Passes iff the file exists, is non-empty and has the expected size whenever one above 0 is given; a failure is retryable. |
| Download.FirstSettled | migrate/libs/download.ts:179-186 | The first reply that is not a 429, and only 429s before it. |
| Download.BucketUrl | migrate/libs/download.ts:178-195 | After any 429s: the first bucket on an ok reply, the second on another status or a network error; undecided while all are 429. |
| Download.GetUrl | migrate/libs/download.ts:178-195 | The probing loop settles on `BucketUrl`. |
| Download.UrlCheckOf | migrate/libs/download.ts:197-219 | After any 429s: passed on ok, a request error carrying the message on a network error, and otherwise a rejection carrying `RejectionReason` of the status and status text. |
| Download.NatDecimalRoundTrip | migrate/migrate.ts:55 | The digits `JSON.stringify` writes for a number read back to that number. |
| Download.IntDecimalRoundTrip | migrate/migrate.ts:55 | The same for an integer of either sign. |
| Download.RejectionReason | migrate/libs/download.ts:207-213 | The recorded text starts with `{"status":`; with a non-negative status and a plain status text it is exactly `{"status":N,"statusText":"T"}`. |
| Download.RejectionReasonReadsBack | migrate/libs/download.ts:207-213 | Reading the recorded text back as `JSON.parse` would gives the status and the status text. |
| Download.NotFoundReason | migrate/libs/download.ts:207-213 | A 404 "Not Found" reply is recorded as `{"status":404,"statusText":"Not Found"}`. |
| Download.JsonEscape | migrate/libs/download.ts:374 | The inside of `JSON.stringify` of a string: never shorter, unchanged when nothing needs escaping, and containing a backslash otherwise. |
| Download.JsonEscapeRoundTrip | migrate/libs/download.ts:374 | Reading the escaped text back as `JSON.parse` does gives the original string. |
| Download.RequestErrorReason | migrate/migrate.ts:54-55 | The skip reason of a failed HEAD request is the JSON text `{"error":"…"}` around the escaped message; a message with nothing to escape appears as it is. |
| Download.CheckUrl | migrate/libs/download.ts:197-219 | The probing loop settles on `UrlCheckOf`. |
| Download.Turn | migrate/libs/download.ts:423-444 | One poll. A daemon error is fatal. A stall (no new bytes for longer than the timeout) stops the loop iff both soft recoveries are spent. Otherwise a completed task ends with its total length, and an error or removed status ends the attempt. More bytes reset the progress clock to this poll. A recovered stall resets it to the clock after the recovery and counts one recovery. A quiet poll within the timeout changes nothing. |
| Download.WatchFrom | migrate/libs/download.ts:405-472 | The same over a sequence of polls: recoveries only grow, up to 2, and a stall ending means both were spent. |
| Download.WatchTask | migrate/libs/download.ts:400-472 | The `while (true)` poll loop ends as `WatchFrom` says. |
| Download.ThirdStallIsFatal | migrate/libs/download.ts:428-442 | Three timeouts without progress: two soft recoveries, then a stall error. |
| Download.ProgressNeverStalls | migrate/libs/download.ts:423-425 | Polls that always show strictly more bytes never end in a stall. |
| Download.Verdict | migrate/libs/download.ts:446-470 | An attempt succeeds iff the task completed and the file passes the integrity check against the reported total length. Every error is retryable, and the attempt is unfinished iff polling never ended. |
| Download.DownloadOnce | migrate/libs/download.ts:342-484 | The outcome and the files afterwards are those of `AttemptRun`. |
| Download.AttemptOkLeavesFile | migrate/libs/download.ts:446-459 | A successful attempt leaves a non-empty file at the save path. |
| Download.UrlCheckFailureLeavesFiles | migrate/libs/download.ts:362-377 | A URL-check failure happens only for a new task and leaves the files untouched. |
| Download.ReusedTaskSkipsCheckAndCleanup | migrate/libs/download.ts:360-379 | A reused task ignores the URL check and skips the cleanup; a new task that passes the check cleans up first. |
| Download.Backoffs | migrate/libs/download.ts:519 | One sleep per retry. |
| Download.RetryFromSpec | migrate/libs/download.ts:497-524 | With no attempt allowed, no attempt is made and the run fails after retries. Otherwise there are at most `retries` attempts, all but the last retryable failures. The last is not retryable or is the last allowed. The sleep before attempt `k + 1` is `backoffMs * 2^(k-1)`. |
| Download.RetryStopsAt | migrate/libs/download.ts:497-524 | The run stops exactly at the first attempt that is not a retryable failure, or at the last allowed, after one sleep per earlier attempt. |
| Download.RetrySucceedsIff | migrate/libs/download.ts:497-502 | `start` succeeds iff some allowed attempt succeeds after only retryable failures. A URL-check failure ends the run at once. |
| Download.NextAttempt | migrate/libs/download.ts:500-501 | Each attempt runs on the files the previous one left. |
| Download.Start | migrate/libs/download.ts:486-525 | With defaults 3 / 60000 / 1200000, the outcome, sleeps and files are those of the retry policy over the attempts. |
| Download.StartOkLeavesFile | migrate/libs/download.ts:486-525 | When `start` returns true, the save path holds a non-empty file. |

## Left out

- Unicode: lower-casing is ASCII only; JavaScript's `toLowerCase` also folds other scripts. `localeCompare` in `selectPrimary` is modelled as ordinal (code-point) order.
- Strings are sequences of Unicode scalar values, while JavaScript strings are sequences of UTF-16 code units. A character outside the Basic Multilingual Plane counts once here and twice in the source. This matters for the length test `candNoSpace.length >= 3` (migrate/helpers/game-matcher.helper.ts:85) and for the regular expressions without the `u` flag. The CJK and full-width ranges themselves are all in the Basic Multilingual Plane.
- Regular expressions are written out as predicates over characters: each suffix pattern is anchored at the end and has a dot-free tail, so each match starts at the last dot.
- Text.RzVolumeKey: the model follows the code, so `.rNN`/`.zNN` volumes get the literal key `name.$1` and are not grouped with `name.rar`.
- Text.CjkChars: its contract states membership only; the order of the filtered characters is part of its definition, and `CjkBigramsSpec` states the consequence.
- I/O and services: bucket listings, the game catalog request, the JSON file caching of each stage, aria2's JSON-RPC, HTTP HEAD requests, the archive tool, hashing and the upload are not part of this model. Each is an input: a listing, a reply sequence, or a reply with the change it makes to the files.
- Time: `Date.now`, `setTimeout` and `sleep` are the clock values the polls carry and the list of sleeps `start` would make; nothing waits.
- Progress bars, `formatBytes` (floating point) and all console output are left out; the stall error's message text is a plain `Stall` value.
- `findExistingTaskByPath`, `forceStopAndCleanup`, `softRecoverFromStall` and `debugDumpOnError` are modelled only by their effect on the decision: whether a task is reused, and the daemon's change to the files. Stopping a leftover task between retries is not modelled.
- Download.Verdict: `Unfinished` means the poll answers ran out; the real loop polls forever.
- Download.LocalDisk.Delete: a failing `unlinkSync` (and the error it rethrows) is not modelled.
- Migrate.Migrator.DeleteLeftovers: `deleteFile`'s `lstatSync` test is not modelled. The compressed archive and the parts are taken to be files, and the extracted directory is removed with everything under it. `hasFile` of the extracted directory is `PathExists`, so an empty directory counts as absent.
- Download.BucketUrl: the HEAD probe goes to `bucket1/key` while the returned URL is `bucket1 + key` without a slash; the model returns the concatenation and does not model the request URL.
- Download.UrlCheckOf: `checkUrl` first tries `res.json()` on the rejecting reply. The probe is a HEAD request, whose reply has no body, so that call always throws. The source then always records `{"status":N,"statusText":"…"}`, which is what the model records. The branch that would re-serialise a parsed body cannot run and is not modelled. A failed request records the JSON text `{"error":"…"}` of its message, as `RequestErrorReason` states.
- `ensureDirSync`, `ensurePath` and `path.join` normalisation are left out: save paths are the download directory followed by the file name.
- Preparation.MakeFinalFiles: requires every object to carry a game id and a platform. The source reaches it only after the filter and platform stages, and uses `!` there; `Prepared` shows those stages establish it.
- The group key is the triple (game id, platform, archive key) rather than the string `id__platform__key`. The two are equivalent: the game id is a number and the platform is `pc` or `pe`, neither of which can contain `__`, so different triples always print to different strings.
- Migrate.Migrator.RunAll: `readFile(...)!` is taken to succeed; the groups are those of the store. The store stays equal to memory only when the groups share no items; with two groups holding the same key and game id, a status change writes to both persisted copies, which the model also does.
- The branch at migrate/migrate.ts:30-37 can never run, since `items` is non-empty there, and is left out.
- The `while (retryCount < maxRetries)` loop around `startDownload` in `process` never runs a second time (every path breaks or throws), so it is one call.
- Extraction, compression, upload and each `startDownload` call in `process` are replies given per group (`GroupWorld`); the download module's own model is not composed into `process`.
- The store's write counter is part of `FinalFilesStore` but not of the value `State` the `process` lemmas speak about.
- `create/main.ts` (posting catalog entries) and the path constants are not part of this model; the interfaces are the datatypes of `Types`.
