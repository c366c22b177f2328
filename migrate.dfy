/** `migrate/migrate.ts`: the per-group migration state machine and the run
    over all groups.

    A group's items step from PENDING through PROCESSING to COMPLETED,
    FAILED or SKIPPED. Every status change is applied to the group held in
    memory and to the persisted list of groups. Downloads, extraction,
    compression and upload are outside the model: their answers (and what
    they do to the local files) are inputs. */
module Migrate {
  import opened Seqs
  import opened Types
  import Text
  import FilePath
  import FileUtils
  import Download
  import Preparation

  const ExtractedDir: string := "migrate/extracted"
  const MultipartIncomplete: string := "Multipart incomplete after download"
  const PrimaryMissing: string := "Primary archive missing after download"

  // ---------------------------------------------------------------------
  // updateFileItemStatus
  // ---------------------------------------------------------------------

  /** A `Partial<FileItem>` as `updateFileItemStatus` receives it: None is
      an undefined field. */
  datatype ItemUpdate = ItemUpdate(
    status: Option<FileStatus>,
    nKey: Option<string>,
    nFileName: Option<string>,
    nFileSize: Option<int>,
    nFileHash: Option<string>,
    nFileContentType: Option<string>,
    skippedReason: Option<string>)

  function SetStatus(s: FileStatus): ItemUpdate {
    ItemUpdate(Some(s), None, None, None, None, None, None)
  }

  function SkipWith(reason: string): ItemUpdate {
    ItemUpdate(Some(Skipped), None, None, None, None, None, Some(reason))
  }

  /** What `uploadFile` returns. */
  datatype UploadResult = UploadResult(s3Key: string, fileName: string, fileSize: int, fileHash: string, fileContentType: string)

  function CompleteWith(res: UploadResult): ItemUpdate {
    ItemUpdate(Some(Completed), Some(res.s3Key), Some(res.fileName), Some(res.fileSize), Some(res.fileHash),
               Some(res.fileContentType), None)
  }

  function Pick<T>(x: Option<T>, dflt: T): T {
    if x.Some? then x.value else dflt
  }

  /** The fields that identify an item and that no update touches. */
  function Identity(it: FileItem): (string, string, int) {
    (it.oKey, it.oFileName, it.gameId)
  }

  /** Every defined field of the update holds in the item. */
  predicate Carries(it: FileItem, u: ItemUpdate) {
    && (u.status.Some? ==> it.status == u.status.value)
    && (u.nKey.Some? ==> it.nKey == u.nKey.value)
    && (u.nFileName.Some? ==> it.nFileName == u.nFileName.value)
    && (u.nFileSize.Some? ==> it.nFileSize == u.nFileSize.value)
    && (u.nFileHash.Some? ==> it.nFileHash == u.nFileHash.value)
    && (u.nFileContentType.Some? ==> it.nFileContentType == u.nFileContentType.value)
    && (u.skippedReason.Some? ==> it.skippedReason == u.skippedReason)
  }

  /** One item with the defined fields of an update assigned: afterwards it
      carries the update, and every undefined field and its identity are
      as before. */
  function Updated(it: FileItem, u: ItemUpdate): (r: FileItem)
    ensures Carries(r, u)
    ensures Identity(r) == Identity(it)
    ensures u.status.None? ==> r.status == it.status
    ensures u.nKey.None? ==> r.nKey == it.nKey
    ensures u.nFileName.None? ==> r.nFileName == it.nFileName
    ensures u.nFileSize.None? ==> r.nFileSize == it.nFileSize
    ensures u.nFileHash.None? ==> r.nFileHash == it.nFileHash
    ensures u.nFileContentType.None? ==> r.nFileContentType == it.nFileContentType
    ensures u.skippedReason.None? ==> r.skippedReason == it.skippedReason
  {
    it.(status := Pick(u.status, it.status),
        nKey := Pick(u.nKey, it.nKey),
        nFileName := Pick(u.nFileName, it.nFileName),
        nFileSize := Pick(u.nFileSize, it.nFileSize),
        nFileHash := Pick(u.nFileHash, it.nFileHash),
        nFileContentType := Pick(u.nFileContentType, it.nFileContentType),
        skippedReason := if u.skippedReason.Some? then u.skippedReason else it.skippedReason)
  }

  /** The item is the target's: same original key and same game. */
  predicate Matches(target: FileItem, it: FileItem) {
    it.oKey == target.oKey && it.gameId == target.gameId
  }

  function SameItem(target: FileItem): FileItem -> bool {
    it => Matches(target, it)
  }

  function Updater(u: ItemUpdate): FileItem -> FileItem {
    it => Updated(it, u)
  }

  /** The same platform, game and items, item by item, up to statuses and
      upload fields. */
  predicate SameShape(a: File, b: File) {
    && a.platform == b.platform
    && a.gameId == b.gameId
    && |a.items| == |b.items|
    && Identities(a.items) == Identities(b.items)
  }

  function Identities(items: seq<FileItem>): seq<(string, string, int)> {
    seq(|items|, k requires 0 <= k < |items| => Identity(items[k]))
  }

  // ---------------------------------------------------------------------
  // The state a group is processed in
  // ---------------------------------------------------------------------

  /** A call to the outside world, in the order made. */
  datatype Call =
    | DownloadCall(key: string, name: string)
    | ExtractCall(archive: string)
    | CompressCall(src: string)
    | UploadCall(path: string, name: string, gameId: int, platform: Platform)

  /** The group in memory, the persisted list of groups, the local files and
      the calls made so far. */
  datatype State = State(group: File, stored: seq<File>, files: map<string, nat>, calls: seq<Call>)

  /** Why processing a group threw. */
  datatype Failure = DownloadFailed(error: Download.DownloadError) | ToolFailed(message: string)

  /** A state and, when the step threw, the failure. */
  datatype Phase = Phase(st: State, failure: Option<Failure>)

  /** `updateFileItemStatus` on a state: the same change to the group in
      memory and, through `updateItemInFinalFiles`, to the persisted list. */
  function Mark(st: State, target: FileItem, u: ItemUpdate): (r: State)
    ensures SameShape(r.group, st.group) && r.files == st.files && r.calls == st.calls
    ensures forall k {:trigger r.group.items[k]} :: 0 <= k < |st.group.items| ==>
      r.group.items[k] == if Matches(target, st.group.items[k]) then Updated(st.group.items[k], u) else st.group.items[k]
    ensures r.stored == FileUtils.UpdateFiles(st.stored, SameItem(target), Updater(u))
  {
    st.(group := st.group.(items := FileUtils.UpdateItems(st.group.items, SameItem(target), Updater(u))),
        stored := FileUtils.UpdateFiles(st.stored, SameItem(target), Updater(u)))
  }

  /** `for (const it of targets) updateFileItemStatus(file, it, u)`. */
  function MarkEach(st: State, targets: seq<FileItem>, u: ItemUpdate): (r: State)
    ensures SameShape(r.group, st.group) && r.files == st.files && r.calls == st.calls
    decreases |targets|
  {
    if targets == [] then st
    else Mark(MarkEach(st, targets[..|targets| - 1], u), targets[|targets| - 1], u)
  }

  /** After marking a list of targets, an item that is some target's
      carries the update and every other item is as it was. */
  lemma {:induction false} MarkEachEffect(st: State, targets: seq<FileItem>, u: ItemUpdate, k: nat)
    requires k < |st.group.items|
    ensures var it := MarkEach(st, targets, u).group.items[k];
      if exists j :: 0 <= j < |targets| && Matches(targets[j], st.group.items[k]) then Carries(it, u)
      else it == st.group.items[k]
    decreases |targets|
  {
    if targets != [] {
      var init := targets[..|targets| - 1];
      var last := targets[|targets| - 1];
      var prev := MarkEach(st, init, u);
      var it0 := st.group.items[k];
      MarkEachEffect(st, init, u, k);
      assert Identities(prev.group.items)[k] == Identities(st.group.items)[k];
      assert Matches(last, prev.group.items[k]) == Matches(last, it0);
      var hitBefore := exists j :: 0 <= j < |init| && Matches(init[j], it0);
      var hit := exists j :: 0 <= j < |targets| && Matches(targets[j], it0);
      assert hit <==> hitBefore || Matches(last, it0) by {
        if hit && !Matches(last, it0) {
          var j :| 0 <= j < |targets| && Matches(targets[j], it0);
          assert j < |init| && init[j] == targets[j];
        }
        if hitBefore {
          var j :| 0 <= j < |init| && Matches(init[j], it0);
          assert targets[j] == init[j];
        }
      }
    }
  }

  /** Marking every item of a group by itself makes every item carry the update. */
  lemma MarkAllCarries(st: State, u: ItemUpdate)
    ensures var r := MarkEach(st, st.group.items, u);
      forall k :: 0 <= k < |r.group.items| ==> Carries(r.group.items[k], u)
  {
    var r := MarkEach(st, st.group.items, u);
    forall k | 0 <= k < |r.group.items|
      ensures Carries(r.group.items[k], u)
    {
      MarkEachEffect(st, st.group.items, u, k);
      assert Matches(st.group.items[k], st.group.items[k]);
    }
  }

  /** No item of `f` is the same item as one of `items`. */
  predicate Apart(f: File, items: seq<FileItem>) {
    forall k, m :: 0 <= k < |f.items| && 0 <= m < |items| ==> !Matches(items[m], f.items[k])
  }

  /** What a step from `st` to `r`, whose status changes all target items
      of `items`, does to the persisted list: its length is kept, a
      persisted group that was the group in memory still is, and a persisted
      group sharing no item with `items` is unchanged. */
  predicate StoreFollows(st: State, r: State, items: seq<FileItem>) {
    && |r.stored| == |st.stored|
    && (forall j :: 0 <= j < |st.stored| && st.stored[j] == st.group ==> r.stored[j] == r.group)
    && (forall j :: 0 <= j < |st.stored| && Apart(st.stored[j], items) ==> r.stored[j] == st.stored[j])
  }

  lemma StoreFollowsTrans(a: State, b: State, c: State, items: seq<FileItem>)
    requires StoreFollows(a, b, items) && StoreFollows(b, c, items)
    ensures StoreFollows(a, c, items)
  {
  }

  /** Marking an item of `items` changes the persisted copy of the group in
      step with the group in memory, and leaves every persisted group that
      shares no item with `items` as it was. */
  lemma MarkKeepsStoreInStep(st: State, items: seq<FileItem>, target: FileItem, u: ItemUpdate)
    requires target in items
    ensures StoreFollows(st, Mark(st, target, u), items)
  {
    var r := Mark(st, target, u);
    forall j | 0 <= j < |st.stored| && Apart(st.stored[j], items)
      ensures r.stored[j] == st.stored[j]
    {
      var m :| 0 <= m < |items| && items[m] == target;
      var f := st.stored[j];
      assert forall k :: 0 <= k < |f.items| ==> !Matches(target, f.items[k]);
      assert FileUtils.UpdateItems(f.items, SameItem(target), Updater(u)) == f.items;
    }
  }

  /** Marking targets taken from `items`, one after the other, keeps the
      persisted list in step in the same way. */
  lemma {:induction false} MarkEachKeepsStoreInStep(st: State, items: seq<FileItem>, targets: seq<FileItem>, u: ItemUpdate)
    requires forall j :: 0 <= j < |targets| ==> targets[j] in items
    ensures StoreFollows(st, MarkEach(st, targets, u), items)
    decreases |targets|
  {
    if targets != [] {
      var init := targets[..|targets| - 1];
      MarkEachKeepsStoreInStep(st, items, init, u);
      MarkKeepsStoreInStep(MarkEach(st, init, u), items, targets[|targets| - 1], u);
      StoreFollowsTrans(st, MarkEach(st, init, u), MarkEach(st, targets, u), items);
    }
  }

  // ---------------------------------------------------------------------
  // The answers of the outside world
  // ---------------------------------------------------------------------

  /** An external call's answer: a value, or the message of what it threw. */
  datatype Reply<T> = Returned(value: T) | Threw(message: string)

  /** `startDownload`'s answer: None when it returned true, else the error it
      threw; and what the download did to the local files. */
  datatype DownloadReply = DownloadReply(error: Option<Download.DownloadError>, effect: Download.DiskEffect)

  /** The archive `start7zip` compressed to, and what it did to the files. */
  datatype Compressed = Compressed(out: string, effect: Download.DiskEffect)

  /** What the outside world answers while one group is processed. */
  datatype GroupWorld = GroupWorld(
    downloads: nat -> DownloadReply,         // for item k, when item k is downloaded
    extract: Reply<Download.DiskEffect>,
    compress: Reply<Compressed>,
    upload: Reply<UploadResult>)

  // ---------------------------------------------------------------------
  // process, as a function of the state and the world
  // ---------------------------------------------------------------------

  function Names(items: seq<FileItem>): (names: seq<string>)
    ensures |names| == |items|
    ensures forall k :: 0 <= k < |items| ==> names[k] == items[k].oFileName
  {
    seq(|items|, k requires 0 <= k < |items| => items[k].oFileName)
  }

  /** What `process` works out from the item names before it starts: the
      download path of the primary archive, whether the group is multipart,
      and where the first item's archive is extracted to. */
  datatype Layout = Layout(primaryPath: string, multipart: bool, extractedPath: string)

  /** The layout of a non-empty group: its primary archive is one of its own
      downloads. */
  function LayoutOf(items: seq<FileItem>): (l: Layout)
    requires items != []
    ensures exists k :: 0 <= k < |items| && l.primaryPath == Download.SavePath(items[k].oFileName)
  {
    var names := Names(items);
    var primary := FileUtils.SelectPrimary(names).value;
    assert exists k :: 0 <= k < |items| && primary == names[k];
    Layout(Download.SavePath(primary), FileUtils.IsMultipart(names),
           ExtractedDir + "/" + Text.StripArchiveSuffix(items[0].oFileName))
  }

  /** A download is requested when the control file exists or the file is absent. */
  predicate NeedsDownload(files: map<string, nat>, name: string) {
    var p := Download.SavePath(name);
    Download.CtrlPath(p) in files || p !in files
  }

  /** The download step for one item. A URL check failure skips the item with
      its reason; any other error marks it FAILED and throws. */
  function DownloadItem(st: State, it: FileItem, reply: DownloadReply): (r: Phase)
    ensures SameShape(r.st.group, st.group)
  {
    if !NeedsDownload(st.files, it.oFileName) then Phase(st, None)
    else
      var st1 := st.(files := Download.Applied(st.files, reply.effect), calls := st.calls + [DownloadCall(it.oKey, it.oFileName)]);
      match reply.error
      case None => Phase(st1, None)
      case Some(e) =>
        if e.UrlCheckFailed? then Phase(Mark(st1, it, SkipWith(e.reason)), None)
        else Phase(Mark(st1, it, SetStatus(Failed)), Some(DownloadFailed(e)))
  }

  /** The download loop over the first `n` items, stopping at a throw. */
  function DownloadEach(st: State, items: seq<FileItem>, downloads: nat -> DownloadReply, n: nat): (r: Phase)
    requires n <= |items|
    ensures SameShape(r.st.group, st.group)
    ensures IsPrefix(st.calls, r.st.calls)
    ensures forall k :: |st.calls| <= k < |r.st.calls| ==> r.st.calls[k].DownloadCall?
    decreases n
  {
    if n == 0 then Phase(st, None)
    else
      var prev := DownloadEach(st, items, downloads, n - 1);
      if prev.failure.Some? then prev
      else DownloadItem(prev.st, items[n - 1], downloads(n - 1))
  }

  /** Once an item throws, the rest of the loop does not run. */
  lemma {:induction false} RunDownloadsStop(st: State, items: seq<FileItem>, downloads: nat -> DownloadReply, n: nat, m: nat)
    requires n <= m <= |items|
    requires DownloadEach(st, items, downloads, n).failure.Some?
    ensures DownloadEach(st, items, downloads, m) == DownloadEach(st, items, downloads, n)
    decreases m
  {
    if m > n {
      RunDownloadsStop(st, items, downloads, n, m - 1);
    }
  }

  predicate AllPartsPresent(files: map<string, nat>, items: seq<FileItem>) {
    forall k :: 0 <= k < |items| ==> Download.SavePath(items[k].oFileName) in files
  }

  /** The loop over the first `n` items of a multipart group with a missing
      part: a missing item not yet SKIPPED is skipped. */
  function SkipMissing(st: State, items: seq<FileItem>, n: nat): (r: State)
    requires n <= |items| == |st.group.items|
    ensures SameShape(r.group, st.group) && r.files == st.files && r.calls == st.calls
    decreases n
  {
    if n == 0 then st
    else
      var prev := SkipMissing(st, items, n - 1);
      if Download.SavePath(items[n - 1].oFileName) !in prev.files && prev.group.items[n - 1].status != Skipped then
        Mark(prev, items[n - 1], SkipWith(MultipartIncomplete))
      else prev
  }

  /** Extract the primary archive. */
  function Extract(st: State, archive: string, reply: Reply<Download.DiskEffect>): (r: Phase)
    ensures r.st.group == st.group
  {
    var st1 := st.(calls := st.calls + [ExtractCall(archive)]);
    match reply
    case Threw(m) => Phase(st1, Some(ToolFailed(m)))
    case Returned(effect) => Phase(st1.(files := Download.Applied(st1.files, effect)), None)
  }

  /** The files after the clean-up: the compressed archive, every part, and
      the extracted directory with everything in it, removed. */
  function Cleaned(files: map<string, nat>, out: string, items: seq<FileItem>, extracted: string): map<string, nat> {
    Download.WithoutTree(files - {out} - (set k | 0 <= k < |items| :: Download.SavePath(items[k].oFileName)), extracted)
  }

  /** The clean-up leaves none of the leftovers, and keeps every other file
      with its size. */
  lemma CleanedRemovesLeftovers(files: map<string, nat>, out: string, items: seq<FileItem>, extracted: string)
    ensures var r := Cleaned(files, out, items, extracted);
      && out !in r
      && (forall it :: it in items ==> Download.SavePath(it.oFileName) !in r)
      && !Download.PathExists(r, extracted)
      && (forall k ::
            (&& k in files && k != out && k != extracted && !Download.IsUnder(extracted, k)
             && (forall it :: it in items ==> k != Download.SavePath(it.oFileName)))
            ==> k in r && r[k] == files[k])
  {
    var parts := set k | 0 <= k < |items| :: Download.SavePath(items[k].oFileName);
    forall it | it in items
      ensures Download.SavePath(it.oFileName) in parts
    {
      var j :| 0 <= j < |items| && items[j] == it;
    }
  }

  /** Extract (unless already extracted), compress, upload, clean up, and
      mark every item COMPLETED with the upload's fields. */
  function Package(st: State, items: seq<FileItem>, layout: Layout, w: GroupWorld): (r: Phase)
    ensures SameShape(r.st.group, st.group)
  {
    var extracted := layout.extractedPath;
    var ex := if Download.PathExists(st.files, extracted) then Phase(st, None) else Extract(st, layout.primaryPath, w.extract);
    if ex.failure.Some? then ex
    else
      var st1 := ex.st.(calls := ex.st.calls + [CompressCall(extracted)]);
      match w.compress
      case Threw(m) => Phase(st1, Some(ToolFailed(m)))
      case Returned(Compressed(out, effect)) =>
        var outName := FilePath.PosixParse(out).base;
        var st2 := st1.(files := Download.Applied(st1.files, effect),
                        calls := st1.calls + [UploadCall(out, outName, st.group.gameId, st.group.platform)]);
        match w.upload
        case Threw(m) => Phase(st2, Some(ToolFailed(m)))
        case Returned(res) =>
          var st3 := st2.(files := Cleaned(st2.files, out, items, extracted));
          Phase(MarkEach(st3, items, CompleteWith(res)), None)
  }

  /** What follows the downloads: stop when every item is skipped; in a
      multipart group with a part missing, skip the missing parts; in
      another group with the primary archive missing, skip the first item;
      otherwise package. */
  function Finish(st: State, items: seq<FileItem>, layout: Layout, w: GroupWorld): (r: Phase)
    requires items != [] && |st.group.items| == |items|
    ensures SameShape(r.st.group, st.group)
  {
    if AllHaveStatus(st.group.items, Skipped) then Phase(st, None)
    else if layout.multipart then
      if !AllPartsPresent(st.files, items) then Phase(SkipMissing(st, items, |items|), None)
      else Package(st, items, layout, w)
    else if layout.primaryPath !in st.files then
      Phase(if st.group.items[0].status != Skipped then Mark(st, items[0], SkipWith(PrimaryMissing)) else st, None)
    else Package(st, items, layout, w)
  }

  /** Every item PROCESSING, then the downloads. */
  function AfterDownloads(st: State, w: GroupWorld): (r: Phase)
    ensures SameShape(r.st.group, st.group)
  {
    var items := st.group.items;
    DownloadEach(MarkEach(st, items, SetStatus(Processing)), items, w.downloads, |items|)
  }

  /** The `try` block of `process` and its `catch`, which marks every item
      FAILED and rethrows. */
  function ProcessWith(st: State, layout: Layout, w: GroupWorld): (r: Phase)
    requires st.group.items != []
  {
    var items := st.group.items;
    var dl := AfterDownloads(st, w);
    var t := if dl.failure.Some? then dl else Finish(dl.st, items, layout, w);
    if t.failure.Some? then Phase(MarkEach(t.st, items, SetStatus(Failed)), t.failure) else t
  }

  /** `process(file)`: a group with no items or with every item SKIPPED is
      left alone. */
  function ProcessGroup(st: State, w: GroupWorld): (r: Phase) {
    var items := st.group.items;
    if |items| == 0 || AllHaveStatus(items, Skipped) then Phase(st, None)
    else ProcessWith(st, LayoutOf(items), w)
  }

  // ---------------------------------------------------------------------
  // Properties of process
  // ---------------------------------------------------------------------

  /** A group with no items, or with every item SKIPPED, is left alone. */
  lemma ProcessLeavesSkippedGroup(st: State, w: GroupWorld)
    requires st.group.items == [] || AllHaveStatus(st.group.items, Skipped)
    ensures ProcessGroup(st, w) == Phase(st, None)
  {
  }

  /** The downloads start with every item PROCESSING. */
  lemma DownloadsStartProcessing(st: State)
    ensures AllHaveStatus(MarkEach(st, st.group.items, SetStatus(Processing)).group.items, Processing)
  {
    MarkAllCarries(st, SetStatus(Processing));
  }

  /** With every file present and no control file, the download loop
      requests nothing and changes nothing. */
  lemma {:induction false} NothingToDownload(st: State, items: seq<FileItem>, downloads: nat -> DownloadReply, n: nat)
    requires n <= |items|
    requires forall k :: 0 <= k < n ==> !NeedsDownload(st.files, items[k].oFileName)
    ensures DownloadEach(st, items, downloads, n) == Phase(st, None)
    decreases n
  {
    if n > 0 {
      NothingToDownload(st, items, downloads, n - 1);
    }
  }

  /** A URL check failure skips the item with the error's reason and the
      loop goes on; any other download error fails the item and throws. */
  lemma DownloadErrorHandling(st: State, it: FileItem, reply: DownloadReply, k: nat)
    requires NeedsDownload(st.files, it.oFileName) && reply.error.Some?
    requires k < |st.group.items| && Matches(it, st.group.items[k])
    ensures var r := DownloadItem(st, it, reply);
      if reply.error.value.UrlCheckFailed? then
        r.failure.None? && r.st.group.items[k].status == Skipped
        && r.st.group.items[k].skippedReason == Some(reply.error.value.reason)
      else
        r.failure == Some(DownloadFailed(reply.error.value)) && r.st.group.items[k].status == Failed
  {
  }

  /** A throw anywhere in the group marks every item FAILED. */
  lemma ProcessFailureFailsAll(st: State, w: GroupWorld)
    ensures var r := ProcessGroup(st, w);
      r.failure.Some? ==> AllHaveStatus(r.st.group.items, Failed)
  {
    var items := st.group.items;
    if items != [] && !AllHaveStatus(items, Skipped) {
      ThrowFailsAll(st, LayoutOf(items), w);
    }
  }

  lemma ThrowFailsAll(st: State, layout: Layout, w: GroupWorld)
    requires st.group.items != []
    ensures var r := ProcessWith(st, layout, w);
      r.failure.Some? ==> AllHaveStatus(r.st.group.items, Failed)
  {
    var items := st.group.items;
    var dl := AfterDownloads(st, w);
    var t := if dl.failure.Some? then dl else Finish(dl.st, items, layout, w);
    if t.failure.Some? {
      var r := MarkEach(t.st, items, SetStatus(Failed));
      assert SameShape(t.st.group, st.group);
      forall k | 0 <= k < |r.group.items|
        ensures r.group.items[k].status == Failed
      {
        MarkEachEffect(t.st, items, SetStatus(Failed), k);
        assert Identities(t.st.group.items)[k] == Identities(items)[k];
        assert Matches(items[k], t.st.group.items[k]);
      }
    }
  }

  /** When every item is SKIPPED after the downloads, nothing else happens:
      no extraction, compression, upload, clean-up or status change. */
  lemma AllSkippedStopsAfterDownloads(st: State, layout: Layout, w: GroupWorld)
    requires st.group.items != []
    requires AfterDownloads(st, w).failure.None? && AllHaveStatus(AfterDownloads(st, w).st.group.items, Skipped)
    ensures ProcessWith(st, layout, w) == AfterDownloads(st, w)
  {
  }

  /** The upload of a group that did not throw leaves every item COMPLETED
      with the same upload fields. */
  lemma UploadCompletesAll(st: State, items: seq<FileItem>, layout: Layout, w: GroupWorld)
    requires Identities(st.group.items) == Identities(items)
    requires Package(st, items, layout, w).failure.None?
    ensures w.upload.Returned?
    ensures var r := Package(st, items, layout, w).st;
      forall k :: 0 <= k < |r.group.items| ==> Carries(r.group.items[k], CompleteWith(w.upload.value))
  {
    var extracted := layout.extractedPath;
    var ex := if Download.PathExists(st.files, extracted) then Phase(st, None) else Extract(st, layout.primaryPath, w.extract);
    var out := w.compress.value.out;
    var st1 := ex.st.(calls := ex.st.calls + [CompressCall(extracted)]);
    var st2 := st1.(files := Download.Applied(st1.files, w.compress.value.effect),
                    calls := st1.calls + [UploadCall(out, FilePath.PosixParse(out).base, st.group.gameId, st.group.platform)]);
    var st3 := st2.(files := Cleaned(st2.files, out, items, extracted));
    var r := MarkEach(st3, items, CompleteWith(w.upload.value));
    assert r == Package(st, items, layout, w).st;
    forall k | 0 <= k < |r.group.items|
      ensures Carries(r.group.items[k], CompleteWith(w.upload.value))
    {
      MarkEachEffect(st3, items, CompleteWith(w.upload.value), k);
      assert Identities(st3.group.items)[k] == Identities(items)[k];
      assert Matches(items[k], st3.group.items[k]);
    }
  }

  /** A group that makes its upload and does not throw ends with every item
      COMPLETED, all with the same `n_*` fields, taken from the upload. */
  lemma ProcessSuccessCompletesAll(st: State, layout: Layout, w: GroupWorld)
    requires st.group.items != []
    ensures var r := ProcessWith(st, layout, w);
      r.failure.None? && (exists c :: c in r.st.calls && c.UploadCall? && c !in st.calls) ==>
        && w.upload.Returned?
        && forall k :: 0 <= k < |r.st.group.items| ==> Carries(r.st.group.items[k], CompleteWith(w.upload.value))
  {
    var items := st.group.items;
    var r := ProcessWith(st, layout, w);
    if r.failure.None? {
      var dl := AfterDownloads(st, w);
      var marked := MarkEach(st, items, SetStatus(Processing));
      assert forall k :: |marked.calls| <= k < |dl.st.calls| ==> dl.st.calls[k].DownloadCall?;
      assert forall c :: c in dl.st.calls && c !in st.calls ==> c.DownloadCall?;
      var fin := Finish(dl.st, items, layout, w);
      assert r == fin;
      if !AllHaveStatus(dl.st.group.items, Skipped) {
        var pkg := (layout.multipart && AllPartsPresent(dl.st.files, items))
                   || (!layout.multipart && layout.primaryPath in dl.st.files);
        if pkg {
          assert fin == Package(dl.st, items, layout, w);
          UploadCompletesAll(dl.st, items, layout, w);
        }
      }
    }
  }

  /** The download loop keeps the persisted list in step. */
  lemma {:induction false} DownloadEachKeepsStoreInStep(st: State, items: seq<FileItem>, downloads: nat -> DownloadReply, n: nat)
    requires n <= |items|
    ensures StoreFollows(st, DownloadEach(st, items, downloads, n).st, items)
    decreases n
  {
    if n > 0 {
      DownloadEachKeepsStoreInStep(st, items, downloads, n - 1);
      var prev := DownloadEach(st, items, downloads, n - 1);
      if prev.failure.None? {
        var it := items[n - 1];
        var reply := downloads(n - 1);
        if NeedsDownload(prev.st.files, it.oFileName) && reply.error.Some? {
          var st1 := prev.st.(files := Download.Applied(prev.st.files, reply.effect),
                              calls := prev.st.calls + [DownloadCall(it.oKey, it.oFileName)]);
          var u := if reply.error.value.UrlCheckFailed? then SkipWith(reply.error.value.reason) else SetStatus(Failed);
          MarkKeepsStoreInStep(st1, items, it, u);
          assert DownloadEach(st, items, downloads, n).st == Mark(st1, it, u);
          StoreFollowsTrans(st, prev.st, Mark(st1, it, u), items);
        }
      }
    }
  }

  /** The loop skipping missing parts keeps the persisted list in step. */
  lemma {:induction false} SkipMissingKeepsStoreInStep(st: State, items: seq<FileItem>, n: nat)
    requires n <= |items| == |st.group.items|
    ensures StoreFollows(st, SkipMissing(st, items, n), items)
    decreases n
  {
    if n > 0 {
      SkipMissingKeepsStoreInStep(st, items, n - 1);
      var prev := SkipMissing(st, items, n - 1);
      MarkKeepsStoreInStep(prev, items, items[n - 1], SkipWith(MultipartIncomplete));
      StoreFollowsTrans(st, prev, Mark(prev, items[n - 1], SkipWith(MultipartIncomplete)), items);
    }
  }

  /** Packaging keeps the persisted list in step. */
  lemma PackageKeepsStoreInStep(st: State, items: seq<FileItem>, layout: Layout, w: GroupWorld)
    ensures StoreFollows(st, Package(st, items, layout, w).st, items)
  {
    var r := Package(st, items, layout, w);
    if r.failure.None? && w.compress.Returned? && w.upload.Returned? {
      var extracted := layout.extractedPath;
      var ex := if Download.PathExists(st.files, extracted) then Phase(st, None) else Extract(st, layout.primaryPath, w.extract);
      var out := w.compress.value.out;
      var st1 := ex.st.(calls := ex.st.calls + [CompressCall(extracted)]);
      var st2 := st1.(files := Download.Applied(st1.files, w.compress.value.effect),
                      calls := st1.calls + [UploadCall(out, FilePath.PosixParse(out).base, st.group.gameId, st.group.platform)]);
      var st3 := st2.(files := Cleaned(st2.files, out, items, extracted));
      assert r.st == MarkEach(st3, items, CompleteWith(w.upload.value));
      MarkEachKeepsStoreInStep(st3, items, items, CompleteWith(w.upload.value));
    }
  }

  /** What follows the downloads keeps the persisted list in step. */
  lemma FinishKeepsStoreInStep(st: State, items: seq<FileItem>, layout: Layout, w: GroupWorld)
    requires items != [] && |st.group.items| == |items|
    ensures StoreFollows(st, Finish(st, items, layout, w).st, items)
  {
    if !AllHaveStatus(st.group.items, Skipped) {
      if layout.multipart {
        if !AllPartsPresent(st.files, items) {
          SkipMissingKeepsStoreInStep(st, items, |items|);
        } else {
          PackageKeepsStoreInStep(st, items, layout, w);
        }
      } else if layout.primaryPath !in st.files {
        MarkKeepsStoreInStep(st, items, items[0], SkipWith(PrimaryMissing));
      } else {
        PackageKeepsStoreInStep(st, items, layout, w);
      }
    }
  }

  /** `process` keeps the persisted list in step with the group in memory:
      the persisted copy of the group receives every status change the group
      does, and a persisted group sharing no item with it is untouched. */
  lemma ProcessKeepsStoreInStep(st: State, w: GroupWorld)
    ensures StoreFollows(st, ProcessGroup(st, w).st, st.group.items)
  {
    var items := st.group.items;
    if |items| != 0 && !AllHaveStatus(items, Skipped) {
      var layout := LayoutOf(items);
      var marked := MarkEach(st, items, SetStatus(Processing));
      MarkEachKeepsStoreInStep(st, items, items, SetStatus(Processing));
      var dl := AfterDownloads(st, w);
      DownloadEachKeepsStoreInStep(marked, items, w.downloads, |items|);
      StoreFollowsTrans(st, marked, dl.st, items);
      var t := if dl.failure.Some? then dl else Finish(dl.st, items, layout, w);
      if dl.failure.None? {
        FinishKeepsStoreInStep(dl.st, items, layout, w);
        StoreFollowsTrans(st, dl.st, t.st, items);
      }
      if t.failure.Some? {
        MarkEachKeepsStoreInStep(t.st, items, items, SetStatus(Failed));
        StoreFollowsTrans(st, t.st, MarkEach(t.st, items, SetStatus(Failed)), items);
      }
    }
  }

  /** In a multipart group with a part missing after the downloads, every
      item whose part is missing ends SKIPPED. */
  lemma {:induction false} SkipMissingSkips(st: State, items: seq<FileItem>, n: nat, k: nat)
    requires n <= |items| == |st.group.items|
    requires Identities(st.group.items) == Identities(items)
    requires k < n && Download.SavePath(items[k].oFileName) !in st.files
    ensures SkipMissing(st, items, n).group.items[k].status == Skipped
    decreases n
  {
    SkipMissingStep(st, items, n, k);
    var prev := SkipMissing(st, items, n - 1);
    assert Updated(prev.group.items[k], SkipWith(MultipartIncomplete)).status == Skipped;
    if k < n - 1 {
      SkipMissingSkips(st, items, n - 1, k);
    } else {
      assert Matches(items[k], items[k]);
      assert prev.files == st.files;
    }
  }

  /** An item whose part is present, like the parts of every item it shares
      a key with, is left as it was. */
  lemma {:induction false} SkipMissingKeeps(st: State, items: seq<FileItem>, n: nat, k: nat)
    requires n <= |items| == |st.group.items|
    requires Identities(st.group.items) == Identities(items)
    requires k < |items|
    requires forall j :: 0 <= j < n && Matches(items[j], items[k]) ==> Download.SavePath(items[j].oFileName) in st.files
    ensures SkipMissing(st, items, n).group.items[k] == st.group.items[k]
    decreases n
  {
    if n > 0 {
      SkipMissingKeeps(st, items, n - 1, k);
      SkipMissingStep(st, items, n, k);
    }
  }

  /** One turn of the skipping loop, seen from item `k`. */
  lemma SkipMissingStep(st: State, items: seq<FileItem>, n: nat, k: nat)
    requires 0 < n <= |items| == |st.group.items|
    requires Identities(st.group.items) == Identities(items)
    requires k < |items|
    ensures var prev := SkipMissing(st, items, n - 1);
      var skip := Download.SavePath(items[n - 1].oFileName) !in st.files && prev.group.items[n - 1].status != Skipped;
      SkipMissing(st, items, n).group.items[k] ==
        if skip && Matches(items[n - 1], items[k]) then Updated(prev.group.items[k], SkipWith(MultipartIncomplete))
        else prev.group.items[k]
  {
    var prev := SkipMissing(st, items, n - 1);
    assert Identities(prev.group.items)[k] == Identities(items)[k];
  }

  /** In a group that is not multipart and whose primary archive is missing
      after the downloads, only the first item and the items sharing its key
      change: unless the first item is already SKIPPED, they are skipped
      with the missing-primary reason. */
  lemma PrimaryMissingSkipsFirst(st: State, items: seq<FileItem>, layout: Layout, w: GroupWorld, k: nat)
    requires items != [] && |st.group.items| == |items|
    requires Identities(st.group.items) == Identities(items)
    requires !AllHaveStatus(st.group.items, Skipped)
    requires !layout.multipart && layout.primaryPath !in st.files
    requires k < |items|
    ensures var r := Finish(st, items, layout, w);
      && r.failure.None? && r.st.files == st.files && r.st.calls == st.calls
      && (if Matches(items[0], items[k]) && st.group.items[0].status != Skipped then
            r.st.group.items[k].status == Skipped && r.st.group.items[k].skippedReason == Some(PrimaryMissing)
          else r.st.group.items[k] == st.group.items[k])
  {
    assert Identities(st.group.items)[0] == Identities(items)[0];
    assert Identities(st.group.items)[k] == Identities(items)[k];
  }

  // ---------------------------------------------------------------------
  // main, as a function
  // ---------------------------------------------------------------------

  /** The groups in memory, the persisted list, the files and the calls. */
  datatype RunState = RunState(groups: seq<File>, stored: seq<File>, files: map<string, nat>, calls: seq<Call>)

  /** One turn of `main`'s loop: a group whose items are all COMPLETED is
      passed over, any other is handed to `process`. */
  function MainStep(rs: RunState, k: nat, w: GroupWorld, process: (State, GroupWorld) -> Phase): (r: (RunState, Option<Failure>))
    requires k < |rs.groups|
    ensures |r.0.groups| == |rs.groups|
    ensures forall j :: 0 <= j < |rs.groups| && j != k ==> r.0.groups[j] == rs.groups[j]
  {
    var g := rs.groups[k];
    if AllHaveStatus(g.items, Completed) then (rs, None)
    else
      var p := process(State(g, rs.stored, rs.files, rs.calls), w);
      (RunState(rs.groups[k := p.st.group], p.st.stored, p.st.files, p.st.calls), p.failure)
  }

  /** `main`'s loop over the first `n` groups, one world per group; a throw
      ends the run. */
  function RunGroups(rs: RunState, worlds: seq<GroupWorld>, n: nat, process: (State, GroupWorld) -> Phase): (r: (RunState, Option<Failure>))
    requires n <= |rs.groups| <= |worlds|
    ensures |r.0.groups| == |rs.groups|
    ensures forall j :: n <= j < |rs.groups| ==> r.0.groups[j] == rs.groups[j]
    decreases n
  {
    if n == 0 then (rs, None)
    else
      var prev := RunGroups(rs, worlds, n - 1, process);
      if prev.1.Some? then prev
      else MainStep(prev.0, n - 1, worlds[n - 1], process)
  }

  lemma RunGroupsStep(rs: RunState, worlds: seq<GroupWorld>, n: nat, process: (State, GroupWorld) -> Phase)
    requires n < |rs.groups| <= |worlds|
    requires RunGroups(rs, worlds, n, process).1.None?
    ensures RunGroups(rs, worlds, n + 1, process) == MainStep(RunGroups(rs, worlds, n, process).0, n, worlds[n], process)
  {
  }

  /** Once a group throws, no later group is processed: the run stays as it
      was at the throw. */
  lemma {:induction false} RunStopsAtFailure(rs: RunState, worlds: seq<GroupWorld>, n: nat, m: nat,
                                             process: (State, GroupWorld) -> Phase)
    requires n <= m <= |rs.groups| <= |worlds|
    requires RunGroups(rs, worlds, n, process).1.Some?
    ensures RunGroups(rs, worlds, m, process) == RunGroups(rs, worlds, n, process)
    decreases m
  {
    if m > n {
      RunStopsAtFailure(rs, worlds, n, m - 1, process);
    }
  }

  /** A run over groups that are all COMPLETED changes nothing and calls
      `process` for none of them. */
  lemma {:induction false} CompletedGroupsPassedOver(rs: RunState, worlds: seq<GroupWorld>, n: nat,
                                                     process: (State, GroupWorld) -> Phase)
    requires n <= |rs.groups| <= |worlds|
    requires forall k :: 0 <= k < |rs.groups| ==> AllHaveStatus(rs.groups[k].items, Completed)
    ensures RunGroups(rs, worlds, n, process) == (rs, None)
    decreases n
  {
    if n > 0 {
      CompletedGroupsPassedOver(rs, worlds, n - 1, process);
    }
  }

  /** Items of different groups are never the same item. */
  predicate KeysApart(groups: seq<File>) {
    forall i, j :: 0 <= i < |groups| && 0 <= j < |groups| && i != j ==> Apart(groups[j], groups[i].items)
  }

  /** A `process` that keeps each group's shape and keeps the persisted list
      in step with it. */
  ghost predicate KeepsStoreInStep(process: (State, GroupWorld) -> Phase) {
    forall st: State, w: GroupWorld ::
      SameShape(process(st, w).st.group, st.group) && StoreFollows(st, process(st, w).st, st.group.items)
  }

  lemma ProcessGroupKeepsStoreInStep()
    ensures KeepsStoreInStep(ProcessGroup)
  {
    forall st: State, w: GroupWorld
      ensures SameShape(ProcessGroup(st, w).st.group, st.group) && StoreFollows(st, ProcessGroup(st, w).st, st.group.items)
    {
      ProcessKeepsStoreInStep(st, w);
      var items := st.group.items;
      if |items| != 0 && !AllHaveStatus(items, Skipped) {
        var layout := LayoutOf(items);
        var dl := AfterDownloads(st, w);
        if dl.failure.None? {
          assert SameShape(Finish(dl.st, items, layout, w).st.group, st.group);
        }
      }
    }
  }

  /** Items with the same identity are the same item for every other item. */
  lemma ApartByIdentities(f: File, g: File, items: seq<FileItem>, others: seq<FileItem>)
    requires Identities(f.items) == Identities(g.items) && Identities(items) == Identities(others)
    requires Apart(f, items)
    ensures Apart(g, others)
  {
    forall k, m | 0 <= k < |g.items| && 0 <= m < |others|
      ensures !Matches(others[m], g.items[k])
    {
      assert Identities(f.items)[k] == Identities(g.items)[k];
      assert Identities(items)[m] == Identities(others)[m];
    }
  }

  /** One turn of `main` keeps the persisted list equal to the groups in memory. */
  lemma MainStepKeepsStoreInStep(rs: RunState, k: nat, w: GroupWorld, process: (State, GroupWorld) -> Phase)
    requires k < |rs.groups|
    requires rs.stored == rs.groups && KeysApart(rs.groups) && KeepsStoreInStep(process)
    ensures var r := MainStep(rs, k, w, process).0;
      r.stored == r.groups && KeysApart(r.groups)
  {
    var g := rs.groups[k];
    if !AllHaveStatus(g.items, Completed) {
      var st := State(g, rs.stored, rs.files, rs.calls);
      var p := process(st, w);
      var groups := rs.groups[k := p.st.group];
      assert SameShape(p.st.group, g) && StoreFollows(st, p.st, g.items);
      forall j | 0 <= j < |groups|
        ensures p.st.stored[j] == groups[j]
      {
        if j != k {
          assert Apart(rs.stored[j], g.items);
        }
      }
      forall i, j | 0 <= i < |groups| && 0 <= j < |groups| && i != j
        ensures Apart(groups[j], groups[i].items)
      {
        ApartByIdentities(rs.groups[j], groups[j], rs.groups[i].items, groups[i].items);
      }
    }
  }

  /** Along `main`, the persisted list stays equal to the groups in memory,
      as long as no item belongs to two groups. */
  lemma {:induction false} RunKeepsStoreInStep(rs: RunState, worlds: seq<GroupWorld>, n: nat,
                                               process: (State, GroupWorld) -> Phase)
    requires n <= |rs.groups| <= |worlds|
    requires rs.stored == rs.groups && KeysApart(rs.groups) && KeepsStoreInStep(process)
    ensures var r := RunGroups(rs, worlds, n, process).0;
      r.stored == r.groups && KeysApart(r.groups)
    decreases n
  {
    if n > 0 {
      RunKeepsStoreInStep(rs, worlds, n - 1, process);
      var prev := RunGroups(rs, worlds, n - 1, process);
      if prev.1.None? {
        MainStepKeepsStoreInStep(prev.0, n - 1, worlds[n - 1], process);
      }
    }
  }

  /** The groups `make_final_files` builds share no item: two items with the
      same original key and game have the same platform and group name, so
      they land in the same group. */
  lemma PreparedGroupsKeysApart(raw: seq<S3Object>, groupName: string -> string)
    requires Preparation.AllReady(raw)
    requires forall k :: 0 <= k < |raw| ==> raw[k].platform == Some(Preparation.PlatformOf(raw[k].key))
    ensures KeysApart(Preparation.FinalFiles(raw, groupName))
  {
    var files := Preparation.FinalFiles(raw, groupName);
    var keys := Dedup(Preparation.GroupKeys(raw, groupName));
    Preparation.GroupMapKeys(raw, groupName);
    forall i, j | 0 <= i < |files| && 0 <= j < |files| && i != j
      ensures Apart(files[j], files[i].items)
    {
      Preparation.FinalFilesGroup(raw, groupName, i);
      Preparation.FinalFilesGroup(raw, groupName, j);
      forall k, m | 0 <= k < |files[j].items| && 0 <= m < |files[i].items|
        ensures !Matches(files[i].items[m], files[j].items[k])
      {
        OtherKeysItemsDiffer(raw, groupName, keys[i], keys[j], files[i].items[m], files[j].items[k]);
      }
    }
  }

  /** Items grouped under two different keys never match. */
  lemma OtherKeysItemsDiffer(raw: seq<S3Object>, groupName: string -> string, ka: Preparation.GroupKey, kb: Preparation.GroupKey,
                             a: FileItem, b: FileItem)
    requires Preparation.AllReady(raw)
    requires forall k :: 0 <= k < |raw| ==> raw[k].platform == Some(Preparation.PlatformOf(raw[k].key))
    requires ka != kb
    requires a in Preparation.ItemsWithKey(raw, groupName, ka) && b in Preparation.ItemsWithKey(raw, groupName, kb)
    ensures !Matches(a, b)
  {
    var i :| 0 <= i < |raw| && Preparation.GroupKeyOf(raw[i], groupName) == ka && a == Preparation.NewItem(raw[i]);
    var j :| 0 <= j < |raw| && Preparation.GroupKeyOf(raw[j], groupName) == kb && b == Preparation.NewItem(raw[j]);
  }

  // ---------------------------------------------------------------------
  // The migration, step by step
  // ---------------------------------------------------------------------

  class Migrator {
    /** `main`'s in-memory copy of the groups. */
    var files: seq<File>
    /** The calls made to the outside world, in order. */
    ghost var calls: seq<Call>
    const disk: Download.LocalDisk
    const store: FileUtils.FinalFilesStore

    constructor(disk: Download.LocalDisk, store: FileUtils.FinalFilesStore)
      ensures this.disk == disk && this.store == store && files == [] && calls == []
    {
      this.disk := disk;
      this.store := store;
      files := [];
      calls := [];
    }

    /** Group `i` with the rest of the state. */
    ghost function Snapshot(i: nat): State
      reads this, disk, store
      requires i < |files|
    {
      State(files[i], store.files, disk.files, calls)
    }

    ghost predicate OthersKept(oldFiles: seq<File>, i: nat)
      reads this
    {
      |files| == |oldFiles| && forall j :: 0 <= j < |files| && j != i ==> files[j] == oldFiles[j]
    }

    /** `updateFileItemStatus(file, target, u)` on group `i`. */
    method UpdateFileItemStatus(i: nat, target: FileItem, u: ItemUpdate)
      requires i < |files|
      modifies this, store
      ensures OthersKept(old(files), i)
      ensures Snapshot(i) == Mark(old(Snapshot(i)), target, u)
    {
      var f := files[i];
      var items: seq<FileItem> := [];
      var k := 0;
      while k < |f.items|
        invariant 0 <= k <= |f.items|
        invariant |items| == k
        invariant forall m :: 0 <= m < k ==> items[m] == FileUtils.UpdateItem(f.items[m], SameItem(target), Updater(u))
      {
        var it := f.items[k];
        if it.oKey == target.oKey && it.gameId == target.gameId {
          it := Updated(it, u);
        }
        items := items + [it];
        k := k + 1;
      }
      files := files[i := f.(items := items)];
      store.UpdateItemInFinalFiles(SameItem(target), Updater(u));
    }

    /** `for (const it of targets) updateFileItemStatus(file, it, u)`. */
    method MarkAll(i: nat, targets: seq<FileItem>, u: ItemUpdate)
      requires i < |files|
      modifies this, store
      ensures OthersKept(old(files), i)
      ensures Snapshot(i) == MarkEach(old(Snapshot(i)), targets, u)
    {
      ghost var st0 := Snapshot(i);
      var k := 0;
      while k < |targets|
        invariant 0 <= k <= |targets|
        invariant OthersKept(old(files), i)
        invariant Snapshot(i) == MarkEach(st0, targets[..k], u)
      {
        UpdateFileItemStatus(i, targets[k], u);
        assert targets[..k + 1][..k] == targets[..k];
        k := k + 1;
      }
      assert targets[..k] == targets;
    }

    /** The download loop of `process`. */
    method DownloadAll(i: nat, items: seq<FileItem>, downloads: nat -> DownloadReply) returns (failure: Option<Failure>)
      requires i < |files|
      modifies this, store, disk
      ensures OthersKept(old(files), i)
      ensures Phase(Snapshot(i), failure) == DownloadEach(old(Snapshot(i)), items, downloads, |items|)
    {
      ghost var st0 := Snapshot(i);
      failure := None;
      var k := 0;
      while k < |items| && failure.None?
        invariant 0 <= k <= |items|
        invariant OthersKept(old(files), i)
        invariant Phase(Snapshot(i), failure) == DownloadEach(st0, items, downloads, k)
      {
        failure := DownloadOne(i, items[k], downloads(k));
        k := k + 1;
      }
      if k < |items| {
        RunDownloadsStop(st0, items, downloads, k, |items|);
      }
    }

    /** One turn of the download loop. */
    method DownloadOne(i: nat, it: FileItem, reply: DownloadReply) returns (failure: Option<Failure>)
      requires i < |files|
      modifies this, store, disk
      ensures OthersKept(old(files), i)
      ensures Phase(Snapshot(i), failure) == DownloadItem(old(Snapshot(i)), it, reply)
    {
      var p := Download.SavePath(it.oFileName);
      var needDownload := Download.CtrlPath(p) in disk.files || p !in disk.files;
      if !needDownload {
        return None;
      }
      disk.Apply(reply.effect);
      calls := calls + [DownloadCall(it.oKey, it.oFileName)];
      if reply.error.None? {
        return None;
      }
      var e := reply.error.value;
      if e.UrlCheckFailed? {
        UpdateFileItemStatus(i, it, SkipWith(e.reason));
        return None;
      }
      UpdateFileItemStatus(i, it, SetStatus(Failed));
      return Some(DownloadFailed(e));
    }

    /** The loop that skips the missing parts of a multipart group. */
    method SkipMissingParts(i: nat, items: seq<FileItem>)
      requires i < |files| && |items| == |files[i].items|
      modifies this, store
      ensures OthersKept(old(files), i)
      ensures Snapshot(i) == SkipMissing(old(Snapshot(i)), items, |items|)
    {
      ghost var st0 := Snapshot(i);
      var k := 0;
      while k < |items|
        invariant 0 <= k <= |items|
        invariant OthersKept(old(files), i)
        invariant Snapshot(i) == SkipMissing(st0, items, k)
      {
        if Download.SavePath(items[k].oFileName) !in disk.files && files[i].items[k].status != Skipped {
          UpdateFileItemStatus(i, items[k], SkipWith(MultipartIncomplete));
        }
        k := k + 1;
      }
    }

    /** Extract, compress, upload, clean up and complete. */
    method PackageGroup(i: nat, items: seq<FileItem>, layout: Layout, w: GroupWorld) returns (failure: Option<Failure>)
      requires i < |files|
      modifies this, store, disk
      ensures OthersKept(old(files), i)
      ensures Phase(Snapshot(i), failure) == Package(old(Snapshot(i)), items, layout, w)
    {
      if !Download.PathExists(disk.files, layout.extractedPath) {
        calls := calls + [ExtractCall(layout.primaryPath)];
        match w.extract
        case Threw(m) =>
          return Some(ToolFailed(m));
        case Returned(effect) =>
          disk.Apply(effect);
      }
      calls := calls + [CompressCall(layout.extractedPath)];
      if w.compress.Threw? {
        return Some(ToolFailed(w.compress.message));
      }
      var compressedOut := w.compress.value.out;
      disk.Apply(w.compress.value.effect);
      var outName := FilePath.PosixParse(compressedOut).base;
      calls := calls + [UploadCall(compressedOut, outName, files[i].gameId, files[i].platform)];
      if w.upload.Threw? {
        return Some(ToolFailed(w.upload.message));
      }
      var result := w.upload.value;
      DeleteLeftovers(compressedOut, items, layout.extractedPath);
      MarkAll(i, items, CompleteWith(result));
      return None;
    }

    /** Delete the compressed archive, every downloaded part and the
        extracted directory, each only when present. */
    method DeleteLeftovers(out: string, items: seq<FileItem>, extracted: string)
      modifies disk
      ensures disk.files == Cleaned(old(disk.files), out, items, extracted)
    {
      if out in disk.files {
        disk.Delete(out);
      }
      var k := 0;
      while k < |items|
        invariant 0 <= k <= |items|
        invariant disk.files == old(disk.files) - {out} - (set m | 0 <= m < k :: Download.SavePath(items[m].oFileName))
      {
        var p := Download.SavePath(items[k].oFileName);
        if p in disk.files {
          disk.Delete(p);
        }
        k := k + 1;
      }
      if Download.PathExists(disk.files, extracted) {
        disk.DeleteTree(extracted);
      }
    }

    /** `process(files[i])`. */
    method Process(i: nat, w: GroupWorld) returns (failure: Option<Failure>)
      requires i < |files|
      modifies this, store, disk
      ensures OthersKept(old(files), i)
      ensures Phase(Snapshot(i), failure) == ProcessGroup(old(Snapshot(i)), w)
    {
      var items := files[i].items;
      if |items| == 0 {
        return None;
      }
      if AllHaveStatus(items, Skipped) {
        return None;
      }
      var layout := LayoutOf(items);
      failure := ProcessItems(i, layout, w);
    }

    /** The `try` block of `process` and its `catch`. */
    method ProcessItems(i: nat, layout: Layout, w: GroupWorld) returns (failure: Option<Failure>)
      requires i < |files| && files[i].items != []
      modifies this, store, disk
      ensures OthersKept(old(files), i)
      ensures Phase(Snapshot(i), failure) == ProcessWith(old(Snapshot(i)), layout, w)
    {
      var items := files[i].items;
      MarkAll(i, items, SetStatus(Processing));
      failure := DownloadAll(i, items, w.downloads);
      if failure.None? {
        failure := FinishGroup(i, items, layout, w);
      }
      if failure.Some? {
        MarkAll(i, items, SetStatus(Failed));
      }
    }

    /** `process` after its download loop. */
    method FinishGroup(i: nat, items: seq<FileItem>, layout: Layout, w: GroupWorld) returns (failure: Option<Failure>)
      requires i < |files| && items != [] && |files[i].items| == |items|
      modifies this, store, disk
      ensures OthersKept(old(files), i)
      ensures Phase(Snapshot(i), failure) == Finish(old(Snapshot(i)), items, layout, w)
    {
      if AllHaveStatus(files[i].items, Skipped) {
        return None;
      }
      if layout.multipart {
        if !AllPartsPresent(disk.files, items) {
          SkipMissingParts(i, items);
          return None;
        }
      } else if layout.primaryPath !in disk.files {
        if files[i].items[0].status != Skipped {
          UpdateFileItemStatus(i, items[0], SkipWith(PrimaryMissing));
        }
        return None;
      }
      failure := PackageGroup(i, items, layout, w);
    }

    /** `main`: read the persisted groups and process, in order, every group
      whose items are not all COMPLETED; the first throw ends the run. */
    method RunAll(worlds: seq<GroupWorld>) returns (failure: Option<Failure>)
      requires |store.files| <= |worlds|
      modifies this, store, disk
      ensures (Current(), failure) == RunGroups(old(Loaded()), worlds, |old(store.files)|, ProcessGroup)
      ensures KeysApart(old(store.files)) ==> files == store.files
    {
      files := store.files;
      ghost var rs0 := Current();
      failure := None;
      var k := 0;
      while k < |files| && failure.None?
        invariant k <= |rs0.groups| <= |worlds|
        invariant (Current(), failure) == RunGroups(rs0, worlds, k, ProcessGroup)
      {
        failure := MainTurn(k, worlds, rs0);
        k := k + 1;
      }
      if k < |rs0.groups| {
        RunStopsAtFailure(rs0, worlds, k, |rs0.groups|, ProcessGroup);
      }
      if KeysApart(rs0.groups) {
        ProcessGroupKeepsStoreInStep();
        RunKeepsStoreInStep(rs0, worlds, |rs0.groups|, ProcessGroup);
      }
    }

    /** The state right after `main` reads the persisted groups. */
    ghost function Loaded(): RunState
      reads this, disk, store
    {
      RunState(store.files, store.files, disk.files, calls)
    }

    /** The whole state `main` works on. */
    ghost function Current(): RunState
      reads this, disk, store
    {
      RunState(files, store.files, disk.files, calls)
    }

    /** One turn of `main`'s loop. */
    method MainTurn(k: nat, worlds: seq<GroupWorld>, ghost rs0: RunState) returns (failure: Option<Failure>)
      requires k < |rs0.groups| <= |worlds|
      requires (Current(), None) == RunGroups(rs0, worlds, k, ProcessGroup)
      modifies this, store, disk
      ensures (Current(), failure) == RunGroups(rs0, worlds, k + 1, ProcessGroup)
    {
      RunGroupsStep(rs0, worlds, k, ProcessGroup);
      if AllHaveStatus(files[k].items, Completed) {
        return None;
      }
      ghost var rs := Current();
      failure := Process(k, worlds[k]);
      assert files == rs.groups[k := files[k]];
    }
  }
}
