/** The records of the migration: catalog entries, storage objects, file
    items and file groups, with the item status lifecycle. */
module Types {
  import opened Seqs

  /** Status of one file item: PENDING -> PROCESSING -> COMPLETED | FAILED | SKIPPED. */
  datatype FileStatus = Pending | Processing | Completed | Failed | Skipped

  datatype Platform = PC | PE

  /** One physical object slated for migration. The `o*` fields describe the
      original object, the `n*` fields the re-packed upload. */
  datatype FileItem = FileItem(
    oKey: string,
    oFileName: string,
    nKey: string,
    nFileName: string,
    nFileSize: int,
    nFileHash: string,
    nFileContentType: string,
    gameId: int,
    status: FileStatus,
    skippedReason: Option<string>)

  /** A group of items that together form one deliverable (possibly the
      volumes of one multi-volume archive) for one game and platform. */
  datatype File = File(items: seq<FileItem>, platform: Platform, gameId: int)

  /** A catalog entry. An absent alias list is the empty list. */
  datatype Game = Game(gameId: int, titleJp: string, titleEn: string, titleZh: string, aliases: seq<string>)

  /** A storage listing entry, later enriched with a matched game and a platform. */
  datatype S3Object = S3Object(
    key: string,
    lastModified: int,
    etag: string,
    size: int,
    storageClass: string,
    speculativeGameId: Option<int>,
    platform: Option<Platform>)

  predicate AllHaveStatus(items: seq<FileItem>, s: FileStatus) {
    forall k :: 0 <= k < |items| ==> items[k].status == s
  }
}
