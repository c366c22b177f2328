/** The preparation pipeline of `main.ts`: the archive filter over the
    storage listing, the game tagging by the fuzzy matcher, the filter on a
    found game, the platform tagging, and the grouping of the tagged
    objects into file groups of fresh PENDING items. */
module Preparation {
  import opened Seqs
  import opened Types
  import opened Text
  import opened OrderedMaps
  import opened FilePath
  import opened GameMatcher

  // ---------------------------------------------------------------------
  // The archive filter
  // ---------------------------------------------------------------------

  /** `SUFFIX_RE`: the key ends in a container extension with an optional
      numeric volume, or in a volume tag (both case-insensitive). */
  predicate MatchesSuffixRe(key: string) {
    ContainerSuffixAt(key).Some? || VolumeTagAt(key).Some?
  }

  predicate LooksLikeArchive(o: S3Object) { MatchesSuffixRe(o.key) }

  /** `create_raw_files`: the listings of the two buckets, one after the
      other, keeping the objects whose key looks like an archive. */
  function RawFiles(gamesBucket: seq<S3Object>, authorsBucket: seq<S3Object>): (r: seq<S3Object>)
    ensures forall o :: o in r <==> (o in gamesBucket || o in authorsBucket) && MatchesSuffixRe(o.key)
    ensures r == Filter(gamesBucket, LooksLikeArchive) + Filter(authorsBucket, LooksLikeArchive)
  {
    FilterAppend(gamesBucket, authorsBucket, LooksLikeArchive);
    Filter(gamesBucket + authorsBucket, LooksLikeArchive)
  }

  /** The listing filter and `stripArchiveSuffix` use the same two suffix
      patterns: a key passes the filter exactly when stripping its archive
      suffix shortens it. */
  lemma SuffixReIffStripped(key: string)
    ensures MatchesSuffixRe(key) <==> |StripArchiveSuffix(key)| < |key|
  {
    var noContainer := match ContainerSuffixAt(key) case Some(i) => key[..i] case None => key;
    assert |noContainer| <= |key|;
    match VolumeTagAt(noContainer)
    case Some(j) =>
      assert StripArchiveSuffix(key) == noContainer[..j];
    case None =>
      assert StripArchiveSuffix(key) == noContainer;
  }

  // ---------------------------------------------------------------------
  // Game tagging, the game filter and the platform
  // ---------------------------------------------------------------------

  /** The verdict of `chooseBestMatch` against `index`, as a function of the
      file name. */
  function MatcherOf(index: GameIndex): string -> Option<int> {
    name => BestMatch(name, index)
  }

  /** The callback of `create_raw_files_with_game_id`: the object with the
      id `matcher` finds for its file name, or unchanged when it finds none. */
  function WithGameId(o: S3Object, matcher: string -> Option<int>): S3Object {
    match matcher(ParseFilePath(o.key).fileName)
    case Some(id) => o.(speculativeGameId := Some(id))
    case None => o
  }

  /** The objects of `raw`, each tagged as the callback does. */
  function TaggedAll(raw: seq<S3Object>, matcher: string -> Option<int>): (r: seq<S3Object>)
    ensures |r| == |raw|
    decreases |raw|
  {
    if raw == [] then [] else TaggedAll(raw[..|raw| - 1], matcher) + [WithGameId(raw[|raw| - 1], matcher)]
  }

  /** The callback of `create_raw_files_with_game_id`. */
  method TagWithGameId(f: S3Object, index: GameIndex) returns (g: S3Object)
    ensures g == WithGameId(f, MatcherOf(index))
  {
    var matchedId := ChooseBestMatch(ParseFilePath(f.key).fileName, index);
    g := f;
    if matchedId.Some? {
      g := f.(speculativeGameId := matchedId);
    }
  }

  /** `create_raw_files_with_game_id`: build the index of the catalog, then
      tag every object by its file name. */
  method TagWithGameIds(raw: seq<S3Object>, games: seq<Game>) returns (tagged: seq<S3Object>)
    ensures tagged == TaggedAll(raw, MatcherOf(IndexOf(games)))
  {
    var index := BuildGameIndex(games);
    tagged := TagAll(raw, index);
  }

  /** The `map` of `create_raw_files_with_game_id` over the listing. */
  method TagAll(raw: seq<S3Object>, index: GameIndex) returns (tagged: seq<S3Object>)
    ensures tagged == TaggedAll(raw, MatcherOf(index))
  {
    tagged := [];
    var i := 0;
    while i < |raw|
      invariant 0 <= i <= |raw|
      invariant tagged == TaggedAll(raw[..i], MatcherOf(index))
    {
      var f := TagWithGameId(raw[i], index);
      TaggedAllStep(raw, MatcherOf(index), i);
      tagged := tagged + [f];
      i := i + 1;
    }
    assert raw[..|raw|] == raw;
  }

  lemma TaggedAllStep(raw: seq<S3Object>, matcher: string -> Option<int>, i: nat)
    requires i < |raw|
    ensures TaggedAll(raw[..i + 1], matcher) == TaggedAll(raw[..i], matcher) + [WithGameId(raw[i], matcher)]
  {
    assert raw[..i + 1][..i] == raw[..i];
  }

  /** Tagging keeps the order and the length of the listing, and object `i`
      is tagged on its own. */
  lemma {:induction false} TaggedAllAt(raw: seq<S3Object>, matcher: string -> Option<int>, i: nat)
    requires i < |raw|
    ensures TaggedAll(raw, matcher)[i] == WithGameId(raw[i], matcher)
    decreases |raw|
  {
    if i < |raw| - 1 {
      TaggedAllAt(raw[..|raw| - 1], matcher, i);
    }
  }

  /** Tagging touches nothing but the game id; an untagged object gets an id
      exactly when the matcher finds one, and that id is a catalog game's. */
  lemma TaggedIdsAreGames(o: S3Object, games: seq<Game>)
    requires o.speculativeGameId.None?
    ensures var t := WithGameId(o, MatcherOf(IndexOf(games)));
      t == o.(speculativeGameId := t.speculativeGameId)
      && (t.speculativeGameId.Some? <==> BestMatch(ParseFilePath(o.key).fileName, IndexOf(games)).Some?)
      && (t.speculativeGameId.Some? ==> t.speculativeGameId.value in GameIds(games))
  {
    MatchIsAGame(games, ParseFilePath(o.key).fileName);
  }

  predicate HasGameId(o: S3Object) { o.speculativeGameId.Some? }

  /** `filter_raw_files_with_game_id`: the objects with a game id, in order. */
  function FilterWithGameId(raw: seq<S3Object>): (r: seq<S3Object>)
    ensures forall o :: o in r <==> o in raw && o.speculativeGameId.Some?
    ensures forall i :: 0 <= i < |r| ==> r[i].speculativeGameId.Some?
  {
    var r := Filter(raw, HasGameId);
    assert forall i :: 0 <= i < |r| ==> r[i] in r;
    r
  }

  /** The platform tag of `add_platform_to_raw_files`: PE when some folder of
      the key is exactly `PE`. */
  function PlatformOf(key: string): Platform {
    if "PE" in ParseFilePath(key).folders then PE else PC
  }

  /** `add_platform_to_raw_files`: every object gets its platform, nothing
      else changes. */
  function AddPlatforms(raw: seq<S3Object>): (r: seq<S3Object>)
    ensures |r| == |raw|
    ensures forall i :: 0 <= i < |r| ==>
      r[i] == raw[i].(platform := Some(PlatformOf(raw[i].key)))
  {
    seq(|raw|, i requires 0 <= i < |raw| => raw[i].(platform := Some(PlatformOf(raw[i].key))))
  }

  /** For a key made of folders and a file name, the platform is PE exactly
      when one of the folders is `PE`; a bare file name is PC. */
  lemma PlatformOfFolders(folders: seq<string>, name: string)
    requires forall k :: 0 <= k < |folders| ==> folders[k] != "" && '/' !in folders[k]
    requires name != "" && '/' !in name
    ensures var key := if folders == [] then name else Join(folders, '/') + "/" + name;
      PlatformOf(key) == PE <==> "PE" in folders
  {
    if folders == [] {
      ParseBareName(name);
    } else {
      ParseJoinedPath(folders, name);
    }
  }

  // ---------------------------------------------------------------------
  // Grouping (`make_final_files`)
  // ---------------------------------------------------------------------

  /** An object ready for grouping: the earlier stages gave it a game id and
      a platform (the source asserts both with `!` and a cast). */
  predicate Ready(o: S3Object) { o.speculativeGameId.Some? && o.platform.Some? }

  predicate AllReady(raw: seq<S3Object>) {
    forall k :: 0 <= k < |raw| ==> Ready(raw[k])
  }

  /** The objects `make_final_files` reads are those of the three earlier
      stages, and all of them are ready for grouping. */
  function Prepared(tagged: seq<S3Object>): (r: seq<S3Object>)
    ensures AllReady(r)
    ensures forall o :: o in r ==> exists t :: t in tagged && t.speculativeGameId.Some? && o == t.(platform := Some(PlatformOf(t.key)))
  {
    var kept := FilterWithGameId(tagged);
    var r := AddPlatforms(kept);
    assert forall o :: o in r ==> exists k :: 0 <= k < |kept| && o == r[k];
    assert forall k :: 0 <= k < |kept| ==> kept[k] in tagged;
    r
  }

  /** `base` of `path.parse(key)`, `''` when empty. */
  function BaseName(key: string): string { PosixParse(key).base }

  /** The item built for an object: PENDING, the original key and base
      name, the matched game, and empty new-object fields. */
  function NewItem(o: S3Object): FileItem
    requires Ready(o)
  {
    FileItem(o.key, BaseName(o.key), "", "", 0, "", "", o.speculativeGameId.value, Pending, None)
  }

  /** The grouping key `${game_id}__${platform}__${archiveGroupKey(base)}`,
      as the triple it is built from. */
  datatype GroupKey = GroupKey(gameId: int, platform: Platform, name: string)

  // The grouping below is stated for any function `groupName` that names the
  // group of a base name; `make_final_files` uses `ArchiveGroupKey`. The
  // partition properties do not depend on how the name is computed.

  function GroupKeyOf(o: S3Object, groupName: string -> string): GroupKey
    requires Ready(o)
  {
    GroupKey(o.speculativeGameId.value, o.platform.value, groupName(BaseName(o.key)))
  }

  /** One iteration of the grouping loop: create the group on its first
      object, then push the object's item. */
  function AddToGroup(m: OMap<GroupKey, File>, o: S3Object, groupName: string -> string): (r: OMap<GroupKey, File>)
    requires Ready(o)
    ensures ValidMap(m) ==> ValidMap(r)
    ensures var key := GroupKeyOf(o, groupName);
      && (ValidMap(m) ==> r.keys == if key in m.keys then m.keys else m.keys + [key])
      && key in r.vals
      && r.vals[key] == (if key in m.vals then m.vals[key].(items := m.vals[key].items + [NewItem(o)])
                         else File([NewItem(o)], o.platform.value, o.speculativeGameId.value))
      && forall k :: k != key ==> (k in r.vals <==> k in m.vals) && (k in m.vals ==> r.vals[k] == m.vals[k])
  {
    var key := GroupKeyOf(o, groupName);
    var m1 := if key in m.vals then m else Put(m, key, File([], o.platform.value, o.speculativeGameId.value));
    assert Get(m1, key).Some?;
    var g := m1.vals[key];
    var r := Put(m1, key, g.(items := g.items + [NewItem(o)]));
    assert Get(r, key).Some?;
    assert forall k :: k != key ==> Get(r, k) == Get(m, k);
    r
  }

  /** `groupMap` after the loop has seen every object. */
  function GroupMap(raw: seq<S3Object>, groupName: string -> string): (r: OMap<GroupKey, File>)
    requires AllReady(raw)
    ensures ValidMap(r)
    decreases |raw|
  {
    if raw == [] then EmptyMap()
    else AddToGroup(GroupMap(raw[..|raw| - 1], groupName), raw[|raw| - 1], groupName)
  }

  /** The groups `make_final_files` saves, in the order of `groupMap`. */
  function FinalFiles(raw: seq<S3Object>, groupName: string -> string): seq<File>
    requires AllReady(raw)
  {
    Values(GroupMap(raw, groupName))
  }

  /** `make_final_files`. */
  method MakeFinalFiles(raw: seq<S3Object>) returns (files: seq<File>)
    requires AllReady(raw)
    ensures files == FinalFiles(raw, ArchiveGroupKey)
  {
    var groupMap := GroupObjects(raw, ArchiveGroupKey);
    files := Values(groupMap);
  }

  /** The grouping loop of `make_final_files`, for the group naming
      function `groupName`. */
  method GroupObjects(raw: seq<S3Object>, groupName: string -> string) returns (groupMap: OMap<GroupKey, File>)
    requires AllReady(raw)
    ensures groupMap == GroupMap(raw, groupName)
  {
    var items := seq(|raw|, i requires 0 <= i < |raw| => NewItem(raw[i]));
    groupMap := EmptyMap();
    var i := 0;
    while i < |raw|
      invariant 0 <= i <= |raw|
      invariant groupMap == GroupMap(raw[..i], groupName)
    {
      var rf := raw[i];
      var key := GroupKeyOf(rf, groupName);
      if key !in groupMap.vals {
        groupMap := Put(groupMap, key, File([], rf.platform.value, rf.speculativeGameId.value));
      }
      var g := groupMap.vals[key];
      groupMap := Put(groupMap, key, g.(items := g.items + [items[i]]));
      GroupMapStep(raw, groupName, i);
      i := i + 1;
    }
    assert raw[..|raw|] == raw;
  }

  lemma GroupMapStep(raw: seq<S3Object>, groupName: string -> string, i: nat)
    requires AllReady(raw) && i < |raw|
    ensures AllReady(raw[..i]) && AllReady(raw[..i + 1])
    ensures GroupMap(raw[..i + 1], groupName) == AddToGroup(GroupMap(raw[..i], groupName), raw[i], groupName)
  {
    assert raw[..i + 1][..i] == raw[..i];
  }

  // ---------------------------------------------------------------------
  // What the grouping guarantees
  // ---------------------------------------------------------------------

  /** The grouping key of every object, in input order. */
  function GroupKeys(raw: seq<S3Object>, groupName: string -> string): (ks: seq<GroupKey>)
    requires AllReady(raw)
    ensures |ks| == |raw|
    ensures forall i :: 0 <= i < |raw| ==> ks[i] == GroupKeyOf(raw[i], groupName)
  {
    seq(|raw|, i requires 0 <= i < |raw| => GroupKeyOf(raw[i], groupName))
  }

  /** The items of the objects with grouping key `key`, in input order. */
  function ItemsWithKey(raw: seq<S3Object>, groupName: string -> string, key: GroupKey): (r: seq<FileItem>)
    requires AllReady(raw)
    ensures |r| <= |raw|
    ensures forall it :: it in r ==>
      exists k :: 0 <= k < |raw| && GroupKeyOf(raw[k], groupName) == key && it == NewItem(raw[k])
    decreases |raw|
  {
    if raw == [] then []
    else
      var init := raw[..|raw| - 1];
      var last := raw[|raw| - 1];
      var r := ItemsWithKey(init, groupName, key);
      assert forall k :: 0 <= k < |init| ==> init[k] == raw[k];
      if GroupKeyOf(last, groupName) == key then r + [NewItem(last)] else r
  }

  /** Groups appear in the order their keys first occur among the objects. */
  lemma {:induction false} GroupMapKeys(raw: seq<S3Object>, groupName: string -> string)
    requires AllReady(raw)
    ensures GroupMap(raw, groupName).keys == Dedup(GroupKeys(raw, groupName))
    decreases |raw|
  {
    if raw != [] {
      var init := raw[..|raw| - 1];
      var last := raw[|raw| - 1];
      GroupMapKeys(init, groupName);
      GroupMapHas(init, groupName, GroupKeyOf(last, groupName));
      assert GroupKeys(raw, groupName)[..|raw| - 1] == GroupKeys(init, groupName);
    }
  }

  /** No object has a key that does not occur among the keys. */
  lemma {:induction false} NoItemsWithoutKey(raw: seq<S3Object>, groupName: string -> string, key: GroupKey)
    requires AllReady(raw)
    requires key !in GroupKeys(raw, groupName)
    ensures ItemsWithKey(raw, groupName, key) == []
    decreases |raw|
  {
    if raw != [] {
      var init := raw[..|raw| - 1];
      assert GroupKeys(raw, groupName)[..|raw| - 1] == GroupKeys(init, groupName);
      assert GroupKeys(raw, groupName)[|raw| - 1] == GroupKeyOf(raw[|raw| - 1], groupName);
      NoItemsWithoutKey(init, groupName, key);
    }
  }

  /** One step of `GroupMapHas`: what the loop iteration for the last
      object of `raw` does to the group of `key`. */
  lemma AddToGroupHas(m: OMap<GroupKey, File>, raw: seq<S3Object>, groupName: string -> string, key: GroupKey)
    requires raw != [] && AllReady(raw)
    requires var init := raw[..|raw| - 1];
      && (key in m.vals <==> key in GroupKeys(init, groupName))
      && (key in m.vals ==> m.vals[key] == File(ItemsWithKey(init, groupName, key), key.platform, key.gameId))
    ensures var r := AddToGroup(m, raw[|raw| - 1], groupName);
      && (key in r.vals <==> key in GroupKeys(raw, groupName))
      && (key in r.vals ==> r.vals[key] == File(ItemsWithKey(raw, groupName, key), key.platform, key.gameId))
  {
    var init := raw[..|raw| - 1];
    var o := raw[|raw| - 1];
    var ok := GroupKeyOf(o, groupName);
    assert GroupKeys(raw, groupName) == GroupKeys(init, groupName) + [ok];
    var before := ItemsWithKey(init, groupName, key);
    assert ItemsWithKey(raw, groupName, key) == if ok == key then before + [NewItem(o)] else before;
    if key !in m.vals {
      NoItemsWithoutKey(init, groupName, key);
    }
  }

  /** A group exists exactly for the keys that occur, and the group of a key
      holds, in input order, the items of exactly the objects with that key,
      with the key's game id and platform. */
  lemma {:induction false} GroupMapHas(raw: seq<S3Object>, groupName: string -> string, key: GroupKey)
    requires AllReady(raw)
    ensures key in GroupMap(raw, groupName).vals <==> key in GroupKeys(raw, groupName)
    ensures key in GroupMap(raw, groupName).vals ==>
      GroupMap(raw, groupName).vals[key] == File(ItemsWithKey(raw, groupName, key), key.platform, key.gameId)
    decreases |raw|
  {
    if raw != [] {
      var init := raw[..|raw| - 1];
      assert AllReady(init);
      GroupMapHas(init, groupName, key);
      assert GroupMap(raw, groupName) == AddToGroup(GroupMap(init, groupName), raw[|raw| - 1], groupName);
      AddToGroupHas(GroupMap(init, groupName), raw, groupName, key);
    }
  }

  /** Items in a list of groups, counted group by group. */
  function ItemCount(files: seq<File>): nat
    decreases |files|
  {
    if files == [] then 0 else ItemCount(files[..|files| - 1]) + |files[|files| - 1].items|
  }

  lemma {:induction false} ItemCountUpdate(files: seq<File>, i: nat, f: File)
    requires i < |files|
    ensures ItemCount(files[i := f]) + |files[i].items| == ItemCount(files) + |f.items|
    decreases |files|
  {
    var n := |files|;
    if i < n - 1 {
      assert files[i := f][..n - 1] == files[..n - 1][i := f];
      ItemCountUpdate(files[..n - 1], i, f);
    } else {
      assert files[i := f][..n - 1] == files[..n - 1];
    }
  }

  /** Each step of the loop adds exactly one item to the groups. */
  lemma AddToGroupCount(m: OMap<GroupKey, File>, o: S3Object, groupName: string -> string)
    requires ValidMap(m) && Ready(o)
    ensures ItemCount(Values(AddToGroup(m, o, groupName))) == ItemCount(Values(m)) + 1
  {
    var key := GroupKeyOf(o, groupName);
    var r := AddToGroup(m, o, groupName);
    var vs := Values(m);
    if key in m.vals {
      var i := FirstIndex(m.keys, key);
      ValuesReplace(m, r, key);
      ItemCountUpdate(vs, i, r.vals[key]);
    } else {
      ValuesAppend(m, r, key);
      assert (vs + [r.vals[key]])[..|vs|] == vs;
    }
  }

  /** The grouping is a partition of the objects: the groups hold as many
      items as there were objects. */
  lemma {:induction false} FinalFilesCount(raw: seq<S3Object>, groupName: string -> string)
    requires AllReady(raw)
    ensures ItemCount(FinalFiles(raw, groupName)) == |raw|
    decreases |raw|
  {
    if raw != [] {
      var init := raw[..|raw| - 1];
      FinalFilesCount(init, groupName);
      AddToGroupCount(GroupMap(init, groupName), raw[|raw| - 1], groupName);
    }
  }

  /** Group `i` of the result is the group of the `i`-th distinct key in
      first-occurrence order: its items are those of the objects with that
      key, in input order, each a fresh PENDING item whose game id is the
      group's and whose object has the group's platform and group name. */
  lemma FinalFilesGroup(raw: seq<S3Object>, groupName: string -> string, i: nat)
    requires AllReady(raw)
    requires i < |Dedup(GroupKeys(raw, groupName))|
    ensures |FinalFiles(raw, groupName)| == |Dedup(GroupKeys(raw, groupName))|
    ensures var key := Dedup(GroupKeys(raw, groupName))[i];
      FinalFiles(raw, groupName)[i] == File(ItemsWithKey(raw, groupName, key), key.platform, key.gameId)
    ensures var f := FinalFiles(raw, groupName)[i];
      forall it :: it in f.items ==>
        && it.status == Pending && it.gameId == f.gameId
        && it.nKey == "" && it.nFileName == "" && it.nFileSize == 0 && it.nFileHash == "" && it.nFileContentType == ""
        && exists k :: 0 <= k < |raw| && raw[k].key == it.oKey && raw[k].platform == Some(f.platform)
                       && groupName(it.oFileName) == Dedup(GroupKeys(raw, groupName))[i].name
  {
    GroupMapKeys(raw, groupName);
    var key := Dedup(GroupKeys(raw, groupName))[i];
    assert key in Dedup(GroupKeys(raw, groupName));
    GroupMapHas(raw, groupName, key);
  }
}
