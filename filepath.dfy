/** `parseFilePath`: the folder segments and the file name of a storage key,
    as POSIX `path.parse` computes `dir` and `base`. */
module FilePath {
  import opened Seqs

  /** The `dir` and `base` fields of a POSIX `path.parse` result. */
  datatype PosixParts = PosixParts(dir: string, base: string)

  /** What `parseFilePath` returns. */
  datatype FilePath = FilePath(folders: seq<string>, fileName: string)

  /** Length of `s` once its trailing slashes are dropped. */
  function TrimmedEnd(s: string): (e: nat)
    ensures e <= |s|
    ensures e > 0 ==> s[e - 1] != '/'
    ensures forall k :: e <= k < |s| ==> s[k] == '/'
  {
    if s != [] && s[|s| - 1] == '/' then TrimmedEnd(s[..|s| - 1]) else |s|
  }

  /** `dir` and `base` of `used`, a key cut after its last non-slash
      character; `start` is 1 for an absolute key and 0 otherwise. */
  function PartsOf(used: string, start: nat): (p: PosixParts)
    requires start <= |used|
    requires |used| > start ==> used[|used| - 1] != '/'
    ensures '/' !in p.base
    ensures p.base == "" <==> |used| == start
  {
    var root := if start == 1 then "/" else "";
    if |used| == start then PosixParts(root, "")
    else
      match LastIndexOf(used[start..], '/')
      case Some(j) =>
        assert used[start + j + 1..] == used[start..][j + 1..];
        assert used[|used| - 1] == used[start..][|used| - start - 1];
        PosixParts(used[..start + j], used[start + j + 1..])
      case None =>
        PosixParts(root, used[start..])
  }

  /** POSIX `path.parse`: trailing slashes are ignored, `base` is the last
      non-empty segment, `dir` is everything before the slash that precedes
      it (`/` for a top-level absolute path, empty for a bare name). */
  function PosixParse(key: string): (p: PosixParts)
    ensures '/' !in p.base
    ensures p.base == "" <==> forall k :: 0 <= k < |key| ==> key[k] == '/'
  {
    var start := if |key| > 0 && key[0] == '/' then 1 else 0;
    var body := key[start..];
    var e := TrimmedEnd(body);
    var used := key[..start + e];
    assert e > 0 ==> used[|used| - 1] == body[e - 1];
    assert (e == 0) == (forall k :: 0 <= k < |key| ==> key[k] == '/') by {
      if e > 0 {
        assert key[start + e - 1] == body[e - 1];
      } else {
        assert forall k :: start <= k < |key| ==> key[k] == body[k - start];
      }
    }
    PartsOf(used, start)
  }

  /** A relative directory, a slash and a file name. */
  lemma PosixParseJoined(dir: string, name: string)
    requires dir != "" && dir[0] != '/'
    requires name != "" && '/' !in name
    ensures PosixParse(dir + "/" + name) == PosixParts(dir, name)
  {
    var key := dir + "/" + name;
    assert key[0] == dir[0];
    assert key[0..] == key;
    assert key[|key| - 1] == name[|name| - 1];
    assert name[|name| - 1] in name;
    assert TrimmedEnd(key) == |key|;
    assert key[..|key|] == key;
    LastIndexOfJoin(dir, '/', name);
    assert key[..|dir|] == dir;
    assert key[|dir| + 1..] == name;
  }

  /** `parseFilePath`: `dir` split on `/` with empty segments dropped, and `base`. */
  function ParseFilePath(key: string): (r: FilePath)
    ensures forall f :: f in r.folders ==> f != "" && '/' !in f
    ensures '/' !in r.fileName
  {
    var p := PosixParse(key);
    FilePath(Filter(Split(p.dir, '/'), NonEmpty), p.base)
  }

  /** A key without a slash is a bare file name in no folder. */
  lemma ParseBareName(key: string)
    requires '/' !in key
    ensures ParseFilePath(key) == FilePath([], key)
  {
    assert key != [] ==> key[|key| - 1] in key;
    assert key[0..] == key;
    assert Split("", '/') == [""];
  }

  /** The file name of a key that does not end in a slash is the text after
      its last slash. */
  lemma ParseFileNameAfterLastSlash(head: string, name: string)
    requires name != "" && '/' !in name
    ensures ParseFilePath(head + "/" + name).fileName == name
  {
    var key := head + "/" + name;
    if head != [] && head[0] != '/' {
      PosixParseJoined(head, name);
    } else {
      assert key[0] == '/';
      assert key[|key| - 1] == name[|name| - 1] && name[|name| - 1] in name;
      PosixParseNoTrailing(key);
      if head == [] {
        assert key[1..] == name;
        PartsOfNoSlash(key, 1);
      } else {
        assert key[|head|] == '/' && key[|head| + 1..] == name;
        PartsOfAfterSlash(key, 1, |head|);
      }
    }
  }

  lemma PosixParseNoTrailing(key: string)
    requires key != [] && key[|key| - 1] != '/'
    ensures PosixParse(key) == PartsOf(key, if key[0] == '/' then 1 else 0)
  {
    var start := if key[0] == '/' then 1 else 0;
    var body := key[start..];
    assert body[|body| - 1] == key[|key| - 1];
    assert TrimmedEnd(body) == |body|;
    assert key[..start + |body|] == key;
  }

  lemma PartsOfNoSlash(used: string, start: nat)
    requires start < |used| && used[|used| - 1] != '/'
    requires '/' !in used[start..]
    ensures PartsOf(used, start).base == used[start..]
  {
    assert LastIndexOf(used[start..], '/') == None;
  }

  lemma PartsOfAfterSlash(used: string, start: nat, k: nat)
    requires start <= k < |used| - 1 && used[|used| - 1] != '/'
    requires used[k] == '/' && '/' !in used[k + 1..]
    ensures PartsOf(used, start).base == used[k + 1..]
  {
    var body := used[start..];
    forall m | k - start < m < |body| ensures body[m] != '/' {
      assert body[m] == used[k + 1..][m - (k - start) - 1];
    }
    LastIndexOfAt(body, '/', k - start);
  }

  /** Trailing slashes do not change the result. */
  lemma ParseIgnoresTrailingSlash(key: string)
    ensures ParseFilePath(key + "/") == ParseFilePath(key)
  {
    if key == [] {
      assert Split("", '/') == [""];
      assert Split("/", '/') == ["", ""] by {
        assert "/"[1..] == "";
      }
    } else {
      PosixParseTrailingSlash(key);
    }
  }

  lemma PosixParseTrailingSlash(key: string)
    requires key != []
    ensures PosixParse(key + "/") == PosixParse(key)
  {
    var k2 := key + "/";
    var start := if key[0] == '/' then 1 else 0;
    assert k2[0] == key[0];
    assert k2[start..] == key[start..] + "/";
    TrimmedEndSlash(key[start..]);
    var e := TrimmedEnd(key[start..]);
    assert TrimmedEnd(k2[start..]) == e;
    assert k2[..start + e] == key[..start + e];
  }

  lemma TrimmedEndSlash(s: string)
    ensures TrimmedEnd(s + "/") == TrimmedEnd(s)
  {
    assert (s + "/")[..|s|] == s;
  }

  /** Folders joined with `/`, a slash and a file name parse back to those
      folders and that name. */
  lemma ParseJoinedPath(folders: seq<string>, name: string)
    requires |folders| >= 1
    requires forall k :: 0 <= k < |folders| ==> folders[k] != "" && '/' !in folders[k]
    requires name != "" && '/' !in name
    ensures ParseFilePath(Join(folders, '/') + "/" + name) == FilePath(folders, name)
  {
    var dir := Join(folders, '/');
    SplitJoin(folders, '/');
    assert IsPrefix(folders[0], dir);
    PosixParseJoined(dir, name);
    FilterKeepsAll(folders, NonEmpty);
  }
}
