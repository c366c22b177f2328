/** The name-based archive helpers of `utils/file.ts` (`isMultipart`,
    `selectPrimary`, `detectMultipartMissing`) and the read-modify-save
    update of the persisted group list (`updateItemInFinalFiles`). */
module FileUtils {
  import opened Seqs
  import opened Text
  import opened Types

  // ---------------------------------------------------------------------
  // Volume numbers
  // ---------------------------------------------------------------------

  /** `parseInt(d, 10)` of a string of ASCII digits. */
  function DigitsValue(d: string): (v: nat)
    requires AllDigits(d)
    ensures |d| == 0 ==> v == 0
  {
    if d == [] then 0
    else DigitsValue(d[..|d| - 1]) * 10 + (d[|d| - 1] as int - '0' as int)
  }

  /** `/\.part(\d+)\.rar$/i`: the number of a `.partN.rar` volume. */
  function PartNumber(n: string): Option<nat>
  {
    match DotSplit(n)
    case None => None
    case Some((head, tail)) =>
      if Lower(tail) != "rar" then None
      else
        match DotSplit(head)
        case None => None
        case Some((_, tag)) => if IsPartTag(tag) then Some(DigitsValue(Lower(tag)[4..])) else None
  }

  /** `/\.(7z|zip|rar)\.(\d{3,})$/i`: the number of a `.7z.001`-style volume. */
  function SplitNumber(n: string): Option<nat>
  {
    match DotSplit(n)
    case None => None
    case Some((head, tail)) =>
      if |tail| >= 3 && AllDigits(tail) then
        match DotSplit(head)
        case None => None
        case Some((_, ext)) => if IsContainerExt(ext) then Some(DigitsValue(tail)) else None
      else None
  }

  /** `/\.[rz](\d{2})$/i`: the number of a `.r00` / `.z01` volume. */
  function RzNumber(n: string): Option<nat>
  {
    match DotSplit(n)
    case None => None
    case Some((_, tail)) => if IsRzTag(tail) then Some(DigitsValue(Lower(tail)[1..])) else None
  }

  /** The numbers `f` finds in `names`, in order (`map` then `filter`). */
  function Collect(names: seq<string>, f: string -> Option<nat>): (r: seq<nat>)
    ensures forall x :: x in r <==> exists i :: 0 <= i < |names| && f(names[i]) == Some(x)
    ensures r == [] <==> forall i :: 0 <= i < |names| ==> f(names[i]).None?
  {
    if names == [] then []
    else
      var rest := Collect(names[1..], f);
      assert forall i :: 1 <= i < |names| ==> names[i] == names[1..][i - 1];
      match f(names[0])
      case Some(x) => [x] + rest
      case None => rest
  }

  /** `Math.max(...nums)`. */
  function Max(nums: seq<nat>): (m: nat)
    requires nums != []
    ensures m in nums
    ensures forall k :: 0 <= k < |nums| ==> nums[k] <= m
  {
    if |nums| == 1 then nums[0]
    else
      var m := Max(nums[1..]);
      assert forall k :: 1 <= k < |nums| ==> nums[k] == nums[1..][k - 1];
      if nums[0] >= m then nums[0] else m
  }

  // ---------------------------------------------------------------------
  // isMultipart
  // ---------------------------------------------------------------------

  /** A name carrying any volume indicator. */
  predicate IsVolumeName(n: string) {
    SplitNumber(n).Some? || PartNumber(n).Some? || RzNumber(n).Some?
  }

  /** `isMultipart`: some name carries a volume indicator. */
  predicate IsMultipart(names: seq<string>) {
    exists i :: 0 <= i < |names| && IsVolumeName(names[i])
  }

  // ---------------------------------------------------------------------
  // detectMultipartMissing
  // ---------------------------------------------------------------------

  datatype Scheme = RarPartStyle | SevenZipStyle | RStyle

  datatype MultipartReport = MultipartReport(scheme: Option<Scheme>, missingNumbers: seq<nat>)

  /** The numbers `lo..hi` that are not in `nums`, ascending. */
  function Gaps(nums: seq<nat>, lo: nat, hi: int): seq<nat>
    decreases hi - lo + 1
  {
    if hi < lo then [] else Gaps(nums, lo, hi - 1) + (if hi in nums then [] else [hi])
  }

  predicate StrictlyAscending(xs: seq<nat>) {
    forall i, j :: 0 <= i < j < |xs| ==> xs[i] < xs[j]
  }

  /** The gaps are ascending and are exactly the absent numbers of the range. */
  lemma {:induction false} GapsSpec(nums: seq<nat>, lo: nat, hi: int)
    ensures StrictlyAscending(Gaps(nums, lo, hi))
    ensures forall k :: k in Gaps(nums, lo, hi) <==> lo <= k <= hi && k !in nums
    decreases hi - lo + 1
  {
    if hi >= lo {
      GapsSpec(nums, lo, hi - 1);
      var g := Gaps(nums, lo, hi - 1);
      assert forall i :: 0 <= i < |g| ==> g[i] in g ==> g[i] < hi;
    }
  }

  /** No gaps means every number of the range is present. */
  lemma NoGapsIffContiguous(nums: seq<nat>, lo: nat, hi: int)
    ensures Gaps(nums, lo, hi) == [] <==> forall k :: lo <= k <= hi ==> k in nums
  {
    GapsSpec(nums, lo, hi);
    if Gaps(nums, lo, hi) != [] {
      assert Gaps(nums, lo, hi)[0] in Gaps(nums, lo, hi);
    }
  }

  /** The `for` loop of `detectMultipartMissing`: the numbers from `lo` to
      the largest of `nums` that `nums` lacks. */
  method MissingNumbers(nums: seq<nat>, lo: nat) returns (missing: seq<nat>)
    requires nums != []
    ensures missing == Gaps(nums, lo, Max(nums))
  {
    var max := Max(nums);
    var present := set k | k in nums;
    missing := [];
    var i := lo;
    while i <= max
      invariant lo <= i <= if max + 1 < lo then lo else max + 1
      invariant missing == Gaps(nums, lo, i - 1)
    {
      if i !in present {
        missing := missing + [i];
      }
      i := i + 1;
    }
  }

  /** What `detectMultipartMissing` returns: the first scheme any name
      follows (`.partN.rar`, then `.7z.001`, then `.rNN`) and the volume
      numbers absent from 1 (0 for `.rNN`) up to the largest one present. */
  function MultipartMissing(names: seq<string>): MultipartReport
  {
    var parts := Collect(names, PartNumber);
    var splits := Collect(names, SplitNumber);
    var rz := Collect(names, RzNumber);
    if parts != [] then MultipartReport(Some(RarPartStyle), Gaps(parts, 1, Max(parts)))
    else if splits != [] then MultipartReport(Some(SevenZipStyle), Gaps(splits, 1, Max(splits)))
    else if rz != [] then MultipartReport(Some(RStyle), Gaps(rz, 0, Max(rz)))
    else MultipartReport(None, [])
  }

  method DetectMultipartMissing(names: seq<string>) returns (r: MultipartReport)
    ensures r == MultipartMissing(names)
  {
    var parts := Collect(names, PartNumber);
    if parts != [] {
      var missing := MissingNumbers(parts, 1);
      return MultipartReport(Some(RarPartStyle), missing);
    }
    var splits := Collect(names, SplitNumber);
    if splits != [] {
      var missing := MissingNumbers(splits, 1);
      return MultipartReport(Some(SevenZipStyle), missing);
    }
    var rz := Collect(names, RzNumber);
    if rz != [] {
      var missing := MissingNumbers(rz, 0);
      return MultipartReport(Some(RStyle), missing);
    }
    return MultipartReport(None, []);
  }

  /** The scheme is the first one any name follows; no scheme, no missing numbers. */
  lemma SchemePrecedence(names: seq<string>)
    ensures var r := MultipartMissing(names);
      && (r.scheme == Some(RarPartStyle) <==> exists i :: 0 <= i < |names| && PartNumber(names[i]).Some?)
      && (r.scheme == Some(SevenZipStyle) <==>
            (forall i :: 0 <= i < |names| ==> PartNumber(names[i]).None?)
            && exists i :: 0 <= i < |names| && SplitNumber(names[i]).Some?)
      && (r.scheme == None <==> forall i :: 0 <= i < |names| ==> !IsVolumeName(names[i]))
      && (r.scheme == None ==> r.missingNumbers == [])
  {
  }

  /** The volume-number pattern of a scheme. */
  function SchemeNumber(scheme: Scheme): string -> Option<nat> {
    match scheme
    case RarPartStyle => PartNumber
    case SevenZipStyle => SplitNumber
    case RStyle => RzNumber
  }

  /** The first volume number of a scheme: 0 for `.r00`, 1 otherwise. */
  function SchemeStart(scheme: Scheme): nat {
    if scheme == RStyle then 0 else 1
  }

  /** A number is reported missing exactly when it lies between the first
      number of the scheme and the largest volume number present, and no
      name carries it; the report is ascending. */
  lemma MissingAreAbsentVolumes(names: seq<string>)
    ensures var r := MultipartMissing(names);
      && StrictlyAscending(r.missingNumbers)
      && (r.scheme.Some? ==>
            var f := SchemeNumber(r.scheme.value);
            var nums := Collect(names, f);
            nums != [] &&
            forall k :: k in r.missingNumbers <==>
              SchemeStart(r.scheme.value) <= k <= Max(nums) && !exists i :: 0 <= i < |names| && f(names[i]) == Some(k))
  {
    var r := MultipartMissing(names);
    if r.scheme.Some? {
      var f := SchemeNumber(r.scheme.value);
      var nums := Collect(names, f);
      SchemeReport(names);
      GapsSpec(nums, SchemeStart(r.scheme.value), Max(nums));
    }
  }

  /** The report of a scheme lists the gaps of that scheme's volume numbers. */
  lemma SchemeReport(names: seq<string>)
    ensures var r := MultipartMissing(names);
      r.scheme.None? ==> r.missingNumbers == []
    ensures var r := MultipartMissing(names);
      r.scheme.Some? ==>
        var nums := Collect(names, SchemeNumber(r.scheme.value));
        nums != [] && r.missingNumbers == Gaps(nums, SchemeStart(r.scheme.value), Max(nums))
  {
  }

  /** `isMultipart` recognises exactly the names for which
      `detectMultipartMissing` finds a scheme. */
  lemma MultipartIffScheme(names: seq<string>)
    ensures IsMultipart(names) <==> MultipartMissing(names).scheme.Some?
  {
    SchemePrecedence(names);
  }

  // ---------------------------------------------------------------------
  // selectPrimary
  // ---------------------------------------------------------------------

  /** `0*1`. */
  predicate IsOneWithZeros(d: string) {
    |d| >= 1 && d[|d| - 1] == '1' && forall k :: 0 <= k < |d| - 1 ==> d[k] == '0'
  }

  /** `/\.part0*1\.rar$/i`. */
  predicate IsFirstPartRar(n: string) {
    match DotSplit(n)
    case None => false
    case Some((head, tail)) =>
      Lower(tail) == "rar" &&
      match DotSplit(head)
      case None => false
      case Some((_, tag)) =>
        var l := Lower(tag);
        |l| > 4 && l[..4] == "part" && IsOneWithZeros(l[4..])
  }

  /** `/\.rar$/i`. */
  predicate IsRarName(n: string) {
    match DotSplit(n)
    case None => false
    case Some((_, tail)) => Lower(tail) == "rar"
  }

  /** `/\.(7z|zip)\.0*1$/i`. */
  predicate IsFirstSplitVolume(n: string) {
    match DotSplit(n)
    case None => false
    case Some((head, tail)) =>
      IsOneWithZeros(tail) &&
      match DotSplit(head)
      case None => false
      case Some((_, ext)) => Lower(ext) == "7z" || Lower(ext) == "zip"
  }

  /** `names.find(p)`. */
  function FindFirst(names: seq<string>, p: string -> bool): (r: Option<string>)
    ensures r.None? <==> forall i :: 0 <= i < |names| ==> !p(names[i])
    ensures r.Some? ==>
      exists i :: 0 <= i < |names| && names[i] == r.value && p(names[i]) && forall j :: 0 <= j < i ==> !p(names[j])
  {
    if names == [] then None
    else if p(names[0]) then Some(names[0])
    else
      var r := FindFirst(names[1..], p);
      assert forall i :: 1 <= i < |names| ==> names[i] == names[1..][i - 1];
      r
  }

  /** Code-point order, standing in for `localeCompare`. */
  predicate StrLeq(a: string, b: string) {
    a == [] || (b != [] && (a[0] < b[0] || (a[0] == b[0] && StrLeq(a[1..], b[1..]))))
  }

  lemma {:induction false} StrLeqRefl(a: string)
    ensures StrLeq(a, a)
  {
    if a != [] {
      StrLeqRefl(a[1..]);
    }
  }

  lemma {:induction false} StrLeqTotal(a: string, b: string)
    ensures StrLeq(a, b) || StrLeq(b, a)
  {
    if a != [] && b != [] && a[0] == b[0] {
      StrLeqTotal(a[1..], b[1..]);
    }
  }

  lemma {:induction false} StrLeqTrans(a: string, b: string, c: string)
    requires StrLeq(a, b) && StrLeq(b, c)
    ensures StrLeq(a, c)
  {
    if a != [] && b != [] && c != [] && a[0] == b[0] == c[0] {
      StrLeqTrans(a[1..], b[1..], c[1..]);
    }
  }

  /** `names.slice().sort((a, b) => a.localeCompare(b))[0]`: the least name. */
  function Least(names: seq<string>): (r: string)
    requires names != []
    ensures r in names
    ensures forall i :: 0 <= i < |names| ==> StrLeq(r, names[i])
  {
    if |names| == 1 then StrLeqRefl(names[0]); names[0]
    else
      var m := Least(names[1..]);
      assert forall i :: 1 <= i < |names| ==> names[i] == names[1..][i - 1];
      assert forall i :: 1 <= i < |names| ==> StrLeq(m, names[i]);
      StrLeqRefl(names[0]);
      StrLeqTotal(names[0], m);
      forall i | 1 <= i < |names| ensures StrLeq(names[0], m) ==> StrLeq(names[0], names[i]) {
        if StrLeq(names[0], m) {
          StrLeqTrans(names[0], m, names[i]);
        }
      }
      if StrLeq(names[0], m) then names[0] else m
  }

  /** `selectPrimary`: the first `.part0*1.rar`, else the first `.rar`, else
      the first `.7z`/`.zip` first volume, else the least name; None for an
      empty list (where the source yields `undefined`). */
  function SelectPrimary(names: seq<string>): (r: Option<string>)
    ensures r.None? <==> names == []
    ensures r.Some? ==> r.value in names
  {
    match FindFirst(names, IsFirstPartRar)
    case Some(n) => Some(n)
    case None =>
      match FindFirst(names, IsRarName)
      case Some(n) => Some(n)
      case None =>
        match FindFirst(names, IsFirstSplitVolume)
        case Some(n) => Some(n)
        case None => if names == [] then None else Some(Least(names))
  }

  /** `n` is the first name of `names`, in list order, satisfying `p`. */
  predicate FirstOfKind(names: seq<string>, n: string, p: string -> bool) {
    exists i :: 0 <= i < |names| && names[i] == n && p(n) && forall j :: 0 <= j < i ==> !p(names[j])
  }

  /** The priority of `selectPrimary`: the first `.part0*1.rar` in list
      order; failing that the first `.rar`; failing that the first
      `.(7z|zip).0*1`; failing all three the least name. */
  lemma SelectPrimaryPriority(names: seq<string>)
    ensures var r := SelectPrimary(names);
      (exists i :: 0 <= i < |names| && IsFirstPartRar(names[i])) ==>
        FirstOfKind(names, r.value, IsFirstPartRar)
    ensures var r := SelectPrimary(names);
      (forall i :: 0 <= i < |names| ==> !IsFirstPartRar(names[i])) &&
      (exists i :: 0 <= i < |names| && IsRarName(names[i])) ==>
        FirstOfKind(names, r.value, IsRarName)
    ensures var r := SelectPrimary(names);
      (forall i :: 0 <= i < |names| ==> !IsFirstPartRar(names[i]) && !IsRarName(names[i])) &&
      (exists i :: 0 <= i < |names| && IsFirstSplitVolume(names[i])) ==>
        FirstOfKind(names, r.value, IsFirstSplitVolume)
    ensures var r := SelectPrimary(names);
      names != [] &&
      (forall i :: 0 <= i < |names| ==>
        !IsFirstPartRar(names[i]) && !IsRarName(names[i]) && !IsFirstSplitVolume(names[i])) ==>
        forall i :: 0 <= i < |names| ==> StrLeq(r.value, names[i])
  {
  }

  /** `a.part1.rar` is a first part volume. */
  lemma APart1RarIsFirstPart()
    ensures IsFirstPartRar("a.part1.rar") && PartNumber("a.part1.rar").Some?
  {
    APart1RarSplits();
    assert Lower("rar") == "rar";
    assert Lower("part1") == "part1";
    assert "part1"[..4] == "part" && "part1"[4..] == "1";
    assert IsPartTag("part1");
  }

  /** The dot splits of `a.part1.rar`. */
  lemma APart1RarSplits()
    ensures DotSplit("a.part1.rar") == Some(("a.part1", "rar"))
    ensures DotSplit("a.part1") == Some(("a", "part1"))
  {
    assert "a.part1" + "." + "rar" == "a.part1.rar";
    assert "a" + "." + "part1" == "a.part1";
    DotSplitOf("a.part1", "rar");
    DotSplitOf("a", "part1");
  }

  /** `a.rar` carries no volume indicator. */
  lemma ARarIsNoVolume()
    ensures !IsVolumeName("a.rar")
  {
    assert "a" + "." + "rar" == "a.rar";
    DotSplitOf("a", "rar");
    assert DotSplit("a") == None;
    assert Lower("rar") == "rar";
    assert !AllDigits("rar");
  }

  /** `["a.part1.rar", "a.part2.rar"]` selects `a.part1.rar`. */
  lemma SelectPrimaryPartExample()
    ensures SelectPrimary(["a.part1.rar", "a.part2.rar"]) == Some("a.part1.rar")
  {
    APart1RarIsFirstPart();
  }

  /** `isMultipart(["a.rar"])` is false and
      `isMultipart(["a.part1.rar", "a.part2.rar"])` is true. */
  lemma IsMultipartExamples()
    ensures !IsMultipart(["a.rar"])
    ensures IsMultipart(["a.part1.rar", "a.part2.rar"])
  {
    ARarIsNoVolume();
    APart1RarIsFirstPart();
    var l: seq<string> := ["a.rar"];
    assert forall i :: 0 <= i < |l| ==> l[i] == "a.rar";
    var m: seq<string> := ["a.part1.rar", "a.part2.rar"];
    assert IsVolumeName(m[0]);
  }

  /** A first `.partN.rar` volume is itself a `.rar` name, so the second
      preference never overrides the first. */
  lemma FirstPartRarIsRar(n: string)
    requires IsFirstPartRar(n)
    ensures IsRarName(n) && PartNumber(n).Some?
  {
    var (head, tail) := DotSplit(n).value;
    var (_, tag) := DotSplit(head).value;
    OneWithZerosIsDigits(Lower(tag)[4..]);
  }

  lemma OneWithZerosIsDigits(d: string)
    requires IsOneWithZeros(d)
    ensures AllDigits(d)
  {
  }

  // ---------------------------------------------------------------------
  // updateItemInFinalFiles
  // ---------------------------------------------------------------------

  function UpdateItem(it: FileItem, match_: FileItem -> bool, updater: FileItem -> FileItem): FileItem {
    if match_(it) then updater(it) else it
  }

  function UpdateItems(items: seq<FileItem>, match_: FileItem -> bool, updater: FileItem -> FileItem): seq<FileItem> {
    seq(|items|, j requires 0 <= j < |items| => UpdateItem(items[j], match_, updater))
  }

  /** Every group with every matching item replaced by its update. */
  function UpdateFiles(files: seq<File>, match_: FileItem -> bool, updater: FileItem -> FileItem): seq<File> {
    seq(|files|, i requires 0 <= i < |files| => files[i].(items := UpdateItems(files[i].items, match_, updater)))
  }

  predicate AnyItemMatches(files: seq<File>, match_: FileItem -> bool) {
    exists i, j :: 0 <= i < |files| && 0 <= j < |files[i].items| && match_(files[i].items[j])
  }

  /** When no item matches, the update changes nothing. */
  lemma UpdateFilesNoMatch(files: seq<File>, match_: FileItem -> bool, updater: FileItem -> FileItem)
    requires !AnyItemMatches(files, match_)
    ensures UpdateFiles(files, match_, updater) == files
  {
    forall i | 0 <= i < |files| ensures UpdateItems(files[i].items, match_, updater) == files[i].items {
      assert forall j :: 0 <= j < |files[i].items| ==> !match_(files[i].items[j]);
    }
  }

  /** The update keeps every group's platform, game and item count, replaces
      each matching item by its update and keeps every other item. */
  lemma UpdateFilesShape(files: seq<File>, match_: FileItem -> bool, updater: FileItem -> FileItem)
    ensures var r := UpdateFiles(files, match_, updater);
      && |r| == |files|
      && (forall i :: 0 <= i < |files| ==>
            r[i].platform == files[i].platform && r[i].gameId == files[i].gameId
            && |r[i].items| == |files[i].items|
            && forall j :: 0 <= j < |files[i].items| ==>
                 r[i].items[j] == (if match_(files[i].items[j]) then updater(files[i].items[j]) else files[i].items[j]))
  {
  }

  /** The persisted `final_files.json`: the group list and how many times it has been written. */
  class FinalFilesStore {
    var files: seq<File>
    var writes: nat

    constructor(files: seq<File>)
      ensures this.files == files && writes == 0
    {
      this.files := files;
      writes := 0;
    }

    /** `updateItemInFinalFiles`: read the list, apply `updater` to every
        item `match_` accepts, and save the list only if some item matched. */
    method UpdateItemInFinalFiles(match_: FileItem -> bool, updater: FileItem -> FileItem)
      modifies this
      ensures files == UpdateFiles(old(files), match_, updater)
      ensures writes == if AnyItemMatches(old(files), match_) then old(writes) + 1 else old(writes)
    {
      var fs := files;
      var changed := false;
      var result: seq<File> := [];
      var i := 0;
      while i < |fs|
        invariant 0 <= i <= |fs|
        invariant |result| == i
        invariant forall k :: 0 <= k < i ==> result[k] == fs[k].(items := UpdateItems(fs[k].items, match_, updater))
        invariant changed <==> exists k, j :: 0 <= k < i && 0 <= j < |fs[k].items| && match_(fs[k].items[j])
      {
        var f := fs[i];
        var items: seq<FileItem> := [];
        var j := 0;
        while j < |f.items|
          invariant 0 <= j <= |f.items|
          invariant |items| == j
          invariant forall m :: 0 <= m < j ==> items[m] == UpdateItem(f.items[m], match_, updater)
          invariant changed <==>
            (exists k, m :: 0 <= k < i && 0 <= m < |fs[k].items| && match_(fs[k].items[m]))
            || exists m :: 0 <= m < j && match_(f.items[m])
        {
          var it := f.items[j];
          if match_(it) {
            it := updater(it);
            changed := true;
          }
          items := items + [it];
          j := j + 1;
        }
        assert items == UpdateItems(f.items, match_, updater);
        result := result + [f.(items := items)];
        i := i + 1;
      }
      if changed {
        files := result;
        writes := writes + 1;
      } else {
        UpdateFilesNoMatch(fs, match_, updater);
      }
    }
  }
}
