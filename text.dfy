/** Filename and title normalisation: full-width folding, archive-suffix
    stripping, `normalize`, Latin token and CJK bigram extraction, and the
    multi-volume grouping key.

    Strings are sequences of Unicode code points. Every code point the
    source inspects lies in the Basic Multilingual Plane, where a code point
    and a UTF-16 code unit coincide. */
module Text {
  import opened Seqs

  const FullwidthStart := 65281
  const FullwidthEnd := 65374
  const FullwidthOffset := 65248
  const IdeographicSpace := 12288

  // ---------------------------------------------------------------------
  // Character classes
  // ---------------------------------------------------------------------

  predicate IsFullWidth(c: char) {
    c as int == IdeographicSpace || FullwidthStart <= c as int <= FullwidthEnd
  }

  predicate IsAsciiUpper(c: char) { 'A' <= c <= 'Z' }

  predicate IsDigit(c: char) { '0' <= c <= '9' }

  predicate AllDigits(t: string) {
    forall i :: 0 <= i < |t| ==> IsDigit(t[i])
  }

  /** The characters of the regular-expression class `\s` (and of `trim`). */
  predicate IsSpace(c: char) {
    var n := c as int;
    (9 <= n <= 13) || n == 32 || n == 160 || n == 5760 || (8192 <= n <= 8202)
    || n == 8232 || n == 8233 || n == 8239 || n == 8287 || n == 12288 || n == 65279
  }

  predicate IsBracket(c: char) {
    c == '[' || c == ']' || c == '{' || c == '}' || c == '(' || c == ')'
  }

  predicate IsSeparator(c: char) { c == '.' || c == '_' || c == '-' }

  /** `[a-z0-9]`, the characters of a Latin token. */
  predicate IsTokenChar(c: char) { 'a' <= c <= 'z' || '0' <= c <= '9' }

  /** The ranges of `hasCjk`: kana, CJK extension A, CJK unified ideographs
      and half-width katakana. */
  predicate IsCjk(c: char) {
    var n := c as int;
    (0x3040 <= n <= 0x30ff) || (0x3400 <= n <= 0x4dbf) || (0x4e00 <= n <= 0x9fff) || (0xff66 <= n <= 0xff9f)
  }

  predicate CharsSatisfy(s: string, p: char -> bool) {
    forall i :: 0 <= i < |s| ==> p(s[i])
  }

  // ---------------------------------------------------------------------
  // toHalfWidth
  // ---------------------------------------------------------------------

  function HalfWidthChar(c: char): (h: char)
    ensures !IsFullWidth(h)
    ensures !IsFullWidth(c) ==> h == c
  {
    if c as int == IdeographicSpace then ' '
    else if FullwidthStart <= c as int <= FullwidthEnd then (c as int - FullwidthOffset) as char
    else c
  }

  /** The string `toHalfWidth` builds, one character at a time. */
  function HalfWidth(s: string): (r: string)
    ensures |r| == |s|
    ensures forall i {:trigger r[i]} :: 0 <= i < |s| ==> r[i] == HalfWidthChar(s[i])
  {
    seq(|s|, i requires 0 <= i < |s| => HalfWidthChar(s[i]))
  }

  /** `toHalfWidth`: the ideographic space becomes a space, the full-width
      forms U+FF01..U+FF5E move down to ASCII, everything else is kept. */
  method ToHalfWidth(input: string) returns (out: string)
    ensures |out| == |input|
    ensures forall i :: 0 <= i < |input| ==>
      out[i] as int == (if input[i] as int == IdeographicSpace then 32
                        else if FullwidthStart <= input[i] as int <= FullwidthEnd then input[i] as int - FullwidthOffset
                        else input[i] as int)
    ensures !exists i :: 0 <= i < |out| && IsFullWidth(out[i])
    ensures out == HalfWidth(input)
  {
    out := "";
    var i := 0;
    while i < |input|
      invariant 0 <= i <= |input|
      invariant |out| == i
      invariant forall k :: 0 <= k < i ==> out[k] == HalfWidthChar(input[k])
    {
      var code := input[i] as int;
      if code == IdeographicSpace {
        out := out + [32 as char];
      } else if FullwidthStart <= code <= FullwidthEnd {
        out := out + [(code - FullwidthOffset) as char];
      } else {
        out := out + [input[i]];
      }
      i := i + 1;
    }
  }

  /** Folding twice is folding once: the output holds nothing left to fold. */
  lemma HalfWidthIdempotent(s: string)
    ensures HalfWidth(HalfWidth(s)) == HalfWidth(s)
  {
    var h := HalfWidth(s);
    assert forall i :: 0 <= i < |h| ==> HalfWidth(h)[i] == h[i];
  }

  // ---------------------------------------------------------------------
  // toLowerCase (ASCII letters only)
  // ---------------------------------------------------------------------

  function LowerChar(c: char): (l: char)
    ensures !IsAsciiUpper(l)
    ensures !IsAsciiUpper(c) ==> l == c
  {
    if IsAsciiUpper(c) then (c as int + 32) as char else c
  }

  function Lower(s: string): (r: string)
    ensures |r| == |s|
    ensures forall i {:trigger r[i]} :: 0 <= i < |s| ==> r[i] == LowerChar(s[i])
  {
    seq(|s|, i requires 0 <= i < |s| => LowerChar(s[i]))
  }

  /** `toHalfWidth(s).toLowerCase()`: the first step of both `normalize` and `archiveGroupKey`. */
  function Fold(s: string): (r: string)
    ensures |r| == |s|
    ensures forall i :: 0 <= i < |r| ==> !IsAsciiUpper(r[i]) && !IsFullWidth(r[i])
  {
    var r := Lower(HalfWidth(s));
    assert forall i :: 0 <= i < |r| ==> !IsFullWidth(r[i]) by {
      forall i | 0 <= i < |r| ensures !IsFullWidth(r[i]) {
        assert r[i] == LowerChar(HalfWidthChar(s[i]));
      }
    }
    r
  }

  lemma FoldAppend(a: string, b: string)
    ensures Fold(a + b) == Fold(a) + Fold(b)
  {
    assert forall i :: 0 <= i < |a + b| ==> Fold(a + b)[i] == (Fold(a) + Fold(b))[i] by {
      forall i | 0 <= i < |a + b| ensures Fold(a + b)[i] == (Fold(a) + Fold(b))[i] {
        if i < |a| {
          assert (a + b)[i] == a[i];
        } else {
          assert (a + b)[i] == b[i - |a|];
        }
      }
    }
  }

  /** Text with no ASCII upper-case letter and no full-width form is left alone. */
  lemma FoldFixes(s: string)
    requires forall i :: 0 <= i < |s| ==> !IsAsciiUpper(s[i]) && !IsFullWidth(s[i])
    ensures Fold(s) == s
  {
    assert forall i :: 0 <= i < |s| ==> Fold(s)[i] == s[i];
  }

  // ---------------------------------------------------------------------
  // Dot suffixes. Every suffix pattern of the source is anchored at the end
  // and ends in a dot-free tail, so its match starts at the last dot.
  // ---------------------------------------------------------------------

  /** The text before and after the last dot. */
  function DotSplit(s: string): (r: Option<(string, string)>)
    ensures r.None? <==> '.' !in s
    ensures r.Some? ==> |r.value.0| < |s| && s[|r.value.0|] == '.' && '.' !in r.value.1
  {
    match LastIndexOf(s, '.')
    case None => None
    case Some(i) =>
      assert s == s[..i] + "." + s[i + 1..];
      Some((s[..i], s[i + 1..]))
  }

  /** A name with a dot is its head, the dot and its tail. */
  lemma DotSplitParts(s: string)
    requires DotSplit(s).Some?
    ensures s == DotSplit(s).value.0 + "." + DotSplit(s).value.1
  {
  }

  lemma DotSplitOf(head: string, tail: string)
    requires '.' !in tail
    ensures DotSplit(head + "." + tail) == Some((head, tail))
  {
    LastIndexOfJoin(head, '.', tail);
    var s := head + "." + tail;
    assert s[..|head|] == head;
    assert s[|head| + 1..] == tail;
  }

  lemma DigitsHaveNoDot(t: string)
    requires AllDigits(t)
    ensures '.' !in t
  {
    assert forall k :: 0 <= k < |t| ==> t[k] != '.';
  }

  /** `zip`, `rar` or `7z`, compared case-insensitively. */
  predicate IsContainerExt(t: string) {
    var l := Lower(t);
    l == "zip" || l == "rar" || l == "7z"
  }

  /** `part[0-9]+`, case-insensitively. */
  predicate IsPartTag(t: string) {
    var l := Lower(t);
    |l| > 4 && l[..4] == "part" && AllDigits(l[4..])
  }

  /** `[rz][0-9]{2}`, case-insensitively. */
  predicate IsRzTag(t: string) {
    var l := Lower(t);
    |l| == 3 && (l[0] == 'r' || l[0] == 'z') && AllDigits(l[1..])
  }

  /** `part[0-9]+`, `r[0-9]{2}`, `z[0-9]{2}` or `[0-9]{3,}`, case-insensitively. */
  predicate IsVolumeTag(t: string) {
    IsPartTag(t) || IsRzTag(t) || (|t| >= 3 && AllDigits(Lower(t)))
  }

  /** Where `/\.(zip|rar|7z)(?:\.[0-9]+)?$/i` starts matching in `s`, if it matches. */
  function ContainerSuffixAt(s: string): (r: Option<nat>)
    ensures r.Some? ==> r.value < |s| && s[r.value] == '.'
  {
    match DotSplit(s)
    case None => None
    case Some((head, tail)) =>
      if IsContainerExt(tail) then Some(|head|)
      else if |tail| > 0 && AllDigits(tail) then
        match DotSplit(head)
        case None => None
        case Some((head2, ext)) => if IsContainerExt(ext) then Some(|head2|) else None
      else None
  }

  /** Where `/\.(part[0-9]+|r[0-9]{2}|z[0-9]{2}|[0-9]{3,})$/i` starts matching in `s`, if it matches. */
  function VolumeTagAt(s: string): (r: Option<nat>)
    ensures r.Some? ==> r.value < |s| && s[r.value] == '.'
  {
    match DotSplit(s)
    case None => None
    case Some((head, tail)) => if IsVolumeTag(tail) then Some(|head|) else None
  }

  /** `stripArchiveSuffix`: drop a container extension (with an optional
      numeric volume), then a volume tag. */
  function StripArchiveSuffix(name: string): (r: string)
    ensures IsPrefix(r, name)
  {
    var noContainer := match ContainerSuffixAt(name) case Some(i) => name[..i] case None => name;
    match VolumeTagAt(noContainer)
    case Some(i) => noContainer[..i]
    case None => noContainer
  }

  /** A name without a dot has no suffix to strip. */
  lemma StripArchiveSuffixNoDot(name: string)
    requires '.' !in name
    ensures StripArchiveSuffix(name) == name
  {
  }

  lemma LowerFixes(s: string)
    requires forall i :: 0 <= i < |s| ==> !IsAsciiUpper(s[i])
    ensures Lower(s) == s
  {
    assert forall i :: 0 <= i < |s| ==> Lower(s)[i] == s[i];
  }

  /** The three container extensions, written in lower case. */
  predicate IsLowerContainerExt(ext: string) { ext == "7z" || ext == "zip" || ext == "rar" }

  lemma ContainerExtFacts(ext: string)
    requires IsLowerContainerExt(ext)
    ensures Fold(ext) == ext && Lower(ext) == ext && IsContainerExt(ext) && '.' !in ext
    ensures !AllDigits(ext) && !IsVolumeTag(ext)
  {
    FoldFixes(ext);
    LowerFixes(ext);
    assert !IsDigit(ext[1]);
    assert |ext| == 3 ==> ext[1..][0] == ext[1];
  }

  lemma DigitsFacts(d: string)
    requires AllDigits(d)
    ensures Fold(d) == d && Lower(d) == d && '.' !in d
    ensures !IsContainerExt(d)
  {
    FoldFixes(d);
    LowerFixes(d);
    DigitsHaveNoDot(d);
    assert |d| >= 2 ==> IsDigit(d[1]);
    assert !IsDigit("zip"[1]) && !IsDigit("rar"[1]) && !IsDigit("7z"[1]);
  }

  /** The tag `part` followed by a volume number. */
  lemma PartTagFacts(num: string)
    requires |num| > 0 && AllDigits(num)
    ensures var tag := "part" + num;
      Fold(tag) == tag && Lower(tag) == tag && '.' !in tag && IsPartTag(tag) && IsVolumeTag(tag)
      && !IsContainerExt(tag) && !AllDigits(tag)
  {
    var tag := "part" + num;
    DigitsFacts(num);
    assert forall k :: 0 <= k < |tag| ==> tag[k] == if k < 4 then "part"[k] else num[k - 4];
    FoldFixes(tag);
    LowerFixes(tag);
    assert tag[..4] == "part" && tag[4..] == num;
    assert !IsDigit(tag[0]);
  }

  /** The tag `r` or `z` followed by a two-digit volume number. */
  lemma RzTagFacts(letter: char, vol: string)
    requires (letter == 'r' || letter == 'z') && |vol| == 2 && AllDigits(vol)
    ensures var tag := [letter] + vol;
      Fold(tag) == tag && Lower(tag) == tag && '.' !in tag && IsRzTag(tag) && IsVolumeTag(tag)
      && !IsContainerExt(tag) && !AllDigits(tag) && !IsPartTag(tag)
  {
    var tag := [letter] + vol;
    DigitsFacts(vol);
    assert forall k :: 0 <= k < |tag| ==> tag[k] == if k < 1 then letter else vol[k - 1];
    FoldFixes(tag);
    LowerFixes(tag);
    assert tag[1..] == vol;
    assert !IsDigit(tag[0]) && IsDigit(tag[1]);
    assert !IsDigit("zip"[1]) && !IsDigit("rar"[1]) && !IsDigit("7z"[1]);
  }

  /** `x.7z.001` (and every split volume of a `.7z`, `.zip` or `.rar`) strips
      to `x`, unless `x` itself ends in a volume tag, which goes too. */
  lemma StripSplitVolume(x: string, ext: string, vol: string)
    requires VolumeTagAt(x).None? && IsLowerContainerExt(ext) && |vol| >= 3 && AllDigits(vol)
    ensures StripArchiveSuffix(x + "." + ext + "." + vol) == x
  {
    ContainerExtFacts(ext);
    DigitsFacts(vol);
    var s := x + "." + ext + "." + vol;
    DotSplitOf(x + "." + ext, vol);
    DotSplitOf(x, ext);
    assert ContainerSuffixAt(s) == Some(|x|);
    assert s[..|x|] == x;
  }

  /** `x.zip` (and `x.rar`, `x.7z`) strips to `x`, unless `x` itself ends in
      a volume tag, which goes too. */
  lemma StripContainerExt(x: string, ext: string)
    requires VolumeTagAt(x).None? && IsLowerContainerExt(ext)
    ensures StripArchiveSuffix(x + "." + ext) == x
  {
    ContainerExtFacts(ext);
    var s := x + "." + ext;
    DotSplitOf(x, ext);
    assert ContainerSuffixAt(s) == Some(|x|);
    assert s[..|x|] == x;
  }

  /** `x.part1.rar` (any volume number, any container) strips to `x`,
      whatever `x` is. */
  lemma StripPartVolume(x: string, num: string, ext: string)
    requires |num| > 0 && AllDigits(num) && IsLowerContainerExt(ext)
    ensures StripArchiveSuffix(x + ".part" + num + "." + ext) == x
  {
    ContainerExtFacts(ext);
    PartTagFacts(num);
    var tag := "part" + num;
    var s := x + ".part" + num + "." + ext;
    assert s == (x + "." + tag) + "." + ext;
    DotSplitOf(x + "." + tag, ext);
    assert ContainerSuffixAt(s) == Some(|x + "." + tag|);
    assert s[..|x + "." + tag|] == x + "." + tag;
    DotSplitOf(x, tag);
    assert VolumeTagAt(x + "." + tag) == Some(|x|);
    assert (x + "." + tag)[..|x|] == x;
  }

  /** `x.r00` (any `r`/`z` volume) strips to `x`, whatever `x` is. */
  lemma StripRzVolume(x: string, letter: char, vol: string)
    requires (letter == 'r' || letter == 'z') && |vol| == 2 && AllDigits(vol)
    ensures StripArchiveSuffix(x + "." + [letter] + vol) == x
  {
    RzTagFacts(letter, vol);
    var tag := [letter] + vol;
    var s := x + "." + [letter] + vol;
    assert s == x + "." + tag;
    DotSplitOf(x, tag);
    assert ContainerSuffixAt(s) == None;
    assert VolumeTagAt(s) == Some(|x|);
    assert s[..|x|] == x;
  }

  // ---------------------------------------------------------------------
  // normalize
  // ---------------------------------------------------------------------

  function ReplaceBrackets(s: string): (r: string)
    ensures |r| == |s|
    ensures forall i {:trigger r[i]} :: 0 <= i < |s| ==> r[i] == (if IsBracket(s[i]) then ' ' else s[i])
  {
    seq(|s|, i requires 0 <= i < |s| => if IsBracket(s[i]) then ' ' else s[i])
  }

  /** `s.replace(/P+/g, ' ')` for the character class `p`: every maximal run
      of `p` characters becomes one space. `inRun` says that the character
      before `s` was part of a run that has already been replaced. */
  function CollapseRuns(s: string, p: char -> bool, inRun: bool): (r: string)
    ensures |r| <= |s|
    ensures forall i :: 0 <= i < |r| ==> r[i] == ' ' || (r[i] in s && !p(r[i]))
    decreases |s|
  {
    if s == [] then []
    else if p(s[0]) then
      if inRun then CollapseRuns(s[1..], p, true) else [' '] + CollapseRuns(s[1..], p, true)
    else
      var rest := CollapseRuns(s[1..], p, false);
      assert forall i :: 0 <= i < |rest| ==> rest[i] in s[1..] ==> rest[i] in s;
      [s[0]] + rest
  }

  /** The characters a run replacement for `p` neither removes nor writes. */
  function KeptBy(p: char -> bool): char -> bool {
    c => !p(c) && c != ' '
  }

  /** Every character outside the class, other than a space, survives the
      replacement, and in its original order. */
  lemma {:induction false} CollapseRunsKeepsOthers(s: string, p: char -> bool, inRun: bool)
    ensures Filter(CollapseRuns(s, p, inRun), KeptBy(p)) == Filter(s, KeptBy(p))
    decreases |s|
  {
    if s != [] {
      var r := CollapseRuns(s, p, inRun);
      var rest := CollapseRuns(s[1..], p, p(s[0]));
      CollapseRunsKeepsOthers(s[1..], p, p(s[0]));
      if p(s[0]) && !inRun {
        assert r == [' '] + rest;
        assert r[1..] == rest;
      } else if !p(s[0]) {
        assert r == [s[0]] + rest;
        assert r[1..] == rest;
      }
    }
  }

  /** The piece the replacement writes for character `c`. */
  function HeadPiece(c: char, p: char -> bool, inRun: bool): string {
    if p(c) then (if inRun then "" else " ") else [c]
  }

  /** One step of the replacement, at the first character. */
  lemma CollapseRunsCons(c: char, t: string, p: char -> bool, inRun: bool)
    ensures CollapseRuns([c] + t, p, inRun) == HeadPiece(c, p, inRun) + CollapseRuns(t, p, p(c))
  {
    assert ([c] + t)[0] == c && ([c] + t)[1..] == t;
  }

  /** The replacement works piece by piece: the second piece starts inside
      a run when the first ends with a character of the class. */
  lemma {:induction false} CollapseRunsAppend(a: string, b: string, p: char -> bool, inRun: bool)
    ensures CollapseRuns(a + b, p, inRun)
      == CollapseRuns(a, p, inRun) + CollapseRuns(b, p, if a == [] then inRun else p(a[|a| - 1]))
    decreases |a|
  {
    if a == [] {
      assert a + b == b;
    } else {
      var c, t := a[0], a[1..];
      var flag := p(a[|a| - 1]);
      assert a == [c] + t;
      ConcatAssoc([c], t, b);
      assert (if t == [] then p(c) else p(t[|t| - 1])) == flag;
      var h := HeadPiece(c, p, inRun);
      calc {
        CollapseRuns([c] + (t + b), p, inRun);
        { CollapseRunsCons(c, t + b, p, inRun); }
        h + CollapseRuns(t + b, p, p(c));
        { CollapseRunsAppend(t, b, p, p(c)); }
        h + (CollapseRuns(t, p, p(c)) + CollapseRuns(b, p, flag));
        { ConcatAssoc(h, CollapseRuns(t, p, p(c)), CollapseRuns(b, p, flag)); }
        (h + CollapseRuns(t, p, p(c))) + CollapseRuns(b, p, flag);
        { CollapseRunsCons(c, t, p, inRun); }
        CollapseRuns([c] + t, p, inRun) + CollapseRuns(b, p, flag);
      }
    }
  }

  /** A whole run of class characters becomes one space, or nothing when it
      continues a run already replaced. */
  lemma {:induction false} CollapseRunsOfRun(run: string, p: char -> bool, inRun: bool)
    requires run != [] && forall k :: 0 <= k < |run| ==> p(run[k])
    ensures CollapseRuns(run, p, inRun) == if inRun then [] else " "
    decreases |run|
  {
    if |run| > 1 {
      CollapseRunsOfRun(run[1..], p, true);
    }
  }

  /** Where a maximal run of class characters stood, the result has exactly
      one space, between the replacements of the text on either side. */
  lemma CollapseRunsMaximalRun(a: string, run: string, b: string, p: char -> bool)
    requires a == [] || !p(a[|a| - 1])
    requires run != [] && forall k :: 0 <= k < |run| ==> p(run[k])
    requires b == [] || !p(b[0])
    ensures CollapseRuns(a + run + b, p, false)
      == CollapseRuns(a, p, false) + " " + CollapseRuns(b, p, false)
  {
    ConcatAssoc(a, run, b);
    assert (if a == [] then false else p(a[|a| - 1])) == false;
    CollapseRunsAppend(a, run + b, p, false);
    CollapseRunsRunFirst(run, b, p);
    ConcatAssoc(CollapseRuns(a, p, false), " ", CollapseRuns(b, p, false));
  }

  lemma CollapseRunsRunFirst(run: string, b: string, p: char -> bool)
    requires run != [] && forall k :: 0 <= k < |run| ==> p(run[k])
    requires b == [] || !p(b[0])
    ensures CollapseRuns(run + b, p, false) == " " + CollapseRuns(b, p, false)
  {
    assert p(run[|run| - 1]);
    CollapseRunsAppend(run, b, p, false);
    CollapseRunsOfRun(run, p, false);
    CollapseRunsOutsideRun(b, p);
  }

  /** Text that starts outside the class is replaced alike whether or not
      a run came just before it. */
  lemma CollapseRunsOutsideRun(b: string, p: char -> bool)
    requires b == [] || !p(b[0])
    ensures CollapseRuns(b, p, true) == CollapseRuns(b, p, false)
  {
    if b != [] {
      assert b == [b[0]] + b[1..];
      CollapseRunsCons(b[0], b[1..], p, true);
      CollapseRunsCons(b[0], b[1..], p, false);
    }
  }

  predicate NoAdjacent(s: string, p: char -> bool) {
    forall i :: 0 < i < |s| ==> !(p(s[i - 1]) && p(s[i]))
  }

  /** The first index at or after `i` whose character is not white space. */
  function SkipSpaces(s: string, i: nat): (k: nat)
    requires i <= |s|
    ensures i <= k <= |s|
    ensures forall j :: i <= j < k ==> IsSpace(s[j])
    ensures k < |s| ==> !IsSpace(s[k])
    decreases |s| - i
  {
    if i < |s| && IsSpace(s[i]) then SkipSpaces(s, i + 1) else i
  }

  /** The end of `s[lo..e]` once its trailing white space is dropped. */
  function SkipSpacesBack(s: string, lo: nat, e: nat): (k: nat)
    requires lo <= e <= |s|
    ensures lo <= k <= e
    ensures forall j :: k <= j < e ==> IsSpace(s[j])
    ensures k > lo ==> !IsSpace(s[k - 1])
    decreases e
  {
    if e > lo && IsSpace(s[e - 1]) then SkipSpacesBack(s, lo, e - 1) else e
  }

  /** `trim`: the longest infix with no white space at either end that
      drops only white space. */
  function Trim(s: string): (r: string)
    ensures |r| > 0 ==> !IsSpace(r[0]) && !IsSpace(r[|r| - 1])
    ensures exists i, j ::
              && 0 <= i <= j <= |s| && r == s[i..j]
              && (forall k :: 0 <= k < i ==> IsSpace(s[k]))
              && (forall k :: j <= k < |s| ==> IsSpace(s[k]))
  {
    var b := SkipSpaces(s, 0);
    var e := SkipSpacesBack(s, b, |s|);
    s[b..e]
  }

  /** The first three stages of `normalize`: fold to half width and lower
      case, strip the archive suffix, turn brackets into spaces. */
  function Unbracketed(input: string): string {
    ReplaceBrackets(StripArchiveSuffix(Fold(input)))
  }

  /** The next two stages: each run of `. _ -` becomes one space, then each
      run of white space becomes one space. */
  function SpacesCollapsed(s: string): string {
    CollapseRuns(CollapseRuns(s, IsSeparator, false), IsSpace, false)
  }

  /** `normalize`: the stages above, then trim. */
  function Normalize(input: string): string {
    Trim(SpacesCollapsed(Unbracketed(input)))
  }

  /** A character `normalize` can leave in its output. */
  predicate NormalChar(c: char) {
    !IsAsciiUpper(c) && !IsFullWidth(c) && !IsBracket(c) && !IsSeparator(c) && (IsSpace(c) ==> c == ' ')
  }

  /** The shape of every `normalize` result: no upper-case ASCII, no
      full-width form, none of `. _ - [ ] { } ( )`, only plain spaces as
      white space, never two in a row, none at either end. */
  predicate IsNormalized(s: string) {
    && CharsSatisfy(s, NormalChar)
    && NoAdjacent(s, IsSpace)
    && (|s| > 0 ==> s[0] != ' ' && s[|s| - 1] != ' ')
  }

  lemma {:induction false} CollapseSpacesNoAdjacent(s: string, inRun: bool)
    ensures NoAdjacent(CollapseRuns(s, IsSpace, inRun), IsSpace)
    ensures inRun && |CollapseRuns(s, IsSpace, inRun)| > 0 ==> !IsSpace(CollapseRuns(s, IsSpace, inRun)[0])
    decreases |s|
  {
    if s != [] {
      var r := CollapseRuns(s, IsSpace, inRun);
      if IsSpace(s[0]) {
        CollapseSpacesNoAdjacent(s[1..], true);
        var rest := CollapseRuns(s[1..], IsSpace, true);
        if !inRun {
          assert r == [' '] + rest;
          assert forall i :: 0 <= i < |rest| ==> r[i + 1] == rest[i];
        }
      } else {
        CollapseSpacesNoAdjacent(s[1..], false);
        var rest := CollapseRuns(s[1..], IsSpace, false);
        assert r == [s[0]] + rest;
        assert forall i :: 0 <= i < |rest| ==> r[i + 1] == rest[i];
      }
    }
  }

  /** Text already in collapsed form is left alone by the run replacement. */
  lemma {:induction false} CollapseRunsFixes(s: string, p: char -> bool, inRun: bool)
    requires forall i :: 0 <= i < |s| ==> p(s[i]) ==> s[i] == ' '
    requires NoAdjacent(s, p)
    requires inRun && |s| > 0 ==> !p(s[0])
    ensures CollapseRuns(s, p, inRun) == s
    decreases |s|
  {
    if s != [] {
      assert forall i :: 0 < i < |s[1..]| ==> s[1..][i - 1] == s[i] && s[1..][i] == s[i + 1];
      if p(s[0]) {
        assert |s| > 1 ==> !p(s[1]);
        CollapseRunsFixes(s[1..], p, true);
        assert s == [' '] + s[1..];
      } else {
        CollapseRunsFixes(s[1..], p, false);
        assert s == [s[0]] + s[1..];
      }
    }
  }

  lemma TrimFixes(s: string)
    requires |s| > 0 ==> !IsSpace(s[0]) && !IsSpace(s[|s| - 1])
    ensures Trim(s) == s
  {
  }

  /** Characters that survive the bracket replacement. */
  predicate UnbracketedChar(c: char) { !IsAsciiUpper(c) && !IsFullWidth(c) && !IsBracket(c) }

  /** Characters that survive the separator collapse. */
  predicate UnseparatedChar(c: char) { UnbracketedChar(c) && !IsSeparator(c) }

  lemma UnbracketedStage(input: string)
    ensures CharsSatisfy(Unbracketed(input), UnbracketedChar)
  {
    var half := Fold(input);
    var noExt := StripArchiveSuffix(half);
    assert forall i :: 0 <= i < |noExt| ==> noExt[i] == half[i];
  }

  lemma UnseparatedStage(s: string)
    requires CharsSatisfy(s, UnbracketedChar)
    ensures CharsSatisfy(CollapseRuns(s, IsSeparator, false), UnseparatedChar)
  {
    var r := CollapseRuns(s, IsSeparator, false);
    forall i | 0 <= i < |r| ensures UnseparatedChar(r[i]) {
      if r[i] != ' ' {
        var j :| 0 <= j < |s| && s[j] == r[i];
      }
    }
  }

  lemma SpaceStage(s: string)
    requires CharsSatisfy(s, UnseparatedChar)
    ensures CharsSatisfy(CollapseRuns(s, IsSpace, false), NormalChar)
    ensures NoAdjacent(CollapseRuns(s, IsSpace, false), IsSpace)
  {
    var r := CollapseRuns(s, IsSpace, false);
    forall i | 0 <= i < |r| ensures NormalChar(r[i]) {
      if r[i] != ' ' {
        var j :| 0 <= j < |s| && s[j] == r[i];
      }
    }
    CollapseSpacesNoAdjacent(s, false);
  }

  lemma TrimStage(s: string)
    requires CharsSatisfy(s, NormalChar) && NoAdjacent(s, IsSpace)
    ensures IsNormalized(Trim(s))
  {
    var r := Trim(s);
    var off := SkipSpaces(s, 0);
    assert forall i :: 0 <= i < |r| ==> r[i] == s[off + i];
    assert CharsSatisfy(r, NormalChar);
  }

  /** Every result of `normalize` has the normalised shape. */
  lemma NormalizeIsNormalized(input: string)
    ensures IsNormalized(Normalize(input))
  {
    var noBrackets := Unbracketed(input);
    UnbracketedStage(input);
    UnseparatedStage(noBrackets);
    var separated := CollapseRuns(noBrackets, IsSeparator, false);
    SpaceStage(separated);
    TrimStage(CollapseRuns(separated, IsSpace, false));
  }

  /** `normalize` leaves an already normalised string unchanged. */
  lemma NormalizeFixesNormalized(s: string)
    requires IsNormalized(s)
    ensures Normalize(s) == s
  {
    FoldFixes(s);
    assert forall k :: 0 <= k < |s| ==> s[k] != '.';
    StripArchiveSuffixNoDot(s);
    assert ReplaceBrackets(s) == s;
    CollapseRunsFixes(s, IsSeparator, false);
    CollapseRunsFixes(s, IsSpace, false);
    assert SpacesCollapsed(s) == s;
    TrimFixes(s);
  }

  /** `normalize(normalize(x)) == normalize(x)`. */
  lemma NormalizeIdempotent(x: string)
    ensures Normalize(Normalize(x)) == Normalize(x)
  {
    NormalizeIsNormalized(x);
    NormalizeFixesNormalized(Normalize(x));
  }

  // ---------------------------------------------------------------------
  // hasCjk, extractLatinTokens, extractCjkBigrams
  // ---------------------------------------------------------------------

  predicate HasCjk(s: string) {
    exists i :: 0 <= i < |s| && IsCjk(s[i])
  }

  /** Length of the longest prefix of `[a-z0-9]` characters. */
  function TokenPrefixLen(s: string): (n: nat)
    ensures n <= |s|
    ensures forall i :: 0 <= i < n ==> IsTokenChar(s[i])
    ensures n < |s| ==> !IsTokenChar(s[n])
  {
    if s == [] || !IsTokenChar(s[0]) then 0 else 1 + TokenPrefixLen(s[1..])
  }

  /** `s.match(/[a-z0-9]+/g) || []`: the maximal runs of token characters, left to right. */
  function TokenRuns(s: string): seq<string>
    decreases |s|
  {
    if s == [] then []
    else if !IsTokenChar(s[0]) then TokenRuns(s[1..])
    else
      var n := TokenPrefixLen(s);
      [s[..n]] + TokenRuns(s[n..])
  }

  /** The filter `t.length >= 2`. */
  predicate LongToken(t: string) { |t| >= 2 }

  /** `extractLatinTokens`: the distinct runs of length at least 2, in order of first occurrence. */
  function ExtractLatinTokens(s: string): seq<string>
  {
    Dedup(Filter(TokenRuns(s), LongToken))
  }

  /** `t` occurs at position `i` of `s` as a maximal run of token characters. */
  predicate IsMaximalRunAt(s: string, i: int, t: string) {
    && 0 <= i && i + |t| <= |s| && |t| > 0
    && s[i..i + |t|] == t
    && (forall k :: 0 <= k < |t| ==> IsTokenChar(t[k]))
    && (i == 0 || !IsTokenChar(s[i - 1]))
    && (i + |t| == |s| || !IsTokenChar(s[i + |t|]))
  }

  lemma {:induction false} TokenRunsSound(s: string, t: string) returns (i: int)
    requires t in TokenRuns(s)
    ensures IsMaximalRunAt(s, i, t)
    decreases |s|
  {
    if !IsTokenChar(s[0]) {
      assert TokenRuns(s) == TokenRuns(s[1..]);
      var j := TokenRunsSound(s[1..], t);
      MaximalRunShift(s, 1, j, t);
      i := j + 1;
    } else {
      var n := TokenPrefixLen(s);
      assert TokenRuns(s) == [s[..n]] + TokenRuns(s[n..]);
      if t == s[..n] {
        MaximalRunAtHead(s);
        i := 0;
      } else {
        assert t in TokenRuns(s[n..]);
        var j := TokenRunsSound(s[n..], t);
        MaximalRunAfterHead(s, j, t);
        i := n + j;
      }
    }
  }

  /** A string that starts with a token character starts with a maximal run. */
  lemma MaximalRunAtHead(s: string)
    requires s != [] && IsTokenChar(s[0])
    ensures IsMaximalRunAt(s, 0, s[..TokenPrefixLen(s)])
  {
    var n := TokenPrefixLen(s);
    assert forall k :: 0 <= k < n ==> s[..n][k] == s[k];
  }

  /** A maximal run of what follows the leading run is a maximal run of the
      whole string. */
  lemma MaximalRunAfterHead(s: string, j: int, t: string)
    requires s != [] && IsTokenChar(s[0])
    requires IsMaximalRunAt(s[TokenPrefixLen(s)..], j, t)
    ensures IsMaximalRunAt(s, TokenPrefixLen(s) + j, t)
  {
    var n := TokenPrefixLen(s);
    assert s[n..][j] == t[0];
    MaximalRunShift(s, n, j, t);
  }

  /** A maximal run of a suffix is a maximal run of the whole string, unless
      it starts the suffix right after a token character. */
  lemma MaximalRunShift(s: string, n: nat, j: int, t: string)
    requires n <= |s| && IsMaximalRunAt(s[n..], j, t)
    requires j == 0 ==> n == 0 || !IsTokenChar(s[n - 1])
    ensures IsMaximalRunAt(s, n + j, t)
  {
    assert s[n..][j..j + |t|] == s[n + j..n + j + |t|];
    assert n + j + |t| < |s| ==> s[n + j + |t|] == s[n..][j + |t|];
    assert j > 0 ==> s[n + j - 1] == s[n..][j - 1];
  }

  lemma {:induction false} TokenRunsComplete(s: string, i: int, t: string)
    requires IsMaximalRunAt(s, i, t)
    ensures t in TokenRuns(s)
    decreases |s|
  {
    assert s[i] == t[0];
    if !IsTokenChar(s[0]) {
      assert i > 0;
      assert s[1..][i - 1..i - 1 + |t|] == s[i..i + |t|];
      assert i + |t| < |s| ==> s[1..][i - 1 + |t|] == s[i + |t|];
      assert i - 1 > 0 ==> s[1..][i - 2] == s[i - 1];
      TokenRunsComplete(s[1..], i - 1, t);
    } else {
      var n := TokenPrefixLen(s);
      if i == 0 {
        assert forall k :: 0 <= k < |t| ==> s[k] == t[k];
        assert t == s[..n];
      } else {
        assert i > n;
        var j := i - n;
        assert s[n..][j..j + |t|] == s[i..i + |t|];
        assert j + |t| < |s[n..]| ==> s[n..][j + |t|] == s[i + |t|];
        assert s[n..][j - 1] == s[i - 1];
        TokenRunsComplete(s[n..], j, t);
      }
    }
  }

  /** A maximal run of `s` at or after `n` is a maximal run of `s[n..]`. */
  lemma MaximalRunUnshift(s: string, n: nat, q: int, u: string)
    requires n <= q && IsMaximalRunAt(s, q, u)
    ensures IsMaximalRunAt(s[n..], q - n, u)
  {
    assert s[n..][q - n..q - n + |u|] == s[q..q + |u|];
    assert q + |u| < |s| ==> s[n..][q - n + |u|] == s[q + |u|];
    assert q - n > 0 ==> s[n..][q - n - 1] == s[q - 1];
  }

  /** In a string that starts with a token character, the only maximal run
      at 0 is the leading run, and every other one starts after it. */
  lemma MaximalRunAtStart(s: string, q: int, u: string)
    requires s != [] && IsTokenChar(s[0]) && IsMaximalRunAt(s, q, u)
    ensures q == 0 ==> u == s[..TokenPrefixLen(s)]
    ensures q != 0 ==> q > TokenPrefixLen(s)
  {
    var n := TokenPrefixLen(s);
    assert s[q] == u[0];
    if q == 0 {
      assert forall k :: 0 <= k < |u| ==> s[k] == u[k];
      assert |u| == n;
    }
  }

  /** `t` occurs as a maximal run before every occurrence of `u`. */
  predicate RunBefore(s: string, t: string, u: string) {
    exists p :: 0 <= p < |s| && IsMaximalRunAt(s, p, t) &&
      forall q :: 0 <= q < |s| && IsMaximalRunAt(s, q, u) ==> p < q
  }

  /** An order of runs in a suffix `s[n..]` holds in `s` when `u` has no
      maximal run starting before `n`. */
  lemma RunBeforeShift(s: string, n: nat, t: string, u: string)
    requires 0 < n < |s| && RunBefore(s[n..], t, u)
    requires !IsTokenChar(s[n - 1]) || !IsTokenChar(s[n])
    requires forall q :: 0 <= q < n ==> !IsMaximalRunAt(s, q, u)
    ensures RunBefore(s, t, u)
  {
    var p :| 0 <= p < |s[n..]| && IsMaximalRunAt(s[n..], p, t)
      && forall q :: 0 <= q < |s[n..]| && IsMaximalRunAt(s[n..], q, u) ==> p < q;
    assert s[n..][p] == t[0];
    MaximalRunShift(s, n, p, t);
    forall q | 0 <= q < |s| && IsMaximalRunAt(s, q, u)
      ensures n + p < q
    {
      MaximalRunUnshift(s, n, q, u);
    }
  }

  /** The scan lists the runs left to right: a run listed first before
      another occurs in the string before every occurrence of the other. */
  lemma {:induction false} TokenRunsOrder(s: string, t: string, u: string)
    requires t in TokenRuns(s) && u in TokenRuns(s)
    requires FirstIndex(TokenRuns(s), t) < FirstIndex(TokenRuns(s), u)
    ensures RunBefore(s, t, u)
    decreases |s|
  {
    if !IsTokenChar(s[0]) {
      TokenRunsOrder(s[1..], t, u);
      RunBeforeShift(s, 1, t, u);
    } else {
      var n := TokenPrefixLen(s);
      var xs := TokenRuns(s);
      var rest := TokenRuns(s[n..]);
      assert xs == [s[..n]] + rest;
      if t == s[..n] {
        MaximalRunAtHead(s);
        forall q | 0 <= q < |s| && IsMaximalRunAt(s, q, u)
          ensures 0 < q
        {
          MaximalRunAtStart(s, q, u);
        }
      } else {
        assert u != s[..n];
        assert xs[1..] == rest;
        TokenRunsOrder(s[n..], t, u);
        forall q | 0 <= q < n ensures !IsMaximalRunAt(s, q, u) {
          if IsMaximalRunAt(s, q, u) {
            MaximalRunAtStart(s, q, u);
          }
        }
        RunBeforeShift(s, n, t, u);
      }
    }
  }

  /** `extractLatinTokens(s)` holds exactly the maximal `[a-z0-9]` runs of
      length at least 2, each once, in the order in which they first occur. */
  lemma LatinTokensAreMaximalRuns(s: string)
    ensures Distinct(ExtractLatinTokens(s))
    ensures forall t :: t in ExtractLatinTokens(s) <==> |t| >= 2 && exists i :: IsMaximalRunAt(s, i, t)
    ensures var toks := ExtractLatinTokens(s);
      forall i, j :: 0 <= i < j < |toks| ==> RunBefore(s, toks[i], toks[j])
  {
    forall t ensures t in ExtractLatinTokens(s) <==> |t| >= 2 && exists i :: IsMaximalRunAt(s, i, t) {
      if t in ExtractLatinTokens(s) {
        var i := TokenRunsSound(s, t);
      }
      if |t| >= 2 && exists i :: IsMaximalRunAt(s, i, t) {
        var i :| IsMaximalRunAt(s, i, t);
        TokenRunsComplete(s, i, t);
      }
    }
    var toks := ExtractLatinTokens(s);
    var long := Filter(TokenRuns(s), LongToken);
    forall i, j | 0 <= i < j < |toks|
      ensures RunBefore(s, toks[i], toks[j])
    {
      DedupKeepsFirstOccurrenceOrder(long, i, j);
      FilterKeepsFirstOccurrenceOrder(TokenRuns(s), LongToken, toks[i], toks[j]);
      TokenRunsOrder(s, toks[i], toks[j]);
    }
  }

  /** The CJK characters of `s`, in order (`Array.from(s).filter(...)`). */
  function CjkChars(s: string): (r: string)
    ensures forall c :: c in r <==> c in s && IsCjk(c)
  {
    Filter(s, IsCjk)
  }

  /** Consecutive pairs of `cs`. */
  function Pairs(cs: string): (r: seq<string>)
    ensures |cs| < 2 ==> r == []
    ensures |cs| >= 2 ==> |r| == |cs| - 1
  {
    if |cs| < 2 then [] else seq(|cs| - 1, i requires 0 <= i < |cs| - 1 => [cs[i], cs[i + 1]])
  }

  /** The result of `extractCjkBigrams`. */
  function CjkBigrams(s: string): seq<string>
  {
    Dedup(Pairs(CjkChars(s)))
  }

  /** `extractCjkBigrams`: pairs of consecutive characters of the CJK-only
      subsequence of `s` (other characters are skipped, not separators),
      each pair once. */
  method ExtractCjkBigrams(s: string) returns (r: seq<string>)
    ensures r == CjkBigrams(s)
  {
    var chars := CjkChars(s);
    var bigrams: seq<string> := [];
    var i := 0;
    while i < |chars| - 1
      invariant 0 <= i <= if |chars| < 1 then 0 else |chars| - 1
      invariant |bigrams| == i
      invariant forall k :: 0 <= k < i ==> bigrams[k] == [chars[k], chars[k + 1]]
    {
      bigrams := bigrams + [[chars[i], chars[i + 1]]];
      i := i + 1;
    }
    assert bigrams == Pairs(chars);
    r := Dedup(bigrams);
  }

  /** Every bigram is two CJK characters adjacent in the CJK-only
      subsequence, every such pair is present, none twice; there are none
      when fewer than two CJK characters occur. */
  lemma CjkBigramsSpec(s: string)
    ensures Distinct(CjkBigrams(s))
    ensures forall b :: b in CjkBigrams(s) <==>
      exists i :: 0 <= i < |CjkChars(s)| - 1 && b == [CjkChars(s)[i], CjkChars(s)[i + 1]]
    ensures forall b :: b in CjkBigrams(s) ==> |b| == 2 && IsCjk(b[0]) && IsCjk(b[1])
    ensures CjkBigrams(s) == [] <==> |CjkChars(s)| < 2
    ensures HasCjk(s) <==> |CjkChars(s)| > 0
  {
    var cs := CjkChars(s);
    var ps := Pairs(cs);
    forall b ensures b in CjkBigrams(s) <==> exists i :: 0 <= i < |cs| - 1 && b == [cs[i], cs[i + 1]] {
      if b in ps {
        var k :| 0 <= k < |ps| && ps[k] == b;
        assert b == [cs[k], cs[k + 1]];
      }
      if exists i :: 0 <= i < |cs| - 1 && b == [cs[i], cs[i + 1]] {
        var i :| 0 <= i < |cs| - 1 && b == [cs[i], cs[i + 1]];
        assert ps[i] == b;
      }
    }
    forall b | b in CjkBigrams(s) ensures |b| == 2 && IsCjk(b[0]) && IsCjk(b[1]) {
      var i :| 0 <= i < |cs| - 1 && b == [cs[i], cs[i + 1]];
      assert cs[i] in cs && cs[i + 1] in cs;
    }
    if |cs| >= 2 {
      assert ps[0] in CjkBigrams(s);
    }
    if HasCjk(s) {
      var i :| 0 <= i < |s| && IsCjk(s[i]);
      assert s[i] in cs;
    }
    if |cs| > 0 {
      assert cs[0] in s;
    }
  }

  // ---------------------------------------------------------------------
  // archiveGroupKey
  // ---------------------------------------------------------------------

  /** The three volume patterns of `archiveGroupKey`, in the order they are tried. */
  datatype GroupPattern =
    | SplitVolume  // `\.(7z|zip|rar)\.[0-9]{3,}$`, replaced by `.$1`
    | PartVolume   // `\.part[0-9]+\.(7z|zip|rar)$`, replaced by `.$1`
    | RzVolume     // `\.[rz][0-9]{2}$`, replaced by `.$1`; it has no group 1

  /** What `lower.replace(re, '.$1')` gives when `re` matches `lower`, or
      None when it does not. The `$1` of the third pattern refers to a group
      that does not exist, so it stays in the key literally. */
  function ApplyGroupPattern(p: GroupPattern, lower: string): Option<string>
  {
    match DotSplit(lower)
    case None => None
    case Some((head, tail)) =>
      match p
      case SplitVolume =>
        if |tail| >= 3 && AllDigits(tail) then
          match DotSplit(head)
          case None => None
          case Some((_, ext)) => if IsContainerExt(ext) then Some(head) else None
        else None
      case PartVolume =>
        if IsContainerExt(tail) then
          match DotSplit(head)
          case None => None
          case Some((head2, tag)) => if IsPartTag(tag) then Some(head2 + "." + tail) else None
        else None
      case RzVolume =>
        if IsRzTag(tail) then Some(head + ".$1") else None
  }

  /** The patterns of `archiveGroupKey`, in the order they are tried. */
  const GroupPatterns: seq<GroupPattern> := [SplitVolume, PartVolume, RzVolume]

  /** The replacement made by the first of `patterns` that matches `lower`,
      or `lower` itself when none matches. */
  function FirstGroupMatch(patterns: seq<GroupPattern>, lower: string): string
    decreases |patterns|
  {
    if patterns == [] then lower
    else
      match ApplyGroupPattern(patterns[0], lower)
      case Some(k) => k
      case None => FirstGroupMatch(patterns[1..], lower)
  }

  /** `archiveGroupKey`: the folded name with its volume suffix reduced by
      the first of the three patterns that matches; the folded name itself
      when none matches. */
  function ArchiveGroupKey(fileName: string): string
  {
    FirstGroupMatch(GroupPatterns, Fold(fileName))
  }

  /** `archiveGroupKey` as written: a loop over the patterns that returns
      on the first match. */
  method ComputeArchiveGroupKey(fileName: string) returns (key: string)
    ensures key == ArchiveGroupKey(fileName)
  {
    var half := ToHalfWidth(fileName);
    var lower := Lower(half);
    var i := 0;
    while i < |GroupPatterns|
      invariant 0 <= i <= |GroupPatterns|
      invariant FirstGroupMatch(GroupPatterns, lower) == FirstGroupMatch(GroupPatterns[i..], lower)
    {
      var replaced := ApplyGroupPattern(GroupPatterns[i], lower);
      if replaced.Some? {
        return replaced.value;
      }
      assert GroupPatterns[i..][1..] == GroupPatterns[i + 1..];
      i := i + 1;
    }
    assert GroupPatterns[i..] == [];
    return lower;
  }

  /** The three patterns, tried one after the other on the folded name
      `lower`: the first that matches gives the key. */
  lemma ArchiveGroupKeySpelledOut(fileName: string, lower: string)
    requires lower == Fold(fileName)
    ensures var split := ApplyGroupPattern(SplitVolume, lower);
      split.Some? ==> ArchiveGroupKey(fileName) == split.value
    ensures var split := ApplyGroupPattern(SplitVolume, lower);
      var part := ApplyGroupPattern(PartVolume, lower);
      split.None? && part.Some? ==> ArchiveGroupKey(fileName) == part.value
    ensures var split := ApplyGroupPattern(SplitVolume, lower);
      var part := ApplyGroupPattern(PartVolume, lower);
      var rz := ApplyGroupPattern(RzVolume, lower);
      split.None? && part.None? ==> ArchiveGroupKey(fileName) == if rz.Some? then rz.value else lower
  {
    assert GroupPatterns[1..] == [PartVolume, RzVolume];
    assert GroupPatterns[1..][1..] == [RzVolume];
    assert GroupPatterns[1..][1..][1..] == [];
    assert FirstGroupMatch([], lower) == lower;
  }

  lemma FoldDotJoin(a: string, b: string)
    ensures Fold(a + "." + b) == Fold(a) + "." + Fold(b)
  {
    FoldAppend(a + ".", b);
    FoldAppend(a, ".");
    FoldFixes(".");
  }

  /** `n.7z.001`, `n.7z.002`, ... share the key `n.7z` (folded), and likewise for `.zip` and `.rar`. */
  lemma SplitVolumeKey(n: string, ext: string, vol: string)
    requires IsLowerContainerExt(ext) && |vol| >= 3 && AllDigits(vol)
    ensures ArchiveGroupKey(n + "." + ext + "." + vol) == Fold(n) + "." + ext
  {
    ContainerExtFacts(ext);
    DigitsFacts(vol);
    FoldDotJoin(n + "." + ext, vol);
    FoldDotJoin(n, ext);
    var lower := Fold(n) + "." + ext + "." + vol;
    ArchiveGroupKeySpelledOut(n + "." + ext + "." + vol, lower);
    DotSplitOf(Fold(n) + "." + ext, vol);
    DotSplitOf(Fold(n), ext);
    assert ApplyGroupPattern(SplitVolume, lower) == Some(Fold(n) + "." + ext);
  }

  /** `n.part1.rar`, `n.part2.rar`, ... share the key `n.rar` (folded), and likewise for `.7z` and `.zip`. */
  lemma PartVolumeKey(n: string, num: string, ext: string)
    requires IsLowerContainerExt(ext) && |num| > 0 && AllDigits(num)
    ensures ArchiveGroupKey(n + ".part" + num + "." + ext) == Fold(n) + "." + ext
  {
    var tag := "part" + num;
    assert n + ".part" + num + "." + ext == n + "." + tag + "." + ext;
    ContainerExtFacts(ext);
    PartTagFacts(num);
    FoldDotJoin(n + "." + tag, ext);
    FoldDotJoin(n, tag);
    var lower := Fold(n) + "." + tag + "." + ext;
    ArchiveGroupKeySpelledOut(n + "." + tag + "." + ext, lower);
    DotSplitOf(Fold(n) + "." + tag, ext);
    DotSplitOf(Fold(n), tag);
    assert ApplyGroupPattern(SplitVolume, lower) == None;
    assert ApplyGroupPattern(PartVolume, lower) == Some(Fold(n) + "." + ext);
  }

  /** `n.r00`, `n.r01`, `n.z01`, ... all get the key `n.$1` (folded): the
      replacement names a capture group the pattern does not have. */
  lemma RzVolumeKey(n: string, letter: char, vol: string)
    requires (letter == 'r' || letter == 'z') && |vol| == 2 && AllDigits(vol)
    ensures ArchiveGroupKey(n + "." + [letter] + vol) == Fold(n) + ".$1"
  {
    RzTagFacts(letter, vol);
    var tag := [letter] + vol;
    assert n + "." + [letter] + vol == n + "." + tag;
    FoldDotJoin(n, tag);
    var lower := Fold(n) + "." + tag;
    ArchiveGroupKeySpelledOut(n + "." + tag, lower);
    DotSplitOf(Fold(n), tag);
    assert ApplyGroupPattern(SplitVolume, lower) == None;
    assert ApplyGroupPattern(PartVolume, lower) == None;
    assert ApplyGroupPattern(RzVolume, lower) == Some(Fold(n) + ".$1");
  }

  lemma PartPatternKeepsExt(head: string, ext: string)
    requires IsLowerContainerExt(ext)
    ensures var r := ApplyGroupPattern(PartVolume, head + "." + ext);
      r.Some? ==> |r.value| >= |ext| && r.value[|r.value| - |ext|..] == ext
  {
    ContainerExtFacts(ext);
    DotSplitOf(head, ext);
    match DotSplit(head)
    case None =>
    case Some((head2, tag)) =>
      var k := head2 + "." + ext;
      assert k[|k| - |ext|..] == ext;
  }

  /** The key of `n.rar` (`n.zip`, `n.7z`) ends in that extension. */
  lemma ContainerKeyEndsInExt(n: string, ext: string)
    requires IsLowerContainerExt(ext)
    ensures var k := ArchiveGroupKey(n + "." + ext); |k| >= |ext| && k[|k| - |ext|..] == ext
  {
    ContainerExtFacts(ext);
    FoldDotJoin(n, ext);
    var lower := Fold(n) + "." + ext;
    ArchiveGroupKeySpelledOut(n + "." + ext, lower);
    DotSplitOf(Fold(n), ext);
    assert ApplyGroupPattern(SplitVolume, lower) == None;
    assert ApplyGroupPattern(RzVolume, lower) == None;
    assert lower[|lower| - |ext|..] == ext;
    PartPatternKeepsExt(Fold(n), ext);
  }

  /** Because of the literal `$1`, `n.r00` never gets the key of `n.rar`:
      the `r`/`z` volumes are not grouped with their first volume. */
  lemma RzKeyDiffersFromContainerKey(n: string, letter: char, vol: string, ext: string)
    requires (letter == 'r' || letter == 'z') && |vol| == 2 && AllDigits(vol)
    requires IsLowerContainerExt(ext)
    ensures ArchiveGroupKey(n + "." + [letter] + vol) != ArchiveGroupKey(n + "." + ext)
  {
    RzVolumeKey(n, letter, vol);
    ContainerKeyEndsInExt(n, ext);
    var a := ArchiveGroupKey(n + "." + [letter] + vol);
    var b := ArchiveGroupKey(n + "." + ext);
    assert a[|a| - 1] == '1';
    assert b[|b| - 1] == ext[|ext| - 1];
  }
}
