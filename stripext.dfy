/** `stripExt`: remove the last extension of a file name, or with `all` every
    extension. */
module StripExt {
  import opened Seqs

  /** The characters the regular-expression `.` does not match. */
  predicate IsLineTerminator(c: char) {
    c == '\n' || c == '\r' || c as int == 0x2028 || c as int == 0x2029
  }

  predicate NoEmptyPiece(pieces: seq<string>) {
    forall k :: 0 <= k < |pieces| ==> pieces[k] != ""
  }

  /** `stripExt(name, { all })`.

      With `all`, a name made of dot-separated non-empty pieces (at least
      two) keeps only its first piece, with its leading dot when it has one;
      any other name is returned unchanged.

      Without `all`, the name loses its last dot and what follows, provided
      something precedes that dot (without a line terminator) and something
      follows it; otherwise it is returned unchanged. */
  function StripExt(name: string, all: bool): (r: string)
    ensures IsPrefix(r, name)
  {
    if all then
      if |name| > 0 && name[0] == '.' then
        var pieces := Split(name[1..], '.');
        if |pieces| >= 2 && NoEmptyPiece(pieces) then
          assert name == "." + name[1..];
          "." + pieces[0]
        else name
      else
        var pieces := Split(name, '.');
        if |pieces| >= 2 && NoEmptyPiece(pieces) then pieces[0] else name
    else
      match LastIndexOf(name, '.')
      case Some(i) =>
        if 0 < i < |name| - 1 && forall k :: 0 <= k < i ==> !IsLineTerminator(name[k]) then name[..i] else name
      case None => name
  }

  /** A name without a dot is never changed. */
  lemma StripExtNoDot(name: string, all: bool)
    requires '.' !in name
    ensures StripExt(name, all) == name
  {
    if |name| > 0 {
      assert name[0] in name;
      assert forall c :: c in name[1..] ==> c in name;
    }
  }

  /** Without `all`: `b.e` loses exactly its last extension `.e`. */
  lemma StripLastExt(b: string, e: string)
    requires b != "" && forall k :: 0 <= k < |b| ==> !IsLineTerminator(b[k])
    requires e != "" && '.' !in e
    ensures StripExt(b + "." + e, false) == b
  {
    var name := b + "." + e;
    LastIndexOfJoin(b, '.', e);
    assert name[..|b|] == b;
  }

  /** Without `all`: a dot with nothing before it (`.bashrc`), or with
      nothing after it (`a.`), is not an extension. */
  lemma StripLastExtNeedsBothSides(b: string, e: string)
    requires '.' !in e
    ensures StripExt("." + e, false) == "." + e
    ensures StripExt(b + ".", false) == b + "."
  {
    LastIndexOfJoin([], '.', e);
    assert [] + ['.'] + e == "." + e;
    LastIndexOfJoin(b, '.', []);
    assert b + ['.'] + [] == b + ".";
  }

  /** A dot-free piece followed by dot-separated extensions splits back
      into that piece and those extensions. */
  lemma SplitPieces(b: string, exts: seq<string>)
    requires b != "" && '.' !in b
    requires forall k :: 0 <= k < |exts| ==> exts[k] != "" && '.' !in exts[k]
    requires |exts| >= 1
    ensures Split(b + "." + Join(exts, '.'), '.') == [b] + exts
    ensures NoEmptyPiece([b] + exts)
  {
    var rest := Join(exts, '.');
    SplitJoin(exts, '.');
    SplitAfterPiece(b, '.', rest);
    var pieces := [b] + exts;
    forall k | 0 <= k < |pieces| ensures pieces[k] != "" {
      if k > 0 {
        assert pieces[k] == exts[k - 1];
      }
    }
  }

  /** With `all`: a dot-free first piece followed by dot-separated
      extensions keeps only that first piece. */
  lemma StripAllExts(b: string, exts: seq<string>)
    requires b != "" && '.' !in b && b[0] != '.'
    requires |exts| >= 1
    requires forall k :: 0 <= k < |exts| ==> exts[k] != "" && '.' !in exts[k]
    ensures StripExt(b + "." + Join(exts, '.'), true) == b
  {
    var name := b + "." + Join(exts, '.');
    assert name[0] == b[0];
    SplitPieces(b, exts);
    assert ([b] + exts)[0] == b;
  }

  /** With `all`: a name with a leading dot keeps its first dot-separated
      piece, with the dot (`.config.json` becomes `.config`). */
  lemma StripAllExtsLeadingDot(b: string, exts: seq<string>)
    requires b != "" && '.' !in b
    requires |exts| >= 1
    requires forall k :: 0 <= k < |exts| ==> exts[k] != "" && '.' !in exts[k]
    ensures StripExt("." + b + "." + Join(exts, '.'), true) == "." + b
  {
    var tail := b + "." + Join(exts, '.');
    var name := "." + b + "." + Join(exts, '.');
    assert name == "." + tail;
    assert name[0] == '.' && name[1..] == tail;
    SplitPieces(b, exts);
    assert ([b] + exts)[0] == b;
  }

  /** With `all`, a result that differs from the name has no dot after its
      first character. */
  lemma StripAllLeavesNoExt(name: string)
    ensures var r := StripExt(name, true); r != name ==> r != "" && '.' !in r[1..]
  {
    var r := StripExt(name, true);
    if |name| > 0 && name[0] == '.' {
      var pieces := Split(name[1..], '.');
      assert pieces[0] in pieces;
      assert ("." + pieces[0])[1..] == pieces[0];
    } else {
      var pieces := Split(name, '.');
      assert pieces[0] in pieces;
      if |pieces| >= 2 && NoEmptyPiece(pieces) {
        assert pieces[0] != "";
        assert forall c :: c in r[1..] ==> c in r;
      }
    }
  }

  /** With `all`, stripping twice is stripping once. */
  lemma StripAllIdempotent(name: string)
    ensures StripExt(StripExt(name, true), true) == StripExt(name, true)
  {
    var r := StripExt(name, true);
    StripAllLeavesNoExt(name);
    if r != name {
      if r[0] == '.' {
        assert Split(r[1..], '.') == [r[1..]];
      } else {
        assert r == [r[0]] + r[1..];
        assert '.' !in r;
        StripExtNoDot(r, true);
      }
    }
  }
}
