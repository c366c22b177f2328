/** The game index (token and CJK-bigram inverted indexes plus each game's
    normalised title candidates) and the filename-to-game scorer. */
module GameMatcher {
  import opened Seqs
  import opened Text
  import opened Types
  import opened OrderedMaps

  /** `GameIndex`: every map is insertion-ordered; every `Set` is a sequence. */
  datatype GameIndex = GameIndex(
    tokenToGameIds: OMap<string, seq<int>>,
    cjkBigramToGameIds: OMap<string, seq<int>>,
    gameIdToCandidates: OMap<int, seq<string>>)

  // ---------------------------------------------------------------------
  // Candidates of one game
  // ---------------------------------------------------------------------

  /** Japanese, English and Chinese titles, then the aliases. An absent
      title is the empty string; an absent alias list is empty. */
  function Titles(g: Game): seq<string> {
    [g.titleJp, g.titleEn, g.titleZh] + g.aliases
  }

  function NormalizeAll(titles: seq<string>): (r: seq<string>)
    ensures |r| == |titles|
    ensures forall i :: 0 <= i < |titles| ==> r[i] == Normalize(titles[i])
  {
    seq(|titles|, i requires 0 <= i < |titles| => Normalize(titles[i]))
  }

  /** `uniqueCandidates`: the non-empty normalised forms of the non-empty
      titles, each once, in title order. */
  function Candidates(g: Game): seq<string> {
    Dedup(Filter(NormalizeAll(Filter(Titles(g), NonEmpty)), NonEmpty))
  }

  /** Candidates are distinct, non-empty, normalised, and are exactly the
      normal forms of the titles that do not normalise to nothing. */
  lemma CandidatesSpec(g: Game)
    ensures Distinct(Candidates(g))
    ensures forall c :: c in Candidates(g) ==> c != "" && IsNormalized(c)
    ensures forall c :: c in Candidates(g) <==> c != "" && exists t :: t in Titles(g) && t != "" && c == Normalize(t)
  {
    forall c ensures c in Candidates(g) <==> c != "" && exists t :: t in Titles(g) && t != "" && c == Normalize(t) {
      var _ := CandidateIsNormalForm(g, c);
    }
    forall c | c in Candidates(g) ensures IsNormalized(c) {
      var t := CandidateIsNormalForm(g, c);
      NormalizeIsNormalized(t);
    }
  }

  /** `c` is a candidate exactly when it is the non-empty normal form of a
      non-empty title; `t` is such a title when there is one. */
  lemma CandidateIsNormalForm(g: Game, c: string) returns (t: string)
    ensures c in Candidates(g) <==> c != "" && exists t :: t in Titles(g) && t != "" && c == Normalize(t)
    ensures c in Candidates(g) ==> t in Titles(g) && t != "" && c == Normalize(t)
  {
    var kept := Filter(Titles(g), NonEmpty);
    var normed := NormalizeAll(kept);
    assert c in Candidates(g) <==> c in normed && c != "";
    t := ImageMember(kept, normed, Normalize, c);
  }

  /** Membership in the pointwise image `ys` of `xs` under `f`, with a
      witness. */
  lemma ImageMember(xs: seq<string>, ys: seq<string>, f: string -> string, c: string) returns (t: string)
    requires |ys| == |xs| && forall i :: 0 <= i < |xs| ==> ys[i] == f(xs[i])
    ensures c in ys <==> exists t :: t in xs && c == f(t)
    ensures c in ys ==> t in xs && c == f(t)
  {
    t := "";
    if c in ys {
      var i :| 0 <= i < |ys| && ys[i] == c;
      t := xs[i];
    }
    if exists t :: t in xs && c == f(t) {
      var t' :| t' in xs && c == f(t');
      var i :| 0 <= i < |xs| && xs[i] == t';
      assert ys[i] == c;
    }
  }

  // ---------------------------------------------------------------------
  // buildGameIndex
  // ---------------------------------------------------------------------

  /** `addToMap`: add `id` to the set stored under `key`. */
  function AddToMap(m: OMap<string, seq<int>>, key: string, id: int): OMap<string, seq<int>> {
    Put(m, key, AddToSet(GetOr(m, key, []), id))
  }

  /** `id` is in the set stored under `key`. */
  predicate Lists(m: OMap<string, seq<int>>, key: string, id: int) {
    id in GetOr(m, key, [])
  }

  /** `for (const k of keys) addToMap(m, k, id)`. */
  function AddKeys(m: OMap<string, seq<int>>, keys: seq<string>, id: int): OMap<string, seq<int>>
    decreases |keys|
  {
    if keys == [] then m else AddToMap(AddKeys(m, keys[..|keys| - 1], id), keys[|keys| - 1], id)
  }

  /** Index one candidate of game `id`: its Latin tokens, and its CJK
      bigrams when it contains CJK text. */
  function AddCandidate(idx: GameIndex, cand: string, id: int): GameIndex {
    idx.(tokenToGameIds := AddKeys(idx.tokenToGameIds, ExtractLatinTokens(cand), id),
         cjkBigramToGameIds :=
           if HasCjk(cand) then AddKeys(idx.cjkBigramToGameIds, CjkBigrams(cand), id)
           else idx.cjkBigramToGameIds)
  }

  function AddCandidates(idx: GameIndex, cands: seq<string>, id: int): GameIndex
    decreases |cands|
  {
    if cands == [] then idx else AddCandidate(AddCandidates(idx, cands[..|cands| - 1], id), cands[|cands| - 1], id)
  }

  /** One iteration of the loop over games. */
  function AddGame(idx: GameIndex, g: Game): GameIndex {
    var cands := Candidates(g);
    AddCandidates(idx.(gameIdToCandidates := Put(idx.gameIdToCandidates, g.gameId, cands)), cands, g.gameId)
  }

  /** The index `buildGameIndex(games)` returns. */
  function IndexOf(games: seq<Game>): GameIndex
    decreases |games|
  {
    if games == [] then GameIndex(EmptyMap(), EmptyMap(), EmptyMap())
    else AddGame(IndexOf(games[..|games| - 1]), games[|games| - 1])
  }

  method AddKeysTo(m: OMap<string, seq<int>>, keys: seq<string>, id: int) returns (r: OMap<string, seq<int>>)
    ensures r == AddKeys(m, keys, id)
  {
    r := m;
    var k := 0;
    while k < |keys|
      invariant 0 <= k <= |keys|
      invariant r == AddKeys(m, keys[..k], id)
    {
      assert keys[..k + 1][..k] == keys[..k];
      r := AddToMap(r, keys[k], id);
      k := k + 1;
    }
    assert keys[..|keys|] == keys;
  }

  /** `buildGameIndex`. */
  method BuildGameIndex(games: seq<Game>) returns (index: GameIndex)
    ensures index == IndexOf(games)
  {
    index := GameIndex(EmptyMap(), EmptyMap(), EmptyMap());
    var i := 0;
    while i < |games|
      invariant 0 <= i <= |games|
      invariant index == IndexOf(games[..i])
    {
      var g := games[i];
      var uniqueCandidates := Candidates(g);
      index := index.(gameIdToCandidates := Put(index.gameIdToCandidates, g.gameId, uniqueCandidates));
      index := IndexCandidates(index, uniqueCandidates, g.gameId);
      IndexOfStep(games, i);
      i := i + 1;
    }
    assert games[..|games|] == games;
  }

  /** The inner loop of `buildGameIndex`: index every candidate of game `id`. */
  method IndexCandidates(base: GameIndex, cands: seq<string>, id: int) returns (index: GameIndex)
    ensures index == AddCandidates(base, cands, id)
  {
    index := base;
    var j := 0;
    while j < |cands|
      invariant 0 <= j <= |cands|
      invariant index == AddCandidates(base, cands[..j], id)
    {
      var cand := cands[j];
      var tokens := ExtractLatinTokens(cand);
      var tokenToGameIds := AddKeysTo(index.tokenToGameIds, tokens, id);
      var cjkBigramToGameIds := index.cjkBigramToGameIds;
      if HasCjk(cand) {
        var bigrams := ExtractCjkBigrams(cand);
        cjkBigramToGameIds := AddKeysTo(cjkBigramToGameIds, bigrams, id);
      }
      AddCandidatesStep(base, cands, id, j);
      index := index.(tokenToGameIds := tokenToGameIds, cjkBigramToGameIds := cjkBigramToGameIds);
      j := j + 1;
    }
    assert cands[..|cands|] == cands;
  }

  lemma AddCandidatesStep(base: GameIndex, cands: seq<string>, id: int, j: nat)
    requires j < |cands|
    ensures AddCandidates(base, cands[..j + 1], id) == AddCandidate(AddCandidates(base, cands[..j], id), cands[j], id)
  {
    assert cands[..j + 1][..j] == cands[..j];
  }

  lemma IndexOfStep(games: seq<Game>, i: nat)
    requires i < |games|
    ensures IndexOf(games[..i + 1]) == AddGame(IndexOf(games[..i]), games[i])
  {
    assert games[..i + 1][..i] == games[..i];
  }

  // Index membership --------------------------------------------------------

  lemma {:induction false} ListsAddKeys(m: OMap<string, seq<int>>, keys: seq<string>, id: int, key: string, id2: int)
    ensures Lists(AddKeys(m, keys, id), key, id2) <==> Lists(m, key, id2) || (id2 == id && key in keys)
    decreases |keys|
  {
    if keys != [] {
      var init := keys[..|keys| - 1];
      ListsAddKeys(m, init, id, key, id2);
      assert keys == init + [keys[|keys| - 1]];
    }
  }

  /** Game `id` has a candidate with Latin token `t`. */
  predicate HasToken(cands: seq<string>, t: string) {
    exists c :: c in cands && t in ExtractLatinTokens(c)
  }

  /** Game `id` has a CJK candidate with bigram `b`. */
  predicate HasBigram(cands: seq<string>, b: string) {
    exists c :: c in cands && HasCjk(c) && b in CjkBigrams(c)
  }

  lemma {:induction false} ListsAddCandidates(idx: GameIndex, cands: seq<string>, id: int, key: string, id2: int)
    ensures var r := AddCandidates(idx, cands, id);
      && r.gameIdToCandidates == idx.gameIdToCandidates
      && (Lists(r.tokenToGameIds, key, id2) <==> Lists(idx.tokenToGameIds, key, id2) || (id2 == id && HasToken(cands, key)))
      && (Lists(r.cjkBigramToGameIds, key, id2) <==>
            Lists(idx.cjkBigramToGameIds, key, id2) || (id2 == id && HasBigram(cands, key)))
    decreases |cands|
  {
    if cands != [] {
      var init := cands[..|cands| - 1];
      var last := cands[|cands| - 1];
      ListsAddCandidates(idx, init, id, key, id2);
      var mid := AddCandidates(idx, init, id);
      ListsAddKeys(mid.tokenToGameIds, ExtractLatinTokens(last), id, key, id2);
      if HasCjk(last) {
        ListsAddKeys(mid.cjkBigramToGameIds, CjkBigrams(last), id, key, id2);
      }
      HasKeySnoc(cands, key);
    }
  }

  lemma HasKeySnoc(cands: seq<string>, key: string)
    requires cands != []
    ensures var init, last := cands[..|cands| - 1], cands[|cands| - 1];
      && (HasToken(cands, key) <==> HasToken(init, key) || key in ExtractLatinTokens(last))
      && (HasBigram(cands, key) <==> HasBigram(init, key) || (HasCjk(last) && key in CjkBigrams(last)))
  {
    assert cands == cands[..|cands| - 1] + [cands[|cands| - 1]];
  }

  /** Some game in `games` has id `id` and satisfies `p`. */
  predicate SomeGame(games: seq<Game>, id: int, p: Game -> bool) {
    exists k :: 0 <= k < |games| && games[k].gameId == id && p(games[k])
  }

  lemma SomeGameSnoc(games: seq<Game>, id: int, p: Game -> bool)
    requires games != []
    ensures var g := games[|games| - 1];
      SomeGame(games, id, p) <==> SomeGame(games[..|games| - 1], id, p) || (g.gameId == id && p(g))
  {
    var init := games[..|games| - 1];
    if SomeGame(games, id, p) {
      var k :| 0 <= k < |games| && games[k].gameId == id && p(games[k]);
      if k < |init| {
        assert init[k] == games[k];
      }
    }
    if SomeGame(init, id, p) {
      var k :| 0 <= k < |init| && init[k].gameId == id && p(init[k]);
      assert init[k] == games[k];
    }
  }

  /** Some game with id `id` has a candidate with Latin token `t`. */
  predicate SomeGameHasToken(games: seq<Game>, t: string, id: int) {
    SomeGame(games, id, g => HasToken(Candidates(g), t))
  }

  /** Some game with id `id` has a CJK candidate with bigram `b`. */
  predicate SomeGameHasBigram(games: seq<Game>, b: string, id: int) {
    SomeGame(games, id, g => HasBigram(Candidates(g), b))
  }

  /** The inverted indexes list a game under exactly the tokens of its
      candidates, and under exactly the bigrams of its CJK candidates. */
  lemma {:induction false} IndexMembership(games: seq<Game>, key: string, id: int)
    ensures Lists(IndexOf(games).tokenToGameIds, key, id) <==> SomeGameHasToken(games, key, id)
    ensures Lists(IndexOf(games).cjkBigramToGameIds, key, id) <==> SomeGameHasBigram(games, key, id)
    decreases |games|
  {
    if games != [] {
      var init := games[..|games| - 1];
      var g := games[|games| - 1];
      IndexMembership(init, key, id);
      var prev := IndexOf(init);
      ListsAddCandidates(prev.(gameIdToCandidates := Put(prev.gameIdToCandidates, g.gameId, Candidates(g))),
        Candidates(g), g.gameId, key, id);
      SomeGameSnoc(games, id, g => HasToken(Candidates(g), key));
      SomeGameSnoc(games, id, g => HasBigram(Candidates(g), key));
    }
  }

  function GameIds(games: seq<Game>): (r: seq<int>)
    ensures |r| == |games|
    ensures forall k :: 0 <= k < |games| ==> r[k] == games[k].gameId
  {
    seq(|games|, k requires 0 <= k < |games| => games[k].gameId)
  }

  /** The last game in the list with id `id`. */
  function LastGameWith(games: seq<Game>, id: int): Option<Game>
    decreases |games|
  {
    if games == [] then None
    else if games[|games| - 1].gameId == id then Some(games[|games| - 1])
    else LastGameWith(games[..|games| - 1], id)
  }

  lemma {:induction false} AddCandidatesKeepsCandidateMap(idx: GameIndex, cands: seq<string>, id: int)
    ensures AddCandidates(idx, cands, id).gameIdToCandidates == idx.gameIdToCandidates
    decreases |cands|
  {
    if cands != [] {
      AddCandidatesKeepsCandidateMap(idx, cands[..|cands| - 1], id);
    }
  }

  /** Each game overwrites (or appends) its own entry of `gameIdToCandidates`. */
  lemma CandidateMapSnoc(games: seq<Game>)
    requires games != []
    ensures var g := games[|games| - 1];
      IndexOf(games).gameIdToCandidates ==
        Put(IndexOf(games[..|games| - 1]).gameIdToCandidates, g.gameId, Candidates(g))
  {
    var g := games[|games| - 1];
    var prev := IndexOf(games[..|games| - 1]);
    AddCandidatesKeepsCandidateMap(
      prev.(gameIdToCandidates := Put(prev.gameIdToCandidates, g.gameId, Candidates(g))), Candidates(g), g.gameId);
  }

  /** `gameIdToCandidates` has one entry per distinct game id, in order of
      first appearance. */
  lemma {:induction false} CandidateMapKeys(games: seq<Game>)
    ensures ValidMap(IndexOf(games).gameIdToCandidates)
    ensures IndexOf(games).gameIdToCandidates.keys == Dedup(GameIds(games))
    decreases |games|
  {
    if games != [] {
      var init := games[..|games| - 1];
      var g := games[|games| - 1];
      CandidateMapKeys(init);
      CandidateMapSnoc(games);
      assert GameIds(games)[..|games| - 1] == GameIds(init);
      PutKeepsDedupKeys(IndexOf(init).gameIdToCandidates, GameIds(games), Candidates(g));
    }
  }

  /** Putting the last id of `ids` into a map keyed by the distinct earlier
      ids keys it by the distinct ids. */
  lemma PutKeepsDedupKeys<V>(m: OMap<int, V>, ids: seq<int>, v: V)
    requires ids != [] && ValidMap(m) && m.keys == Dedup(ids[..|ids| - 1])
    ensures ValidMap(Put(m, ids[|ids| - 1], v))
    ensures Put(m, ids[|ids| - 1], v).keys == Dedup(ids)
  {
  }

  /** The entry of an id holds the candidates of the last game with that id
      (a later game with the same id overwrites the entry in place). */
  lemma {:induction false} CandidateMapEntry(games: seq<Game>, id: int)
    ensures Get(IndexOf(games).gameIdToCandidates, id) ==
      match LastGameWith(games, id) case Some(g) => Some(Candidates(g)) case None => None
    decreases |games|
  {
    if games != [] {
      CandidateMapEntry(games[..|games| - 1], id);
      CandidateMapSnoc(games);
    }
  }

  /** Every id listed in the inverted indexes, or keyed in the candidate
      map, is the id of some game. */
  lemma IndexedIdsAreGames(games: seq<Game>, key: string, id: int)
    ensures Lists(IndexOf(games).tokenToGameIds, key, id) ==> id in GameIds(games)
    ensures Lists(IndexOf(games).cjkBigramToGameIds, key, id) ==> id in GameIds(games)
    ensures id in IndexOf(games).gameIdToCandidates.keys <==> id in GameIds(games)
  {
    IndexMembership(games, key, id);
    CandidateMapKeys(games);
    if SomeGameHasToken(games, key, id) || SomeGameHasBigram(games, key, id) {
      var k :| 0 <= k < |games| && games[k].gameId == id;
      assert GameIds(games)[k] == id;
    }
  }

  /** Every set stored in an inverted index lists each id once. */
  ghost predicate DistinctLists(m: OMap<string, seq<int>>) {
    forall key :: key in m.vals ==> Distinct(m.vals[key])
  }

  lemma {:induction false} AddKeysDistinct(m: OMap<string, seq<int>>, keys: seq<string>, id: int)
    requires DistinctLists(m)
    ensures DistinctLists(AddKeys(m, keys, id))
    decreases |keys|
  {
    if keys != [] {
      AddKeysDistinct(m, keys[..|keys| - 1], id);
    }
  }

  lemma {:induction false} AddCandidatesDistinct(idx: GameIndex, cands: seq<string>, id: int)
    requires DistinctLists(idx.tokenToGameIds) && DistinctLists(idx.cjkBigramToGameIds)
    ensures DistinctLists(AddCandidates(idx, cands, id).tokenToGameIds)
    ensures DistinctLists(AddCandidates(idx, cands, id).cjkBigramToGameIds)
    decreases |cands|
  {
    if cands != [] {
      var init := cands[..|cands| - 1];
      AddCandidatesDistinct(idx, init, id);
      var mid := AddCandidates(idx, init, id);
      AddKeysDistinct(mid.tokenToGameIds, ExtractLatinTokens(cands[|cands| - 1]), id);
      AddKeysDistinct(mid.cjkBigramToGameIds, CjkBigrams(cands[|cands| - 1]), id);
    }
  }

  /** A built index never lists a game twice under one key, which is what
      makes a score a count of matching keys. */
  lemma {:induction false} IndexListsDistinct(games: seq<Game>)
    ensures DistinctLists(IndexOf(games).tokenToGameIds)
    ensures DistinctLists(IndexOf(games).cjkBigramToGameIds)
    decreases |games|
  {
    if games != [] {
      var init := games[..|games| - 1];
      var g := games[|games| - 1];
      IndexListsDistinct(init);
      var prev := IndexOf(init);
      AddCandidatesDistinct(prev.(gameIdToCandidates := Put(prev.gameIdToCandidates, g.gameId, Candidates(g))),
        Candidates(g), g.gameId);
    }
  }

  // ---------------------------------------------------------------------
  // chooseBestMatch
  // ---------------------------------------------------------------------

  /** `inc(id, w)`. */
  function Inc(score: OMap<int, int>, id: int, w: int): OMap<int, int> {
    Put(score, id, GetOr(score, id, 0) + w)
  }

  /** `for (const id of ids) inc(id, w)`. */
  function AddWeight(score: OMap<int, int>, ids: seq<int>, w: int): (r: OMap<int, int>)
    ensures ValidMap(score) ==> ValidMap(r)
    decreases |ids|
  {
    if ids == [] then score else Inc(AddWeight(score, ids[..|ids| - 1], w), ids[|ids| - 1], w)
  }

  /** The loop over `keys` that adds `w` for every id listed under each key. */
  function ScoreKeys(score: OMap<int, int>, keys: seq<string>, m: OMap<string, seq<int>>, w: int): (r: OMap<int, int>)
    ensures ValidMap(score) ==> ValidMap(r)
    decreases |keys|
  {
    if keys == [] then score
    else
      var s := ScoreKeys(score, keys[..|keys| - 1], m, w);
      match Get(m, keys[|keys| - 1])
      case None => s
      case Some(ids) => AddWeight(s, ids, w)
  }

  /** The score map: 1 per matching token, 2 per matching bigram. */
  function Scores(index: GameIndex, tokens: seq<string>, bigrams: seq<string>): (r: OMap<int, int>)
    ensures ValidMap(r)
  {
    ScoreKeys(ScoreKeys(EmptyMap(), tokens, index.tokenToGameIds, 1), bigrams, index.cjkBigramToGameIds, 2)
  }

  /** The loop over the score entries in insertion order: the first id with
      the highest score, starting from `bestScore = -1`. */
  function BestOf(ids: seq<int>, score: OMap<int, int>): (Option<int>, int)
    decreases |ids|
  {
    if ids == [] then (None, -1)
    else
      var b := BestOf(ids[..|ids| - 1], score);
      var id := ids[|ids| - 1];
      if GetOr(score, id, 0) > b.1 then (Some(id), GetOr(score, id, 0)) else b
  }

  /** `s.includes(sub)`. */
  predicate Includes(s: string, sub: string) {
    exists i :: 0 <= i <= |s| && IsPrefix(sub, s[i..])
  }

  predicate NotSpace(c: char) { !IsSpace(c) }

  /** `s.replace(/\s+/g, '')`. */
  function RemoveSpaces(s: string): string {
    Filter(s, NotSpace)
  }

  /** The confirmation test of one candidate against the normalised name. */
  predicate ConfirmedBy(normName: string, cand: string) {
    cand != "" &&
    (Includes(normName, cand)
     || (|RemoveSpaces(cand)| >= 3 && Includes(RemoveSpaces(normName), RemoveSpaces(cand))))
  }

  /** The id `chooseBestMatch(filename, index)` returns: the choice made
      on the normalised name. */
  function BestMatch(filename: string, index: GameIndex): Option<int> {
    BestMatchOf(Normalize(filename), index)
  }

  /** The choice `chooseBestMatch` makes once the name is normalised. */
  function BestMatchOf(normName: string, index: GameIndex): Option<int> {
    var tokens := ExtractLatinTokens(normName);
    var bigrams := CjkBigrams(normName);
    var score := Scores(index, tokens, bigrams);
    var (bestId, bestScore) := BestOf(score.keys, score);
    if score.keys == [] || bestId.None? then None
    else
      match Get(index.gameIdToCandidates, bestId.value)
      case None => None
      case Some(cands) =>
        if (exists c :: c in cands && ConfirmedBy(normName, c))
           || (|bigrams| > 0 && bestScore >= 6) || (|tokens| > 0 && bestScore >= 3)
        then bestId
        else None
  }

  method AddWeightTo(score: OMap<int, int>, ids: seq<int>, w: int) returns (r: OMap<int, int>)
    ensures r == AddWeight(score, ids, w)
  {
    r := score;
    var j := 0;
    while j < |ids|
      invariant 0 <= j <= |ids|
      invariant r == AddWeight(score, ids[..j], w)
    {
      assert ids[..j + 1][..j] == ids[..j];
      r := Inc(r, ids[j], w);
      j := j + 1;
    }
    assert ids[..|ids|] == ids;
  }

  method ScoreKeysInto(score: OMap<int, int>, keys: seq<string>, m: OMap<string, seq<int>>, w: int)
    returns (r: OMap<int, int>)
    ensures r == ScoreKeys(score, keys, m, w)
  {
    r := score;
    var i := 0;
    while i < |keys|
      invariant 0 <= i <= |keys|
      invariant r == ScoreKeys(score, keys[..i], m, w)
    {
      assert keys[..i + 1][..i] == keys[..i];
      var ids := Get(m, keys[i]);
      if ids.Some? {
        r := AddWeightTo(r, ids.value, w);
      }
      i := i + 1;
    }
    assert keys[..|keys|] == keys;
  }

  /** The loop over the score entries. */
  method PickBest(score: OMap<int, int>) returns (bestId: Option<int>, bestScore: int)
    ensures (bestId, bestScore) == BestOf(score.keys, score)
  {
    bestId := None;
    bestScore := -1;
    var k := 0;
    while k < |score.keys|
      invariant 0 <= k <= |score.keys|
      invariant (bestId, bestScore) == BestOf(score.keys[..k], score)
    {
      assert score.keys[..k + 1][..k] == score.keys[..k];
      var s := GetOr(score, score.keys[k], 0);
      if s > bestScore {
        bestScore := s;
        bestId := Some(score.keys[k]);
      }
      k := k + 1;
    }
    assert score.keys[..|score.keys|] == score.keys;
  }

  /** The loop over the best game's candidates: does one of them confirm the name? */
  method AnyConfirms(normName: string, cands: seq<string>) returns (found: bool)
    ensures found <==> exists c :: c in cands && ConfirmedBy(normName, c)
  {
    var nameNoSpace := RemoveSpaces(normName);
    var c := 0;
    while c < |cands|
      invariant 0 <= c <= |cands|
      invariant forall m :: 0 <= m < c ==> !ConfirmedBy(normName, cands[m])
    {
      var cand := cands[c];
      if |cand| != 0 {
        if Includes(normName, cand) {
          return true;
        }
        var candNoSpace := RemoveSpaces(cand);
        if |candNoSpace| >= 3 && Includes(nameNoSpace, candNoSpace) {
          assert ConfirmedBy(normName, cands[c]);
          return true;
        }
      }
      c := c + 1;
    }
    return false;
  }

  /** `chooseBestMatch`. */
  method ChooseBestMatch(filename: string, index: GameIndex) returns (r: Option<int>)
    ensures r == BestMatch(filename, index)
  {
    var normName := Normalize(filename);
    var tokens := ExtractLatinTokens(normName);
    var bigrams := ExtractCjkBigrams(normName);
    var score := ScoreKeysInto(EmptyMap(), tokens, index.tokenToGameIds, 1);
    score := ScoreKeysInto(score, bigrams, index.cjkBigramToGameIds, 2);
    if |score.keys| == 0 {
      return None;
    }
    var bestId, bestScore := PickBest(score);
    if bestId.None? {
      return None;
    }
    var candidates := Get(index.gameIdToCandidates, bestId.value);
    if candidates.None? {
      return None;
    }
    var confirmed := AnyConfirms(normName, candidates.value);
    if confirmed {
      return bestId;
    }
    var hasCjkSignal := |bigrams| > 0 && bestScore >= 6;
    var hasLatinSignal := |tokens| > 0 && bestScore >= 3;
    r := if hasCjkSignal || hasLatinSignal then bestId else None;
  }

  // Properties of the score --------------------------------------------------

  /** How many of `keys` list `id` in `m`. */
  function Hits(keys: seq<string>, m: OMap<string, seq<int>>, id: int): nat
    decreases |keys|
  {
    if keys == [] then 0
    else Hits(keys[..|keys| - 1], m, id) + (if Lists(m, keys[|keys| - 1], id) then 1 else 0)
  }

  lemma {:induction false} AddWeightCounts(score: OMap<int, int>, ids: seq<int>, w: int, id: int)
    requires Distinct(ids)
    ensures GetOr(AddWeight(score, ids, w), id, 0) == GetOr(score, id, 0) + (if id in ids then w else 0)
    ensures id in AddWeight(score, ids, w).vals <==> id in score.vals || id in ids
    decreases |ids|
  {
    if ids != [] {
      var init := ids[..|ids| - 1];
      var last := ids[|ids| - 1];
      AddWeightCounts(score, init, w, id);
      assert ids == init + [last];
      assert last !in init;
    }
  }

  lemma {:induction false} ScoreKeysCounts(score: OMap<int, int>, keys: seq<string>, m: OMap<string, seq<int>>, w: int, id: int)
    requires DistinctLists(m)
    ensures GetOr(ScoreKeys(score, keys, m, w), id, 0) == GetOr(score, id, 0) + w * Hits(keys, m, id)
    ensures id in ScoreKeys(score, keys, m, w).vals <==> id in score.vals || Hits(keys, m, id) > 0
    decreases |keys|
  {
    if keys != [] {
      var init := keys[..|keys| - 1];
      var last := keys[|keys| - 1];
      ScoreKeysCounts(score, init, m, w, id);
      var s := ScoreKeys(score, init, m, w);
      var h := Hits(init, m, id);
      assert keys[..|keys| - 1] == init;
      assert ScoreKeys(score, keys, m, w) == if last in m.vals then AddWeight(s, m.vals[last], w) else s;
      if Lists(m, last, id) {
        assert Hits(keys, m, id) == h + 1;
        assert w * (h + 1) == w * h + w;
        AddWeightCounts(s, m.vals[last], w, id);
      } else {
        assert Hits(keys, m, id) == h;
        if last in m.vals {
          AddWeightCounts(s, m.vals[last], w, id);
        }
      }
    }
  }

  /** The weight of game `id` for a name: one per shared Latin token, two per shared CJK bigram. */
  function Weight(index: GameIndex, tokens: seq<string>, bigrams: seq<string>, id: int): nat {
    Hits(tokens, index.tokenToGameIds, id) + 2 * Hits(bigrams, index.cjkBigramToGameIds, id)
  }

  /** With an index that lists each game once per key, the score of a game
      is its weight, and exactly the games of positive weight are scored. */
  lemma ScoresAreWeights(index: GameIndex, tokens: seq<string>, bigrams: seq<string>, id: int)
    requires DistinctLists(index.tokenToGameIds) && DistinctLists(index.cjkBigramToGameIds)
    ensures GetOr(Scores(index, tokens, bigrams), id, 0) == Weight(index, tokens, bigrams, id)
    ensures id in Scores(index, tokens, bigrams).keys <==> Weight(index, tokens, bigrams, id) > 0
  {
    ScoreKeysCounts(EmptyMap(), tokens, index.tokenToGameIds, 1, id);
    ScoreKeysCounts(ScoreKeys(EmptyMap(), tokens, index.tokenToGameIds, 1), bigrams, index.cjkBigramToGameIds, 2, id);
  }

  /** The chosen id holds the highest score, and every id before it scores strictly less. */
  lemma {:induction false} BestOfSpec(ids: seq<int>, score: OMap<int, int>)
    ensures var (bestId, bestScore) := BestOf(ids, score);
      && (bestId.None? ==> bestScore == -1 && forall q :: 0 <= q < |ids| ==> GetOr(score, ids[q], 0) <= -1)
      && (bestId.Some? ==> forall q :: 0 <= q < |ids| ==> GetOr(score, ids[q], 0) <= bestScore)
      && (bestId.Some? ==>
            (exists p :: 0 <= p < |ids| && ids[p] == bestId.value && GetOr(score, ids[p], 0) == bestScore
              && forall q :: 0 <= q < p ==> GetOr(score, ids[q], 0) < bestScore))
    decreases |ids|
  {
    if ids != [] {
      var init := ids[..|ids| - 1];
      BestOfSpec(init, score);
      assert forall q :: 0 <= q < |init| ==> ids[q] == init[q];
    }
  }

  /** A name that shares no token and no bigram with any game matches nothing. */
  lemma NoSharedKeyNoMatch(n: string, index: GameIndex)
    requires DistinctLists(index.tokenToGameIds) && DistinctLists(index.cjkBigramToGameIds)
    requires forall id :: Weight(index, ExtractLatinTokens(n), CjkBigrams(n), id) == 0
    ensures BestMatchOf(n, index) == None
  {
    var score := Scores(index, ExtractLatinTokens(n), CjkBigrams(n));
    if score.keys != [] {
      ScoresAreWeights(index, ExtractLatinTokens(n), CjkBigrams(n), score.keys[0]);
    }
  }

  /** The first id of the score map's order with the highest score has the
      highest weight of all ids, and every id before it weighs strictly less. */
  lemma TopIsFirstHeaviest(index: GameIndex, tokens: seq<string>, bigrams: seq<string>)
    requires DistinctLists(index.tokenToGameIds) && DistinctLists(index.cjkBigramToGameIds)
    ensures var score := Scores(index, tokens, bigrams);
      var order := score.keys;
      var top := BestOf(order, score);
      order != [] ==>
        && top.0.Some?
        && top.1 == Weight(index, tokens, bigrams, top.0.value)
        && (forall id :: Weight(index, tokens, bigrams, id) <= Weight(index, tokens, bigrams, top.0.value))
        && (exists p :: 0 <= p < |order| && order[p] == top.0.value
              && forall q :: 0 <= q < p ==> Weight(index, tokens, bigrams, order[q]) < Weight(index, tokens, bigrams, top.0.value))
  {
    var score := Scores(index, tokens, bigrams);
    var order := score.keys;
    BestOfSpec(order, score);
    if order != [] {
      ScoresAreWeights(index, tokens, bigrams, order[0]);
      var (top, best) := BestOf(order, score);
      ScoresAreWeights(index, tokens, bigrams, top.value);
      var p :| 0 <= p < |order| && order[p] == top.value && GetOr(score, order[p], 0) == best
              && forall q :: 0 <= q < p ==> GetOr(score, order[q], 0) < best;
      forall q | 0 <= q < p
        ensures Weight(index, tokens, bigrams, order[q]) < Weight(index, tokens, bigrams, top.value)
      {
        ScoresAreWeights(index, tokens, bigrams, order[q]);
      }
      forall id
        ensures Weight(index, tokens, bigrams, id) <= Weight(index, tokens, bigrams, top.value)
      {
        ScoresAreWeights(index, tokens, bigrams, id);
        if id in order {
          var q :| 0 <= q < |order| && order[q] == id;
        }
      }
    }
  }

  /** `chooseBestMatch` looks at one game only, the top game: the first
      game, in the insertion order of the score map, whose weight is the
      highest of all games. It returns that game exactly when the game has
      candidates in the index and one of them confirms the name, or the top
      weight passes a threshold (6 with CJK bigrams present, 3 with Latin
      tokens present); otherwise, and when no game scores, it returns
      undefined. */
  lemma MatchIsBestWeighted(n: string, index: GameIndex)
    requires DistinctLists(index.tokenToGameIds) && DistinctLists(index.cjkBigramToGameIds)
    ensures Scores(index, ExtractLatinTokens(n), CjkBigrams(n)).keys == [] ==> BestMatchOf(n, index) == None
    ensures var tokens := ExtractLatinTokens(n);
      var bigrams := CjkBigrams(n);
      var score := Scores(index, tokens, bigrams);
      var order := score.keys;
      var top := BestOf(order, score).0;
      order != [] ==>
        && top.Some?
        && (forall id :: Weight(index, tokens, bigrams, id) <= Weight(index, tokens, bigrams, top.value))
        && (exists p :: 0 <= p < |order| && order[p] == top.value
              && forall q :: 0 <= q < p ==> Weight(index, tokens, bigrams, order[q]) < Weight(index, tokens, bigrams, top.value))
        && (BestMatchOf(n, index) == top <==>
              var w := Weight(index, tokens, bigrams, top.value);
              && Get(index.gameIdToCandidates, top.value).Some?
              && ((exists c :: c in Get(index.gameIdToCandidates, top.value).value && ConfirmedBy(n, c))
                  || (|bigrams| > 0 && w >= 6) || (|tokens| > 0 && w >= 3)))
        && (BestMatchOf(n, index) != top ==> BestMatchOf(n, index) == None)
  {
    TopIsFirstHeaviest(index, ExtractLatinTokens(n), CjkBigrams(n));
  }

  /** Against an index built from a game list, a match is always the id of
      one of those games. */
  lemma MatchIsAGame(games: seq<Game>, filename: string)
    ensures var m := BestMatch(filename, IndexOf(games));
      m.Some? ==> m.value in GameIds(games)
  {
    var index := IndexOf(games);
    var m := BestMatch(filename, index);
    if m.Some? {
      IndexListsDistinct(games);
      MatchIsBestWeighted(Normalize(filename), index);
      assert m.value in index.gameIdToCandidates.vals;
      CandidateMapKeys(games);
      IndexedIdsAreGames(games, "", m.value);
    }
  }
}
