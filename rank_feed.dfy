/**
 * The `rank-feed` edge function: trending posts and lessons, minus blocked authors and
 * (by default) mature content, merged with recent content of followed authors (+10,
 * first arrival wins), sorted by score, then walked once to fill at most
 * `min(limit, 50)` slots without a fourth consecutive item by the same author.
 *
 * Query results are inputs (`FeedSources`); the handler's local arrays, sets and
 * maps are local variables that its loops reassign.
 */
module RankFeed {
  import opened Common
  import opened Seqs
  import StableSort

  datatype Kind = Post | Lesson

  /** A row of `mv_trending_posts`/`posts` (`text` is the body) or `mv_trending_lessons`/`lessons` (`text` is the title). */
  datatype Row = Row(
    id: string,
    authorId: Option<string>,
    engagement: Option<int>,
    text: Option<string>,
    createdAt: Option<string>,
    isMature: bool)

  datatype Candidate = Candidate(id: string, kind: Kind, score: int, authorId: Option<string>, isMature: bool)

  /** The display fields kept in `postMeta`/`lessonMeta`: body or title, and creation time. */
  datatype Meta = Meta(text: Option<string>, createdAt: Option<string>)

  datatype RankedItem = RankedItem(
    id: string,
    kind: Kind,
    authorId: Option<string>,
    body: Option<string>,
    title: Option<string>,
    createdAt: Option<string>,
    whyShown: Option<string>)

  datatype FeedRequest = FeedRequest(userId: Option<string>, limit: Option<int>, useCurated: bool)

  /**
   * The query results: ids blocked by the user, the stored `content_prefs.mature_filter`
   * (None when absent or not a boolean), both trending views, the ids the user follows,
   * and the latest approved posts and lessons by followed, unblocked authors.
   */
  datatype FeedSources = FeedSources(
    blockedRows: seq<string>,
    matureFilterPref: Option<bool>,
    trendingPosts: seq<Row>,
    trendingLessons: seq<Row>,
    followingRows: seq<string>,
    followPosts: seq<Row>,
    followLessons: seq<Row>)

  const FollowBoost := 10
  const DiversityLimit := 3
  const CuratedReason := "From your interests and trending"

  function KindName(k: Kind): string {
    match k
    case Post => "post"
    case Lesson => "lesson"
  }

  /** The string key `${type}:${id}`. */
  function Key(kind: Kind, id: string): string {
    KindName(kind) + ":" + id
  }

  function CandidateKey(c: Candidate): string { Key(c.kind, c.id) }
  function CandidateScore(c: Candidate): int { c.score }
  function ItemKey(it: RankedItem): string { Key(it.kind, it.id) }

  /** The string key determines the pair: distinct `(type, id)` pairs never share a key. */
  lemma KeyInjective(k1: Kind, id1: string, k2: Kind, id2: string)
    ensures Key(k1, id1) == Key(k2, id2) <==> k1 == k2 && id1 == id2
  {
    if k1 == k2 {
      var n := |KindName(k1)| + 1;
      assert Key(k1, id1)[n..] == id1 && Key(k2, id2)[n..] == id2;
    } else {
      assert Key(k1, id1)[0] != Key(k2, id2)[0];
    }
  }

  /** `row.engagement_score ?? 0`. */
  function BaseScore(r: Row): int { r.engagement.GetOr(0) }

  function FromRow(r: Row, kind: Kind, boost: int): (c: Candidate)
    ensures c.id == r.id && c.kind == kind && c.authorId == r.authorId && c.isMature == r.isMature
    ensures c.score == BaseScore(r) + boost
  {
    Candidate(r.id, kind, BaseScore(r) + boost, r.authorId, r.isMature)
  }

  function MetaOf(r: Row): Meta { Meta(r.text, r.createdAt) }

  /** `blockedIds.has(author_id)`: a missing author is never blocked. */
  predicate IsBlocked(author: Option<string>, blocked: set<string>) {
    author.Some? && author.value in blocked
  }

  /** Blocks and preferences are read only for a (truthy) user id. */
  function BlockedIds(req: FeedRequest, src: FeedSources): set<string> {
    if Truthy(req.userId) then set b | b in src.blockedRows else {}
  }

  /** On by default; off only when a user's stored `mature_filter` is exactly `false`. */
  predicate MatureFilterOn(req: FeedRequest, src: FeedSources) {
    !(Truthy(req.userId) && src.matureFilterPref == Some(false))
  }

  /** The followed ids with every blocked id deleted. */
  function FollowingIds(req: FeedRequest, src: FeedSources): (ids: set<string>)
    ensures ids !! BlockedIds(req, src)
    ensures forall a :: a in ids <==> a in src.followingRows && a !in BlockedIds(req, src)
  {
    (set f | f in src.followingRows) - BlockedIds(req, src)
  }

  /** What the follow queries guarantee: every row is by a followed author who is not blocked. */
  predicate FollowRowsFromFollowed(req: FeedRequest, src: FeedSources) {
    Truthy(req.userId) ==>
      forall r :: r in src.followPosts + src.followLessons ==>
        r.authorId.Some? && r.authorId.value in FollowingIds(req, src)
  }

  // ---------------------------------------------------------------------------
  // Candidate collection

  /** The candidate list and the metadata map of one content kind. */
  datatype Pool = Pool(cands: seq<Candidate>, meta: map<string, Meta>)

  predicate PassesTrending(r: Row, blocked: set<string>, matureFilter: bool) {
    !IsBlocked(r.authorId, blocked) && !(matureFilter && r.isMature)
  }

  /** The trending loop: each row that passes both filters records its metadata and is pushed unboosted. */
  function AfterTrending(p: Pool, rows: seq<Row>, kind: Kind, blocked: set<string>, matureFilter: bool): Pool
    decreases |rows|
  {
    if rows == [] then p
    else
      var q := AfterTrending(p, rows[..|rows| - 1], kind, blocked, matureFilter);
      var r := rows[|rows| - 1];
      if PassesTrending(r, blocked, matureFilter) then Pool(q.cands + [FromRow(r, kind, 0)], q.meta[r.id := MetaOf(r)])
      else q
  }

  /** `candidates.some((c) => c.id === id && c.type === kind)`. */
  predicate HasKey(cands: seq<Candidate>, kind: Kind, id: string) {
    exists c :: c in cands && c.id == id && c.kind == kind
  }

  /**
   * The follow loop: a row that passes the mature filter and whose `(type, id)` is not yet
   * a candidate records its metadata and is pushed with the follow boost.
   */
  function AfterFollow(p: Pool, rows: seq<Row>, kind: Kind, matureFilter: bool): Pool
    decreases |rows|
  {
    if rows == [] then p
    else
      var q := AfterFollow(p, rows[..|rows| - 1], kind, matureFilter);
      var r := rows[|rows| - 1];
      if (matureFilter && r.isMature) || HasKey(q.cands, kind, r.id) then q
      else Pool(q.cands + [FromRow(r, kind, FollowBoost)], q.meta[r.id := MetaOf(r)])
  }

  method GatherTrending(cands: seq<Candidate>, meta: map<string, Meta>, rows: seq<Row>, kind: Kind,
                        blocked: set<string>, matureFilter: bool)
    returns (cands': seq<Candidate>, meta': map<string, Meta>)
    ensures Pool(cands', meta') == AfterTrending(Pool(cands, meta), rows, kind, blocked, matureFilter)
  {
    cands', meta' := cands, meta;
    for i := 0 to |rows|
      invariant Pool(cands', meta') == AfterTrending(Pool(cands, meta), rows[..i], kind, blocked, matureFilter)
    {
      var row := rows[i];
      assert rows[..i + 1][..i] == rows[..i];
      if IsBlocked(row.authorId, blocked) { continue; }
      if matureFilter && row.isMature { continue; }
      meta' := meta'[row.id := MetaOf(row)];
      cands' := cands' + [FromRow(row, kind, 0)];
    }
    assert rows[..|rows|] == rows;
  }

  method MergeFollow(cands: seq<Candidate>, meta: map<string, Meta>, rows: seq<Row>, kind: Kind, matureFilter: bool)
    returns (cands': seq<Candidate>, meta': map<string, Meta>)
    ensures Pool(cands', meta') == AfterFollow(Pool(cands, meta), rows, kind, matureFilter)
  {
    cands', meta' := cands, meta;
    for i := 0 to |rows|
      invariant Pool(cands', meta') == AfterFollow(Pool(cands, meta), rows[..i], kind, matureFilter)
    {
      var row := rows[i];
      assert rows[..i + 1][..i] == rows[..i];
      if matureFilter && row.isMature { continue; }
      if !HasKey(cands', kind, row.id) {
        meta' := meta'[row.id := MetaOf(row)];
        cands' := cands' + [FromRow(row, kind, FollowBoost)];
      }
    }
    assert rows[..|rows|] == rows;
  }

  /**
   * The trending loop keeps what it was given, and appends exactly unboosted copies of rows
   * that pass both filters: nothing by a blocked author, nothing mature while the filter is on.
   */
  lemma {:induction false} TrendingSound(p: Pool, rows: seq<Row>, kind: Kind, blocked: set<string>, matureFilter: bool)
    ensures var q := AfterTrending(p, rows, kind, blocked, matureFilter);
      && |p.cands| <= |q.cands| && q.cands[..|p.cands|] == p.cands
      && p.meta.Keys <= q.meta.Keys
      && forall k :: |p.cands| <= k < |q.cands| ==>
           && q.cands[k].kind == kind
           && q.cands[k].id in q.meta
           && !IsBlocked(q.cands[k].authorId, blocked)
           && !(matureFilter && q.cands[k].isMature)
           && exists j :: 0 <= j < |rows| && q.cands[k] == FromRow(rows[j], kind, 0)
    decreases |rows|
  {
    if rows != [] {
      var front := rows[..|rows| - 1];
      TrendingSound(p, front, kind, blocked, matureFilter);
      var q := AfterTrending(p, front, kind, blocked, matureFilter);
      var q' := AfterTrending(p, rows, kind, blocked, matureFilter);
      forall k | |p.cands| <= k < |q.cands|
        ensures exists j :: 0 <= j < |rows| && q.cands[k] == FromRow(rows[j], kind, 0)
      {
        var j :| 0 <= j < |front| && q.cands[k] == FromRow(front[j], kind, 0);
        assert front[j] == rows[j];
      }
      if PassesTrending(rows[|rows| - 1], blocked, matureFilter) {
        assert q'.cands == q.cands + [FromRow(rows[|rows| - 1], kind, 0)];
      }
    }
  }

  /** Every row that passes both filters is among the candidates, unboosted. */
  lemma {:induction false} TrendingComplete(p: Pool, rows: seq<Row>, kind: Kind, blocked: set<string>, matureFilter: bool, j: int)
    requires 0 <= j < |rows| && PassesTrending(rows[j], blocked, matureFilter)
    ensures FromRow(rows[j], kind, 0) in AfterTrending(p, rows, kind, blocked, matureFilter).cands
    decreases |rows|
  {
    var front := rows[..|rows| - 1];
    var q := AfterTrending(p, front, kind, blocked, matureFilter);
    if j < |rows| - 1 {
      assert front[j] == rows[j];
      TrendingComplete(p, front, kind, blocked, matureFilter, j);
      TrendingSound(p, rows, kind, blocked, matureFilter);
    } else {
      assert AfterTrending(p, rows, kind, blocked, matureFilter).cands == q.cands + [FromRow(rows[j], kind, 0)];
    }
  }

  /** `postMeta.set` overwrites: the metadata kept for an id is that of the last passing row with it. */
  lemma {:induction false} TrendingMetaLastWins(p: Pool, rows: seq<Row>, kind: Kind, blocked: set<string>, matureFilter: bool, j: int)
    requires 0 <= j < |rows| && PassesTrending(rows[j], blocked, matureFilter)
    requires forall j' :: j < j' < |rows| && PassesTrending(rows[j'], blocked, matureFilter) ==> rows[j'].id != rows[j].id
    ensures var q := AfterTrending(p, rows, kind, blocked, matureFilter);
      rows[j].id in q.meta && q.meta[rows[j].id] == MetaOf(rows[j])
    decreases |rows|
  {
    var front := rows[..|rows| - 1];
    if j < |rows| - 1 {
      assert front[j] == rows[j];
      forall j' | j < j' < |front| && PassesTrending(front[j'], blocked, matureFilter)
        ensures front[j'].id != front[j].id
      {
        assert front[j'] == rows[j'];
      }
      TrendingMetaLastWins(p, front, kind, blocked, matureFilter, j);
    }
  }

  /**
   * The follow loop keeps every earlier candidate unchanged, first arrival winning: an item
   * that came from trending keeps its unboosted score, and its metadata entry is not overwritten.
   */
  lemma {:induction false} FollowKeepsEarlier(p: Pool, rows: seq<Row>, kind: Kind, matureFilter: bool)
    ensures var q := AfterFollow(p, rows, kind, matureFilter);
      && |p.cands| <= |q.cands| && q.cands[..|p.cands|] == p.cands
      && p.meta.Keys <= q.meta.Keys
      && (forall id :: id in p.meta && HasKey(p.cands, kind, id) ==> q.meta[id] == p.meta[id])
    decreases |rows|
  {
    if rows != [] {
      var front := rows[..|rows| - 1];
      FollowKeepsEarlier(p, front, kind, matureFilter);
      var q := AfterFollow(p, front, kind, matureFilter);
      var r := rows[|rows| - 1];
      if !((matureFilter && r.isMature) || HasKey(q.cands, kind, r.id)) {
        var q' := AfterFollow(p, rows, kind, matureFilter);
        assert q'.cands == q.cands + [FromRow(r, kind, FollowBoost)];
        forall id | id in p.meta && HasKey(p.cands, kind, id) ensures q'.meta[id] == p.meta[id] {
          var c :| c in p.cands && c.id == id && c.kind == kind;
          var i :| 0 <= i < |p.cands| && p.cands[i] == c;
          assert q.cands[i] == c;
        }
      }
    }
  }

  /**
   * Each candidate the follow loop appends is a follow row with score `engagement_score + 10`,
   * not mature while the filter is on, and with a metadata entry.
   */
  lemma {:induction false} FollowAppendsBoosted(p: Pool, rows: seq<Row>, kind: Kind, matureFilter: bool)
    ensures var q := AfterFollow(p, rows, kind, matureFilter);
      forall k :: |p.cands| <= k < |q.cands| ==>
        && q.cands[k].kind == kind
        && q.cands[k].id in q.meta
        && !(matureFilter && q.cands[k].isMature)
        && exists j :: 0 <= j < |rows| && q.cands[k] == FromRow(rows[j], kind, FollowBoost)
    decreases |rows|
  {
    if rows != [] {
      var front := rows[..|rows| - 1];
      FollowAppendsBoosted(p, front, kind, matureFilter);
      FollowKeepsEarlier(p, front, kind, matureFilter);
      var q := AfterFollow(p, front, kind, matureFilter);
      forall k | |p.cands| <= k < |q.cands|
        ensures exists j :: 0 <= j < |rows| && q.cands[k] == FromRow(rows[j], kind, FollowBoost)
      {
        var j :| 0 <= j < |front| && q.cands[k] == FromRow(front[j], kind, FollowBoost);
        assert front[j] == rows[j];
      }
      var r := rows[|rows| - 1];
      if !((matureFilter && r.isMature) || HasKey(q.cands, kind, r.id)) {
        var q' := AfterFollow(p, rows, kind, matureFilter);
        assert q'.cands == q.cands + [FromRow(r, kind, FollowBoost)];
      }
    }
  }

  /** No appended candidate repeats a `(type, id)` that was a candidate before it. */
  lemma {:induction false} FollowAppendsFresh(p: Pool, rows: seq<Row>, kind: Kind, matureFilter: bool)
    ensures var q := AfterFollow(p, rows, kind, matureFilter);
      forall k :: |p.cands| <= k < |q.cands| ==> q.cands[k].kind == kind && !HasKey(q.cands[..k], kind, q.cands[k].id)
    decreases |rows|
  {
    if rows != [] {
      var front := rows[..|rows| - 1];
      FollowAppendsFresh(p, front, kind, matureFilter);
      FollowKeepsEarlier(p, front, kind, matureFilter);
      var q := AfterFollow(p, front, kind, matureFilter);
      var r := rows[|rows| - 1];
      if !((matureFilter && r.isMature) || HasKey(q.cands, kind, r.id)) {
        var q' := AfterFollow(p, rows, kind, matureFilter);
        assert q'.cands == q.cands + [FromRow(r, kind, FollowBoost)];
        forall k | |p.cands| <= k < |q'.cands|
          ensures q'.cands[k].kind == kind && !HasKey(q'.cands[..k], kind, q'.cands[k].id)
        {
          if k < |q.cands| {
            assert q'.cands[..k] == q.cands[..k];
          } else {
            assert q'.cands[..k] == q.cands;
          }
        }
      }
    }
  }

  /** Every follow row that passes the mature filter has its `(type, id)` among the candidates afterwards. */
  lemma {:induction false} FollowCovers(p: Pool, rows: seq<Row>, kind: Kind, matureFilter: bool, j: int)
    requires 0 <= j < |rows| && !(matureFilter && rows[j].isMature)
    ensures HasKey(AfterFollow(p, rows, kind, matureFilter).cands, kind, rows[j].id)
    decreases |rows|
  {
    var front := rows[..|rows| - 1];
    var q := AfterFollow(p, front, kind, matureFilter);
    FollowKeepsEarlier(p, front, kind, matureFilter);
    var q' := AfterFollow(p, rows, kind, matureFilter);
    assert q'.cands[..|q.cands|] == q.cands;
    if j < |rows| - 1 {
      assert front[j] == rows[j];
      FollowCovers(p, front, kind, matureFilter, j);
      var c :| c in q.cands && c.id == rows[j].id && c.kind == kind;
      var i :| 0 <= i < |q.cands| && q.cands[i] == c;
      assert q'.cands[i] == c;
    } else if HasKey(q.cands, kind, rows[j].id) {
      var c :| c in q.cands && c.id == rows[j].id && c.kind == kind;
      var i :| 0 <= i < |q.cands| && q.cands[i] == c;
      assert q'.cands[i] == c;
    } else {
      assert q'.cands == q.cands + [FromRow(rows[j], kind, FollowBoost)];
      assert q'.cands[|q.cands|] == FromRow(rows[j], kind, FollowBoost);
    }
  }

  // ---------------------------------------------------------------------------
  // Diversity selection

  /** The selection loop's state: `items` (as candidates), `consecutiveSameAuthor`, `lastAuthorId`, `seen`. */
  datatype Selection = Selection(picked: seq<Candidate>, consecutive: int, lastAuthor: Option<string>, seen: set<string>)

  /** One iteration of the loop over the sorted candidates. A missing author is the one value `null`. */
  function SelectStep(st: Selection, c: Candidate, take: int): Selection {
    if |st.picked| >= take then st
    else if CandidateKey(c) in st.seen then st
    else if c.authorId == st.lastAuthor then
      if st.consecutive + 1 >= DiversityLimit then st.(consecutive := st.consecutive + 1)
      else Selection(st.picked + [c], st.consecutive + 1, st.lastAuthor, st.seen + {CandidateKey(c)})
    else Selection(st.picked + [c], 0, c.authorId, st.seen + {CandidateKey(c)})
  }

  /** The loop run over `cs`, starting from no items, a zero counter and `lastAuthorId = null`. */
  function Selected(cs: seq<Candidate>, take: int): Selection
    decreases |cs|
  {
    if cs == [] then Selection([], 0, None, {})
    else SelectStep(Selected(cs[..|cs| - 1], take), cs[|cs| - 1], take)
  }

  /** No four consecutive entries are equal (a missing author counting as one value, `null`). */
  predicate NoFourInARow<T(==)>(a: seq<T>) {
    forall i :: 0 <= i && i + 3 < |a| ==> !(a[i] == a[i + 1] && a[i + 1] == a[i + 2] && a[i + 2] == a[i + 3])
  }

  /** The sequence does not open with three missing authors. */
  predicate AtMostTwoLeadingMissing(a: seq<Option<string>>) {
    !(|a| >= 3 && a[0] == None && a[1] == None && a[2] == None)
  }

  function Authors(cs: seq<Candidate>): (a: seq<Option<string>>)
    ensures |a| == |cs| && forall k :: 0 <= k < |cs| ==> a[k] == cs[k].authorId
  {
    seq(|cs|, k requires 0 <= k < |cs| => cs[k].authorId)
  }

  /** The authors of the feed items, in order. */
  function ItemAuthors(items: seq<RankedItem>): seq<Option<string>> {
    seq(|items|, k requires 0 <= k < |items| => items[k].authorId)
  }

  /** The number of trailing elements whose author is `a`. */
  function TrailRun(s: seq<Candidate>, a: Option<string>): nat
    decreases |s|
  {
    if s == [] || s[|s| - 1].authorId != a then 0 else 1 + TrailRun(s[..|s| - 1], a)
  }

  function KeySet(s: seq<Candidate>): set<string> {
    set c | c in s :: CandidateKey(c)
  }

  predicate AllMissingAuthor(s: seq<Candidate>) {
    forall k :: 0 <= k < |s| ==> s[k].authorId == None
  }

  /** `seen` holds exactly the keys of the items kept so far, and no key was kept twice. */
  predicate KeysInv(st: Selection) {
    st.seen == KeySet(st.picked) && Distinct(st.picked, CandidateKey)
  }

  /**
   * `lastAuthorId` is the author of the last item kept (`null` before any), the counter bounds
   * the length of the trailing run of that author, and while only missing-author items were
   * kept, from the initial `null`, the counter is at least their number.
   */
  predicate RunInv(st: Selection) {
    && st.consecutive >= 0
    && (st.picked == [] ==> st.lastAuthor == None)
    && (st.picked != [] ==> st.lastAuthor == st.picked[|st.picked| - 1].authorId)
    && TrailRun(st.picked, st.lastAuthor) <= st.consecutive + 1
    && (AllMissingAuthor(st.picked) && st.lastAuthor == None ==> |st.picked| <= st.consecutive)
  }

  predicate ShapeInv(st: Selection) {
    NoFourInARow(Authors(st.picked)) && AtMostTwoLeadingMissing(Authors(st.picked))
  }

  /** What the loop keeps true of its state between iterations. */
  predicate SelectionInv(st: Selection, take: int) {
    && |st.picked| <= (if take < 0 then 0 else take)
    && KeysInv(st)
    && RunInv(st)
    && ShapeInv(st)
  }

  lemma StepKeepsKeys(st: Selection, c: Candidate, take: int)
    requires KeysInv(st)
    ensures KeysInv(SelectStep(st, c, take))
  {
    var st' := SelectStep(st, c, take);
    var p := st.picked;
    if st'.picked != p {
      var p' := p + [c];
      assert st'.picked == p' && st'.seen == st.seen + {CandidateKey(c)};
      assert CandidateKey(c) !in KeySet(p);
      assert KeySet(p') == KeySet(p) + {CandidateKey(c)};
      forall i, j | 0 <= i < j < |p'| ensures CandidateKey(p'[i]) != CandidateKey(p'[j]) {
        if j == |p| {
          assert p'[i] == p[i];
          assert CandidateKey(p[i]) in KeySet(p);
        } else {
          assert p'[i] == p[i] && p'[j] == p[j];
        }
      }
    }
  }

  lemma StepKeepsRun(st: Selection, c: Candidate, take: int)
    requires RunInv(st)
    ensures RunInv(SelectStep(st, c, take))
  {
    var st' := SelectStep(st, c, take);
    var p := st.picked;
    if st'.picked != p {
      var p' := p + [c];
      assert st'.picked == p';
      assert p'[..|p|] == p;
      if c.authorId != st.lastAuthor {
        assert st'.lastAuthor == c.authorId && st'.consecutive == 0;
        assert TrailRun(p', c.authorId) == 1 + TrailRun(p, c.authorId);
        if p != [] {
          assert TrailRun(p, c.authorId) == 0;
          assert p'[|p| - 1] == p[|p| - 1];
        }
      } else {
        assert st'.lastAuthor == st.lastAuthor && st'.consecutive == st.consecutive + 1;
        assert TrailRun(p', c.authorId) == 1 + TrailRun(p, st.lastAuthor);
        if AllMissingAuthor(p') {
          forall k | 0 <= k < |p| ensures p[k].authorId == None { assert p'[k] == p[k]; }
        }
      }
    }
  }

  /** Three trailing elements by `a` make a trailing run of at least three. */
  lemma TrailRunOfThree(p: seq<Candidate>, a: Option<string>)
    requires |p| >= 3
    ensures p[|p| - 3].authorId == a && p[|p| - 2].authorId == a && p[|p| - 1].authorId == a ==> TrailRun(p, a) >= 3
  {
    var n := |p|;
    if p[n - 3].authorId == a && p[n - 2].authorId == a && p[n - 1].authorId == a {
      var q1, q2 := p[..n - 1], p[..n - 2];
      assert q1[|q1| - 1] == p[n - 2] && q1[..|q1| - 1] == q2;
      assert q2[|q2| - 1] == p[n - 3];
      assert TrailRun(q2, a) >= 1;
      assert TrailRun(q1, a) >= 2;
    }
  }

  lemma AppendKeepsNoFour<T>(a: seq<T>, x: T)
    requires NoFourInARow(a)
    requires !(|a| >= 3 && a[|a| - 3] == x && a[|a| - 2] == x && a[|a| - 1] == x)
    ensures NoFourInARow(a + [x])
  {
    var a', n := a + [x], |a|;
    forall i | 0 <= i && i + 3 < |a'|
      ensures !(a'[i] == a'[i + 1] && a'[i + 1] == a'[i + 2] && a'[i + 2] == a'[i + 3])
    {
      if i + 3 < n {
        assert a'[i] == a[i] && a'[i + 1] == a[i + 1] && a'[i + 2] == a[i + 2] && a'[i + 3] == a[i + 3];
      } else {
        assert a'[i] == a[n - 3] && a'[i + 1] == a[n - 2] && a'[i + 2] == a[n - 1] && a'[i + 3] == x;
      }
    }
  }

  lemma AppendKeepsLeading(a: seq<Option<string>>, x: Option<string>)
    requires AtMostTwoLeadingMissing(a)
    requires !(|a| == 2 && a[0] == None && a[1] == None && x == None)
    ensures AtMostTwoLeadingMissing(a + [x])
  {
    var a' := a + [x];
    if |a| >= 3 {
      assert a'[0] == a[0] && a'[1] == a[1] && a'[2] == a[2];
    } else if |a| == 2 {
      assert a'[0] == a[0] && a'[1] == a[1] && a'[2] == x;
    }
  }

  lemma TwoMissing(p: seq<Candidate>)
    requires |p| == 2
    ensures AllMissingAuthor(p) <==> p[0].authorId == None && p[1].authorId == None
  {
  }

  lemma StepKeepsShape(st: Selection, c: Candidate, take: int)
    requires RunInv(st) && ShapeInv(st)
    ensures ShapeInv(SelectStep(st, c, take))
  {
    var st' := SelectStep(st, c, take);
    var p, n := st.picked, |st.picked|;
    if st'.picked != p {
      assert st'.picked == p + [c];
      if n >= 3 {
        TrailRunOfThree(p, c.authorId);
      }
      if n == 2 {
        TwoMissing(p);
      }
      assert Authors(p + [c]) == Authors(p) + [c.authorId];
      AppendKeepsNoFour(Authors(p), c.authorId);
      AppendKeepsLeading(Authors(p), c.authorId);
    }
  }

  lemma StepKeepsInv(st: Selection, c: Candidate, take: int)
    requires SelectionInv(st, take)
    ensures SelectionInv(SelectStep(st, c, take), take)
  {
    StepKeepsKeys(st, c, take);
    StepKeepsRun(st, c, take);
    StepKeepsShape(st, c, take);
  }

  /**
   * The guarantees of the selection pass: at most `take` items, an order-preserving
   * subsequence of the sorted candidates, no key twice, never four consecutive items by the
   * same author (a missing author being the single value `null`), and, because
   * `lastAuthorId` starts as `null`, at most two missing-author items at the very start.
   */
  lemma {:induction false} SelectionSound(cs: seq<Candidate>, take: int)
    ensures var p := Selected(cs, take).picked;
      && |p| <= (if take < 0 then 0 else take)
      && IsSubsequence(p, cs)
      && Distinct(p, CandidateKey)
      && NoFourInARow(Authors(p))
      && AtMostTwoLeadingMissing(Authors(p))
  {
    SelectionKeepsInv(cs, take);
    SelectionIsSubsequence(cs, take);
  }

  lemma {:induction false} SelectionKeepsInv(cs: seq<Candidate>, take: int)
    ensures SelectionInv(Selected(cs, take), take)
    decreases |cs|
  {
    if cs != [] {
      SelectionKeepsInv(cs[..|cs| - 1], take);
      StepKeepsInv(Selected(cs[..|cs| - 1], take), cs[|cs| - 1], take);
    }
  }

  lemma {:induction false} SelectionIsSubsequence(cs: seq<Candidate>, take: int)
    ensures IsSubsequence(Selected(cs, take).picked, cs)
    decreases |cs|
  {
    if cs != [] {
      var front := cs[..|cs| - 1];
      var c := cs[|cs| - 1];
      SelectionIsSubsequence(front, take);
      var st := Selected(front, take);
      assert cs == front + [c];
      if SelectStep(st, c, take).picked == st.picked {
        SubsequenceExtend(st.picked, front, c);
      } else {
        assert SelectStep(st, c, take).picked == st.picked + [c];
        SubsequenceAppend(st.picked, front, c);
      }
    }
  }

  /** Once the page is full, later candidates change nothing: the `break` of the loop. */
  lemma {:induction false} SelectedSaturated(cs: seq<Candidate>, i: nat, take: int)
    requires i <= |cs| && |Selected(cs[..i], take).picked| >= take
    ensures Selected(cs, take) == Selected(cs[..i], take)
    decreases |cs| - i
  {
    if i < |cs| {
      assert cs[..i + 1][..i] == cs[..i];
      SelectedSaturated(cs, i + 1, take);
    } else {
      assert cs[..i] == cs;
    }
  }

  /**
   * Why the loop passes over candidate `c` in state `st`: the page is full, its key is
   * already kept, or it would extend its author's run to the limit.
   */
  predicate Skipped(st: Selection, c: Candidate, take: int) {
    || |st.picked| >= take
    || CandidateKey(c) in st.seen
    || (c.authorId == st.lastAuthor && st.consecutive + 1 >= DiversityLimit)
  }

  /** The items kept after a prefix of the candidates open the items kept after all of them. */
  lemma {:induction false} SelectedGrows(cs: seq<Candidate>, take: int, j: nat)
    requires j <= |cs|
    ensures var q, p := Selected(cs[..j], take).picked, Selected(cs, take).picked;
      |q| <= |p| && p[..|q|] == q
    decreases |cs| - j
  {
    if j == |cs| {
      assert cs[..j] == cs;
    } else {
      SelectedGrows(cs, take, j + 1);
      assert cs[..j + 1][..j] == cs[..j];
      var q := Selected(cs[..j], take).picked;
      var q' := Selected(cs[..j + 1], take).picked;
      var p := Selected(cs, take).picked;
      assert q' == q || q' == q + [cs[j]];
      assert p[..|q'|][..|q|] == p[..|q|];
    }
  }

  /**
   * The pass decides each candidate from the state the earlier ones left: `cs[k]` is
   * passed over exactly when `Skipped` holds of that state, and otherwise it is the next
   * item kept, at position `|st.picked|` of the final selection.
   */
  lemma SelectedDecides(cs: seq<Candidate>, take: int, k: nat)
    requires k < |cs|
    ensures var st, p := Selected(cs[..k], take), Selected(cs, take).picked;
      && |st.picked| <= |p| && p[..|st.picked|] == st.picked
      && (Skipped(st, cs[k], take) ==> Selected(cs[..k + 1], take).picked == st.picked)
      && (!Skipped(st, cs[k], take) ==>
            Selected(cs[..k + 1], take).picked == st.picked + [cs[k]]
            && |st.picked| < |p| && p[|st.picked|] == cs[k])
  {
    assert cs[..k + 1][..k] == cs[..k];
    SelectedGrows(cs, take, k);
    SelectedGrows(cs, take, k + 1);
    var st := Selected(cs[..k], take);
    var q' := Selected(cs[..k + 1], take).picked;
    var p := Selected(cs, take).picked;
    if !Skipped(st, cs[k], take) {
      assert q'[|st.picked|] == cs[k];
      assert p[..|q'|][|st.picked|] == p[|st.picked|];
    }
  }

  /** A candidate that is not kept was passed over for one of the three reasons. */
  lemma NotKeptWasSkipped(cs: seq<Candidate>, take: int, k: nat)
    requires k < |cs| && cs[k] !in Selected(cs, take).picked
    ensures Skipped(Selected(cs[..k], take), cs[k], take)
  {
    SelectedDecides(cs, take, k);
  }

  function Min3(n: nat): nat { if n < DiversityLimit then n else DiversityLimit }

  /** One step of the pass over a candidate by the author of the current run. */
  lemma SingleAuthorStep(st: Selection, c: Candidate, a: string, take: int, n: nat)
    requires c.authorId == Some(a) && CandidateKey(c) !in st.seen && take >= DiversityLimit
    requires |st.picked| == Min3(n)
    requires n == 0 ==> st.lastAuthor == None && st.consecutive == 0
    requires n > 0 ==> st.lastAuthor == Some(a) && st.consecutive >= Min3(n) - 1
    requires 0 < n <= DiversityLimit ==> st.consecutive == n - 1
    ensures var st' := SelectStep(st, c, take);
      && st'.picked == (if n < DiversityLimit then st.picked + [c] else st.picked)
      && st'.lastAuthor == Some(a)
      && st'.consecutive >= Min3(n + 1) - 1
      && (n + 1 <= DiversityLimit ==> st'.consecutive == n)
  {
  }

  /**
   * With a single non-missing author throughout and distinct keys, the pass keeps exactly
   * the first three candidates: the run limit is reached and never reset.
   */
  lemma {:induction false} SingleAuthorKeepsThree(cs: seq<Candidate>, a: string, take: int)
    requires forall k :: 0 <= k < |cs| ==> cs[k].authorId == Some(a)
    requires Distinct(cs, CandidateKey)
    requires take >= DiversityLimit
    ensures Selected(cs, take).picked == cs[..Min3(|cs|)]
    ensures cs == [] ==> Selected(cs, take).lastAuthor == None && Selected(cs, take).consecutive == 0
    ensures cs != [] ==> Selected(cs, take).lastAuthor == Some(a)
    ensures Selected(cs, take).consecutive >= Min3(|cs|) - 1
    ensures 0 < |cs| <= DiversityLimit ==> Selected(cs, take).consecutive == |cs| - 1
    decreases |cs|
  {
    if cs != [] {
      var front, c := cs[..|cs| - 1], cs[|cs| - 1];
      forall i, j | 0 <= i < j < |front| ensures CandidateKey(front[i]) != CandidateKey(front[j]) {
        assert front[i] == cs[i] && front[j] == cs[j];
      }
      SingleAuthorKeepsThree(front, a, take);
      var st := Selected(front, take);
      var m := Min3(|front|);
      assert CandidateKey(c) !in st.seen by {
        SelectionKeepsInv(front, take);
        forall x | x in st.picked ensures CandidateKey(x) != CandidateKey(c) {
          var i :| 0 <= i < m && st.picked[i] == x;
          assert x == cs[i];
        }
      }
      SingleAuthorStep(st, c, a, take, |front|);
      if |front| < DiversityLimit {
        assert front[..m] + [c] == cs[..|cs|];
      } else {
        assert cs[..DiversityLimit] == front[..DiversityLimit];
      }
    }
  }

  // ---------------------------------------------------------------------------
  // Item assembly and the handler

  /**
   * One output item: id, type and author of the candidate; a post carries the body and
   * creation time of its `postMeta` entry, a lesson the title and creation time of its
   * `lessonMeta` entry; `why_shown` is present only in curated mode.
   */
  function AssembleItem(c: Candidate, postMeta: map<string, Meta>, lessonMeta: map<string, Meta>, useCurated: bool): (it: RankedItem)
    ensures it.id == c.id && it.kind == c.kind && it.authorId == c.authorId
    ensures c.kind == Post ==> it.title == None
    ensures c.kind == Post && c.id in postMeta ==> it.body == postMeta[c.id].text && it.createdAt == postMeta[c.id].createdAt
    ensures c.kind == Lesson ==> it.body == None
    ensures c.kind == Lesson && c.id in lessonMeta ==> it.title == lessonMeta[c.id].text && it.createdAt == lessonMeta[c.id].createdAt
    ensures it.whyShown == if useCurated then Some(CuratedReason) else None
  {
    var meta := if c.kind == Post then postMeta else lessonMeta;
    var why := if useCurated then Some(CuratedReason) else None;
    if c.id in meta then
      var m := meta[c.id];
      if c.kind == Post then RankedItem(c.id, c.kind, c.authorId, m.text, None, m.createdAt, why)
      else RankedItem(c.id, c.kind, c.authorId, None, m.text, m.createdAt, why)
    else RankedItem(c.id, c.kind, c.authorId, None, None, None, why)
  }

  function Assembled(cs: seq<Candidate>, postMeta: map<string, Meta>, lessonMeta: map<string, Meta>, useCurated: bool): (items: seq<RankedItem>)
    ensures |items| == |cs|
    ensures forall k :: 0 <= k < |cs| ==> items[k] == AssembleItem(cs[k], postMeta, lessonMeta, useCurated)
  {
    seq(|cs|, k requires 0 <= k < |cs| => AssembleItem(cs[k], postMeta, lessonMeta, useCurated))
  }

  /** The selection loop over the sorted candidates, assembling each item it keeps. */
  method SelectDiverse(ranked: seq<Candidate>, take: int, postMeta: map<string, Meta>, lessonMeta: map<string, Meta>, useCurated: bool)
    returns (items: seq<RankedItem>)
    ensures items == Assembled(Selected(ranked, take).picked, postMeta, lessonMeta, useCurated)
  {
    items := [];
    ghost var picked: seq<Candidate> := [];
    var consecutive := 0;
    var lastAuthor: Option<string> := None;
    var seen: set<string> := {};
    for i := 0 to |ranked|
      invariant Selection(picked, consecutive, lastAuthor, seen) == Selected(ranked[..i], take)
      invariant items == Assembled(picked, postMeta, lessonMeta, useCurated)
    {
      assert ranked[..i + 1][..i] == ranked[..i];
      if |items| >= take {
        SelectedSaturated(ranked, i, take);
        break;
      }
      var c := ranked[i];
      var key := Key(c.kind, c.id);
      if key in seen { continue; }
      var aid := c.authorId;
      if aid == lastAuthor {
        consecutive := consecutive + 1;
        if consecutive >= DiversityLimit { continue; }
      } else {
        consecutive := 0;
        lastAuthor := aid;
      }
      seen := seen + {key};
      items := items + [AssembleItem(c, postMeta, lessonMeta, useCurated)];
      picked := picked + [c];
    }
    assert ranked[..|ranked|] == ranked;
  }

  /** Every candidate has a metadata entry for its kind. */
  predicate MetaCovers(cands: seq<Candidate>, postMeta: map<string, Meta>, lessonMeta: map<string, Meta>) {
    forall c :: c in cands ==> c.id in (if c.kind == Post then postMeta else lessonMeta)
  }

  /** What every candidate satisfies: not by a blocked author, not mature while the filter is on. */
  predicate Admissible(c: Candidate, blocked: set<string>, matureFilter: bool) {
    !IsBlocked(c.authorId, blocked) && !(matureFilter && c.isMature)
  }

  /** The trending loop preserves admissibility of the pool and metadata coverage. */
  lemma TrendingStep(p: Pool, other: map<string, Meta>, rows: seq<Row>, kind: Kind, blocked: set<string>, matureFilter: bool)
    requires forall c :: c in p.cands ==> Admissible(c, blocked, matureFilter)
    requires kind == Post ==> MetaCovers(p.cands, p.meta, other)
    requires kind == Lesson ==> MetaCovers(p.cands, other, p.meta)
    ensures var q := AfterTrending(p, rows, kind, blocked, matureFilter);
      && (forall c :: c in q.cands ==> Admissible(c, blocked, matureFilter))
      && (kind == Post ==> MetaCovers(q.cands, q.meta, other))
      && (kind == Lesson ==> MetaCovers(q.cands, other, q.meta))
  {
    TrendingSound(p, rows, kind, blocked, matureFilter);
    var q := AfterTrending(p, rows, kind, blocked, matureFilter);
    forall c | c in q.cands
      ensures Admissible(c, blocked, matureFilter) && c.id in (if c.kind == Post then (if kind == Post then q.meta else other) else (if kind == Lesson then q.meta else other))
    {
      var k :| 0 <= k < |q.cands| && q.cands[k] == c;
      if k < |p.cands| { assert p.cands[k] == c; }
    }
  }

  /** The follow loop preserves admissibility (given that its rows are by unblocked authors) and metadata coverage. */
  lemma FollowStep(p: Pool, other: map<string, Meta>, rows: seq<Row>, kind: Kind, blocked: set<string>, matureFilter: bool)
    requires forall c :: c in p.cands ==> Admissible(c, blocked, matureFilter)
    requires forall r :: r in rows ==> !IsBlocked(r.authorId, blocked)
    requires kind == Post ==> MetaCovers(p.cands, p.meta, other)
    requires kind == Lesson ==> MetaCovers(p.cands, other, p.meta)
    ensures var q := AfterFollow(p, rows, kind, matureFilter);
      && (forall c :: c in q.cands ==> Admissible(c, blocked, matureFilter))
      && (kind == Post ==> MetaCovers(q.cands, q.meta, other))
      && (kind == Lesson ==> MetaCovers(q.cands, other, q.meta))
  {
    FollowKeepsEarlier(p, rows, kind, matureFilter);
    FollowAppendsBoosted(p, rows, kind, matureFilter);
    var q := AfterFollow(p, rows, kind, matureFilter);
    forall c | c in q.cands
      ensures Admissible(c, blocked, matureFilter) && c.id in (if c.kind == Post then (if kind == Post then q.meta else other) else (if kind == Lesson then q.meta else other))
    {
      var k :| 0 <= k < |q.cands| && q.cands[k] == c;
      if k < |p.cands| {
        assert p.cands[k] == c;
      } else {
        var j :| 0 <= j < |rows| && q.cands[k] == FromRow(rows[j], kind, FollowBoost);
        assert rows[j] in rows;
      }
    }
  }

  /** Candidates of the page together with the post and the lesson metadata maps. */
  datatype Gathered = Gathered(cands: seq<Candidate>, postMeta: map<string, Meta>, lessonMeta: map<string, Meta>)

  /**
   * Candidate collection: trending posts, then trending lessons, then (for a user following
   * at least one unblocked author) the followed authors' posts, then their lessons.
   */
  function Gather(req: FeedRequest, src: FeedSources): Gathered {
    var blocked, mf := BlockedIds(req, src), MatureFilterOn(req, src);
    var p1 := AfterTrending(Pool([], map[]), src.trendingPosts, Post, blocked, mf);
    var p2 := AfterTrending(Pool(p1.cands, map[]), src.trendingLessons, Lesson, blocked, mf);
    if Truthy(req.userId) && |FollowingIds(req, src)| > 0 then
      var p3 := AfterFollow(Pool(p2.cands, p1.meta), src.followPosts, Post, mf);
      var p4 := AfterFollow(Pool(p3.cands, p2.meta), src.followLessons, Lesson, mf);
      Gathered(p4.cands, p3.meta, p4.meta)
    else Gathered(p2.cands, p1.meta, p2.meta)
  }

  /** The candidates sorted by score, highest first, ties in collection order. */
  function Ranked(req: FeedRequest, src: FeedSources): seq<Candidate> {
    StableSort.Sort(Gather(req, src).cands, CandidateScore)
  }

  /** The candidates the diversity pass keeps. */
  function Picked(req: FeedRequest, src: FeedSources): seq<Candidate> {
    Selected(Ranked(req, src), Take(req.limit)).picked
  }

  /** The response's `items`. */
  function Feed(req: FeedRequest, src: FeedSources): seq<RankedItem> {
    var g := Gather(req, src);
    SliceTo(Assembled(Picked(req, src), g.postMeta, g.lessonMeta, req.useCurated), Take(req.limit))
  }

  /** Every gathered candidate is admissible and has metadata of its own kind. */
  lemma GatherAdmissible(req: FeedRequest, src: FeedSources)
    requires FollowRowsFromFollowed(req, src)
    ensures var g := Gather(req, src);
      && (forall c :: c in g.cands ==> Admissible(c, BlockedIds(req, src), MatureFilterOn(req, src)))
      && MetaCovers(g.cands, g.postMeta, g.lessonMeta)
  {
    var blocked, mf := BlockedIds(req, src), MatureFilterOn(req, src);
    var p1 := AfterTrending(Pool([], map[]), src.trendingPosts, Post, blocked, mf);
    TrendingStep(Pool([], map[]), map[], src.trendingPosts, Post, blocked, mf);
    var p2 := AfterTrending(Pool(p1.cands, map[]), src.trendingLessons, Lesson, blocked, mf);
    TrendingStep(Pool(p1.cands, map[]), p1.meta, src.trendingLessons, Lesson, blocked, mf);
    if Truthy(req.userId) && |FollowingIds(req, src)| > 0 {
      assert forall r :: r in src.followPosts ==> r in src.followPosts + src.followLessons;
      assert forall r :: r in src.followLessons ==> r in src.followPosts + src.followLessons;
      var p3 := AfterFollow(Pool(p2.cands, p1.meta), src.followPosts, Post, mf);
      FollowStep(Pool(p2.cands, p1.meta), p2.meta, src.followPosts, Post, blocked, mf);
      FollowStep(Pool(p3.cands, p2.meta), p3.meta, src.followLessons, Lesson, blocked, mf);
    }
  }

  /** The ranked list is sorted by score and holds only admissible candidates. */
  lemma RankedSound(req: FeedRequest, src: FeedSources)
    requires FollowRowsFromFollowed(req, src)
    ensures var ranked := Ranked(req, src);
      && StableSort.SortedDesc(ranked, CandidateScore)
      && forall c :: c in ranked ==> Admissible(c, BlockedIds(req, src), MatureFilterOn(req, src))
  {
    var g := Gather(req, src);
    var ranked := Ranked(req, src);
    GatherAdmissible(req, src);
    forall c | c in ranked ensures c in g.cands {
      assert c in multiset(ranked);
    }
  }

  /** Item `k` of the feed is assembled from candidate `k` of the diversity pass. */
  lemma FeedFromPicked(req: FeedRequest, src: FeedSources)
    ensures var items, picked := Feed(req, src), Picked(req, src);
      && |items| == |picked|
      && (forall k :: 0 <= k < |items| ==>
            items[k].id == picked[k].id && items[k].kind == picked[k].kind && items[k].authorId == picked[k].authorId)
      && (forall k :: 0 <= k < |items| ==> ItemKey(items[k]) == CandidateKey(picked[k]))
      && ItemAuthors(items) == Authors(picked)
      && (forall it :: it in items ==>
            && (it.kind == Post ==> it.title == None)
            && (it.kind == Lesson ==> it.body == None)
            && it.whyShown == if req.useCurated then Some(CuratedReason) else None)
  {
    var g := Gather(req, src);
    var take := Take(req.limit);
    var picked := Picked(req, src);
    SelectionSound(Ranked(req, src), take);
    assert Feed(req, src) == Assembled(picked, g.postMeta, g.lessonMeta, req.useCurated);
  }

  /**
   * What the feed promises: at most `take` items, drawn in order from the candidates sorted
   * by score, each carrying its candidate's id, type and author; no blocked author and
   * nothing mature while the filter is on; no `(type, id)` twice; never four items in a
   * row by one author, nor three missing-author items at the start; post items carry no
   * title, lesson items no body, and `why_shown` exactly in curated mode.
   */
  lemma FeedSound(req: FeedRequest, src: FeedSources)
    requires FollowRowsFromFollowed(req, src)
    ensures var items, ranked, picked := Feed(req, src), Ranked(req, src), Picked(req, src);
      && |items| <= (if Take(req.limit) < 0 then 0 else Take(req.limit))
      && StableSort.SortedDesc(ranked, CandidateScore)
      && IsSubsequence(picked, ranked)
      && |items| == |picked|
      && (forall k :: 0 <= k < |items| ==>
            items[k].id == picked[k].id && items[k].kind == picked[k].kind && items[k].authorId == picked[k].authorId)
      && (forall c :: c in ranked ==> !IsBlocked(c.authorId, BlockedIds(req, src)))
      && (MatureFilterOn(req, src) ==> forall c :: c in ranked ==> !c.isMature)
      && (forall it :: it in items ==> !IsBlocked(it.authorId, BlockedIds(req, src)))
      && Distinct(items, ItemKey)
      && NoFourInARow(ItemAuthors(items))
      && AtMostTwoLeadingMissing(ItemAuthors(items))
      && (forall it :: it in items ==>
            && (it.kind == Post ==> it.title == None)
            && (it.kind == Lesson ==> it.body == None)
            && it.whyShown == if req.useCurated then Some(CuratedReason) else None)
  {
    var ranked, picked := Ranked(req, src), Picked(req, src);
    var items := Feed(req, src);
    RankedSound(req, src);
    SelectionSound(ranked, Take(req.limit));
    SubsequenceMembers(picked, ranked);
    FeedFromPicked(req, src);
    forall i, j | 0 <= i < j < |items| ensures ItemKey(items[i]) != ItemKey(items[j]) {
      assert ItemKey(items[i]) == CandidateKey(picked[i]) && ItemKey(items[j]) == CandidateKey(picked[j]);
    }
    forall it | it in items ensures !IsBlocked(it.authorId, BlockedIds(req, src)) {
      var k :| 0 <= k < |items| && items[k] == it;
      assert picked[k] in picked;
    }
  }

  /** The `rank-feed` handler after authentication and body parsing: it computes `Feed`. */
  method RankFeedHandler(req: FeedRequest, src: FeedSources) returns (items: seq<RankedItem>)
    ensures items == Feed(req, src)
  {
    var take := Take(req.limit);
    var blocked: set<string> := {};
    var matureFilter := true;
    if Truthy(req.userId) {
      for i := 0 to |src.blockedRows|
        invariant blocked == set b | b in src.blockedRows[..i]
      {
        assert src.blockedRows[..i + 1] == src.blockedRows[..i] + [src.blockedRows[i]];
        blocked := blocked + {src.blockedRows[i]};
      }
      assert src.blockedRows[..|src.blockedRows|] == src.blockedRows;
      if src.matureFilterPref == Some(false) {
        matureFilter := false;
      }
    }
    assert blocked == BlockedIds(req, src);
    assert matureFilter == MatureFilterOn(req, src);

    var cands: seq<Candidate> := [];
    var postMeta: map<string, Meta> := map[];
    var lessonMeta: map<string, Meta> := map[];
    cands, postMeta := GatherTrending(cands, postMeta, src.trendingPosts, Post, blocked, matureFilter);
    cands, lessonMeta := GatherTrending(cands, lessonMeta, src.trendingLessons, Lesson, blocked, matureFilter);
    if Truthy(req.userId) {
      var following := (set f | f in src.followingRows) - blocked;
      if |following| > 0 {
        cands, postMeta := MergeFollow(cands, postMeta, src.followPosts, Post, matureFilter);
        cands, lessonMeta := MergeFollow(cands, lessonMeta, src.followLessons, Lesson, matureFilter);
      }
    }
    assert Gathered(cands, postMeta, lessonMeta) == Gather(req, src);

    var ranked := StableSort.Sort(cands, CandidateScore);
    var selected := SelectDiverse(ranked, take, postMeta, lessonMeta, req.useCurated);
    items := SliceTo(selected, take);
  }
}
