/**
 * The `recommend-content` edge function: recommendations in three tiers (content by
 * followed creators, content in the user's interest categories, trending content), each
 * tier boosting the engagement score by a fixed amount and attaching a fixed reason. A
 * `type:id` key admits an item once, the first tier to offer it wins, and the result is
 * sorted by score and cut to the page size. Query results are inputs.
 */
module RecommendContent {
  import opened Common
  import opened Seqs
  import opened Text
  import StableSort

  /** A content row as the queries select it. */
  datatype Item = Item(id: string, engagement: Option<int>)

  /** A past interaction: `content_type` and `content_id`. */
  datatype Interaction = Interaction(contentType: string, contentId: string)

  datatype Reason = FromFollow | FromInterest | Trending

  /** One entry of `recommendations`. */
  datatype Rec = Rec(id: string, typ: string, score: int, reason: Reason)

  /** One output item: `id`, `type` and `why_shown`. */
  datatype RecItem = RecItem(id: string, typ: string, whyShown: string)

  /** The request body: `user_id`, `limit` and `content_type`. */
  datatype RecRequest = RecRequest(userId: Option<string>, limit: Option<int>, contentType: Option<string>)

  /**
   * The query results. Follow rows are by followed creators and interest rows in the
   * interest categories; both are approved content. `categoryIds` are the ids of the
   * categories whose slugs are the user's interests.
   */
  datatype RecSources = RecSources(
    interests: Option<seq<string>>,
    followedIds: seq<string>,
    interactions: seq<Interaction>,
    categoryIds: seq<string>,
    followPosts: seq<Item>,
    followLessons: seq<Item>,
    interestPosts: seq<Item>,
    interestLessons: seq<Item>,
    trendingPosts: seq<Item>,
    trendingLessons: seq<Item>)

  const FollowBoost := 20
  const InterestBoost := 10

  function Boost(reason: Reason): int {
    match reason
    case FromFollow => FollowBoost
    case FromInterest => InterestBoost
    case Trending => 0
  }

  function ReasonText(reason: Reason): string {
    match reason
    case FromFollow => "From creators you follow"
    case FromInterest => "Matches your interests"
    case Trending => "Trending now"
  }

  /** The type is read off the id: "post" exactly when the id starts with "post". */
  function TypeOf(id: string): (t: string)
    ensures t == "post" <==> StartsWith(id, "post")
    ensures t == "post" || t == "lesson"
  {
    if StartsWith(id, "post") then "post" else "lesson"
  }

  function KeyOf(typ: string, id: string): string { typ + ":" + id }

  /** The key an id is looked up under. */
  function IdKey(id: string): string { KeyOf(TypeOf(id), id) }

  function RecKey(r: Rec): string { KeyOf(r.typ, r.id) }

  function RecScore(r: Rec): int { r.score }

  /** An id's key determines the id. */
  lemma IdKeyInjective(a: string, b: string)
    ensures IdKey(a) == IdKey(b) <==> a == b
  {
    if TypeOf(a) != TypeOf(b) {
      assert IdKey(a)[0] != IdKey(b)[0];
    } else {
      var n := |TypeOf(a)| + 1;
      assert IdKey(a)[n..] == a && IdKey(b)[n..] == b;
    }
  }

  /** The seen-set seeded from past interactions. */
  function InteractionKeys(xs: seq<Interaction>): set<string> {
    set x | x in xs :: KeyOf(x.contentType, x.contentId)
  }

  function Keys(recs: seq<Rec>): set<string> {
    set r | r in recs :: RecKey(r)
  }

  /**
   * The rows of one tier: the post query yields nothing when `content_type` is "lesson",
   * the lesson query nothing when it is "post"; posts come first.
   */
  function TierRows(ct: Option<string>, posts: seq<Item>, lessons: seq<Item>): (rows: seq<Item>)
    ensures forall x :: x in rows <==> (ct != Some("lesson") && x in posts) || (ct != Some("post") && x in lessons)
    ensures ct == Some("lesson") ==> rows == lessons
    ensures ct == Some("post") ==> rows == posts
    ensures ct != Some("lesson") && ct != Some("post") ==>
      |rows| == |posts| + |lessons| && rows[..|posts|] == posts && rows[|posts|..] == lessons
  {
    (if ct != Some("lesson") then posts else []) + (if ct != Some("post") then lessons else [])
  }

  /** The entry a row becomes in a tier: its id, the type of its id, the boosted score and the reason. */
  function Entry(r: Item, reason: Reason): (e: Rec)
    ensures e.id == r.id && e.typ == TypeOf(r.id) && e.reason == reason
    ensures e.score == r.engagement.GetOr(0) + Boost(reason)
    ensures RecKey(e) == IdKey(r.id)
  {
    Rec(r.id, TypeOf(r.id), r.engagement.GetOr(0) + Boost(reason), reason)
  }

  /** The recommendations so far and the seen-set guarding the current loop. */
  datatype Acc = Acc(recs: seq<Rec>, seen: set<string>)

  /** One tier loop: a row whose key is unseen is pushed and its key marked seen. */
  function AfterTier(a: Acc, rows: seq<Item>, reason: Reason): Acc
    decreases |rows|
  {
    if rows == [] then a
    else
      var q := AfterTier(a, rows[..|rows| - 1], reason);
      var r := rows[|rows| - 1];
      if IdKey(r.id) in q.seen then q
      else Acc(q.recs + [Entry(r, reason)], q.seen + {IdKey(r.id)})
  }

  /** The `for ... of` loop of one tier over already-fetched rows. */
  method AddTier(recs: seq<Rec>, seen: set<string>, rows: seq<Item>, reason: Reason)
    returns (recs': seq<Rec>, seen': set<string>)
    ensures Acc(recs', seen') == AfterTier(Acc(recs, seen), rows, reason)
  {
    recs', seen' := recs, seen;
    for i := 0 to |rows|
      invariant Acc(recs', seen') == AfterTier(Acc(recs, seen), rows[..i], reason)
    {
      assert rows[..i + 1][..i] == rows[..i];
      var item := rows[i];
      var key := TypeOf(item.id) + ":" + item.id;
      if key !in seen' {
        recs' := recs' + [Rec(item.id, TypeOf(item.id), item.engagement.GetOr(0) + Boost(reason), reason)];
        seen' := seen' + {key};
      }
    }
    assert rows[..|rows|] == rows;
  }

  /** A tier keeps the entries it was given and never forgets a seen key. */
  lemma {:induction false} TierKeepsEarlier(a: Acc, rows: seq<Item>, reason: Reason)
    ensures var q := AfterTier(a, rows, reason);
      && |a.recs| <= |q.recs| && q.recs[..|a.recs|] == a.recs && a.seen <= q.seen
    decreases |rows|
  {
    if rows != [] {
      TierKeepsEarlier(a, rows[..|rows| - 1], reason);
    }
  }

  /**
   * Each entry `q` holds beyond those of `a` carries the reason, a key not in `a.seen`, and
   * the id and boosted score of one of the rows.
   */
  predicate AppendedFrom(a: Acc, q: Acc, rows: seq<Item>, reason: Reason) {
    forall k :: |a.recs| <= k < |q.recs| ==>
      && q.recs[k].reason == reason
      && q.recs[k].typ == TypeOf(q.recs[k].id)
      && RecKey(q.recs[k]) !in a.seen
      && exists j :: 0 <= j < |rows| && q.recs[k] == Entry(rows[j], reason)
  }

  /** Each entry a tier appends is the entry of one of its rows, under a key unseen when it began. */
  lemma {:induction false} TierAppends(a: Acc, rows: seq<Item>, reason: Reason)
    ensures AppendedFrom(a, AfterTier(a, rows, reason), rows, reason)
    decreases |rows|
  {
    if rows != [] {
      var front := rows[..|rows| - 1];
      TierAppends(a, front, reason);
      TierKeepsEarlier(a, front, reason);
      var q0 := AfterTier(a, front, reason);
      var q := AfterTier(a, rows, reason);
      forall k | |a.recs| <= k < |q.recs|
        ensures exists j :: 0 <= j < |rows| && q.recs[k] == Entry(rows[j], reason)
      {
        if k < |q0.recs| {
          var j :| 0 <= j < |front| && q0.recs[k] == Entry(front[j], reason);
          assert q.recs[k] == q0.recs[k] && front[j] == rows[j];
        } else {
          assert q.recs[k] == Entry(rows[|rows| - 1], reason);
        }
      }
    }
  }

  /** With `seen` made of `base` and the keys of the entries, a tier keeps it so. */
  lemma {:induction false} TierSeen(a: Acc, rows: seq<Item>, reason: Reason, base: set<string>)
    requires a.seen == base + Keys(a.recs)
    ensures var q := AfterTier(a, rows, reason); q.seen == base + Keys(q.recs)
    decreases |rows|
  {
    if rows != [] {
      var front := rows[..|rows| - 1];
      TierSeen(a, front, reason, base);
      var q0 := AfterTier(a, front, reason);
      var r := rows[|rows| - 1];
      if IdKey(r.id) !in q0.seen {
        assert Keys(q0.recs + [Entry(r, reason)]) == Keys(q0.recs) + {IdKey(r.id)};
      }
    }
  }

  /** A tier whose seen-set covers its entries' keys pushes no key twice. */
  lemma {:induction false} TierDistinct(a: Acc, rows: seq<Item>, reason: Reason)
    requires Keys(a.recs) <= a.seen && Distinct(a.recs, RecKey)
    ensures var q := AfterTier(a, rows, reason); Keys(q.recs) <= q.seen && Distinct(q.recs, RecKey)
    decreases |rows|
  {
    if rows != [] {
      var front := rows[..|rows| - 1];
      TierDistinct(a, front, reason);
      var q0 := AfterTier(a, front, reason);
      var r := rows[|rows| - 1];
      if IdKey(r.id) !in q0.seen {
        var recs := q0.recs + [Entry(r, reason)];
        assert Keys(recs) == Keys(q0.recs) + {IdKey(r.id)};
        forall i, j | 0 <= i < j < |recs| ensures RecKey(recs[i]) != RecKey(recs[j]) {
          if j == |q0.recs| {
            assert recs[i] == q0.recs[i] && recs[i] in q0.recs;
          } else {
            assert recs[i] == q0.recs[i] && recs[j] == q0.recs[j];
          }
        }
      }
    }
  }

  /** After a tier, the key of every one of its rows is seen. */
  lemma {:induction false} TierCovers(a: Acc, rows: seq<Item>, reason: Reason, j: int)
    requires 0 <= j < |rows|
    ensures IdKey(rows[j].id) in AfterTier(a, rows, reason).seen
    decreases |rows|
  {
    var front := rows[..|rows| - 1];
    if j < |rows| - 1 {
      TierCovers(a, front, reason, j);
      assert front[j] == rows[j];
      TierKeepsEarlier(AfterTier(a, front, reason), [], reason);
    }
  }

  // ---------------------------------------------------------------------------
  // The three tiers

  predicate FollowTierOn(req: RecRequest, src: RecSources) {
    Truthy(req.userId) && |src.followedIds| > 0
  }

  /** `interests && interests.length > 0`, and at least one matching category. */
  predicate InterestTierOn(req: RecRequest, src: RecSources) {
    Truthy(req.userId) && src.interests.Some? && |src.interests.value| > 0 && |src.categoryIds| > 0
  }

  function FollowRows(req: RecRequest, src: RecSources): seq<Item> {
    TierRows(req.contentType, src.followPosts, src.followLessons)
  }

  function InterestRows(req: RecRequest, src: RecSources): seq<Item> {
    TierRows(req.contentType, src.interestPosts, src.interestLessons)
  }

  function TrendingRows(req: RecRequest, src: RecSources): seq<Item> {
    TierRows(req.contentType, src.trendingPosts, src.trendingLessons)
  }

  /** The state after the follow tier: seen starts from the interaction keys. */
  function AfterFollowTier(req: RecRequest, src: RecSources): Acc {
    var start := Acc([], InteractionKeys(src.interactions));
    if FollowTierOn(req, src) then AfterTier(start, FollowRows(req, src), FromFollow) else start
  }

  /** The state after the interest tier, which continues with the follow tier's seen-set. */
  function AfterInterestTier(req: RecRequest, src: RecSources): Acc {
    var a := AfterFollowTier(req, src);
    if InterestTierOn(req, src) then AfterTier(a, InterestRows(req, src), FromInterest) else a
  }

  /** The personalised entries; none without a user. */
  function Personal(req: RecRequest, src: RecSources): seq<Rec> {
    if Truthy(req.userId) then AfterInterestTier(req, src).recs else []
  }

  /** All entries before sorting: the trending tier's `seenSet` holds only the keys pushed so far. */
  function Recommendations(req: RecRequest, src: RecSources): seq<Rec> {
    var p := Personal(req, src);
    AfterTier(Acc(p, Keys(p)), TrendingRows(req, src), Trending).recs
  }

  function Output(r: Rec): (it: RecItem)
    ensures it.id == r.id && it.typ == r.typ && it.whyShown == ReasonText(r.reason)
  {
    RecItem(r.id, r.typ, ReasonText(r.reason))
  }

  function Outputs(recs: seq<Rec>): (items: seq<RecItem>)
    ensures |items| == |recs| && forall k :: 0 <= k < |recs| ==> items[k] == Output(recs[k])
  {
    seq(|recs|, k requires 0 <= k < |recs| => Output(recs[k]))
  }

  /** The entries sorted by score, highest first, ties in push order. */
  function Sorted(req: RecRequest, src: RecSources): seq<Rec> {
    StableSort.Sort(Recommendations(req, src), RecScore)
  }

  /** The response's `items`. */
  function Recommend(req: RecRequest, src: RecSources): seq<RecItem> {
    Outputs(SliceTo(Sorted(req, src), Take(req.limit)))
  }

  /** The handler after authentication and body parsing, over the query results. */
  method RecommendHandler(req: RecRequest, src: RecSources) returns (items: seq<RecItem>)
    ensures items == Recommend(req, src)
  {
    var take := Take(req.limit);
    var recs: seq<Rec> := [];
    if Truthy(req.userId) {
      var seen := InteractionKeys(src.interactions);
      if |src.followedIds| > 0 {
        recs, seen := AddTier(recs, seen, TierRows(req.contentType, src.followPosts, src.followLessons), FromFollow);
      }
      if src.interests.Some? && |src.interests.value| > 0 {
        if |src.categoryIds| > 0 {
          recs, seen := AddTier(recs, seen, TierRows(req.contentType, src.interestPosts, src.interestLessons), FromInterest);
        }
      }
      assert Acc(recs, seen) == AfterInterestTier(req, src);
    }
    assert recs == Personal(req, src);
    var seenSet := set r | r in recs :: r.typ + ":" + r.id;
    assert seenSet == Keys(recs);
    recs, seenSet := AddTier(recs, seenSet, TierRows(req.contentType, src.trendingPosts, src.trendingLessons), Trending);
    var sorted := StableSort.Sort(recs, RecScore);
    items := Outputs(SliceTo(sorted, take));
  }

  // ---------------------------------------------------------------------------
  // Properties

  /** The entries after the follow and interest tiers: keys unique, seen-set = interactions + keys. */
  lemma PersonalInv(req: RecRequest, src: RecSources)
    ensures var a := AfterInterestTier(req, src);
      && a.seen == InteractionKeys(src.interactions) + Keys(a.recs)
      && Distinct(a.recs, RecKey)
  {
    var base := InteractionKeys(src.interactions);
    var start := Acc([], base);
    assert Keys([]) == {};
    var a1 := AfterFollowTier(req, src);
    if FollowTierOn(req, src) {
      TierSeen(start, FollowRows(req, src), FromFollow, base);
      TierDistinct(start, FollowRows(req, src), FromFollow);
    }
    if InterestTierOn(req, src) {
      TierSeen(a1, InterestRows(req, src), FromInterest, base);
      TierDistinct(a1, InterestRows(req, src), FromInterest);
    }
  }

  /** No `type:id` key is recommended twice. */
  lemma RecommendationsDistinct(req: RecRequest, src: RecSources)
    ensures Distinct(Recommendations(req, src), RecKey)
  {
    var p := Personal(req, src);
    if Truthy(req.userId) {
      PersonalInv(req, src);
    }
    TierDistinct(Acc(p, Keys(p)), TrendingRows(req, src), Trending);
  }

  /**
   * Entries of the follow tier: by a follow row, with its score + 20, and never an item the
   * user has interacted with.
   */
  lemma FollowEntries(req: RecRequest, src: RecSources)
    ensures forall r :: r in AfterFollowTier(req, src).recs ==>
      && r.reason == FromFollow && FollowTierOn(req, src)
      && RecKey(r) !in InteractionKeys(src.interactions)
      && exists x :: x in FollowRows(req, src) && r == Entry(x, FromFollow)
  {
    var start := Acc([], InteractionKeys(src.interactions));
    if FollowTierOn(req, src) {
      var rows := FollowRows(req, src);
      TierAppends(start, rows, FromFollow);
      var q := AfterTier(start, rows, FromFollow);
      assert q == AfterFollowTier(req, src);
      assert AppendedFrom(start, q, rows, FromFollow);
      forall r | r in q.recs
        ensures exists x :: x in rows && r == Entry(x, FromFollow)
      {
        var k :| 0 <= k < |q.recs| && q.recs[k] == r;
        var j :| 0 <= j < |rows| && q.recs[k] == Entry(rows[j], FromFollow);
        assert rows[j] in rows;
      }
    }
  }

  /**
   * Entries of the interest tier: by an interest row, with its score + 10, never an item the
   * user has interacted with, and never the key of a follow row when that tier ran.
   */
  lemma InterestEntries(req: RecRequest, src: RecSources)
    ensures var a1, a2 := AfterFollowTier(req, src), AfterInterestTier(req, src);
      && |a1.recs| <= |a2.recs| && a2.recs[..|a1.recs|] == a1.recs
      && forall k :: |a1.recs| <= k < |a2.recs| ==>
        var r := a2.recs[k];
        && r.reason == FromInterest && InterestTierOn(req, src)
        && RecKey(r) !in InteractionKeys(src.interactions)
        && (FollowTierOn(req, src) ==> forall x :: x in FollowRows(req, src) ==> IdKey(x.id) != RecKey(r))
        && exists x :: x in InterestRows(req, src) && r == Entry(x, FromInterest)
  {
    var a1, a2 := AfterFollowTier(req, src), AfterInterestTier(req, src);
    var start := Acc([], InteractionKeys(src.interactions));
    if FollowTierOn(req, src) {
      TierKeepsEarlier(start, FollowRows(req, src), FromFollow);
      forall x | x in FollowRows(req, src) ensures IdKey(x.id) in a1.seen {
        var j :| 0 <= j < |FollowRows(req, src)| && FollowRows(req, src)[j] == x;
        TierCovers(start, FollowRows(req, src), FromFollow, j);
      }
    }
    if InterestTierOn(req, src) {
      var rows := InterestRows(req, src);
      TierAppends(a1, rows, FromInterest);
      TierKeepsEarlier(a1, rows, FromInterest);
      forall k | |a1.recs| <= k < |a2.recs|
        ensures exists x :: x in rows && a2.recs[k] == Entry(x, FromInterest)
      {
        var j :| 0 <= j < |rows| && a2.recs[k] == Entry(rows[j], FromInterest);
        assert rows[j] in rows;
      }
    } else {
      assert a2.recs[..|a1.recs|] == a1.recs;
    }
  }

  /**
   * The trending tier appends, after the personalised entries, entries of trending rows at
   * their own score whose key no personalised entry has; it may recommend an item the user
   * has interacted with, since `seenSet` is built from the entries alone.
   */
  lemma TrendingEntries(req: RecRequest, src: RecSources)
    ensures var p, all := Personal(req, src), Recommendations(req, src);
      && |p| <= |all| && all[..|p|] == p
      && forall k :: |p| <= k < |all| ==>
        && all[k].reason == Trending
        && RecKey(all[k]) !in Keys(p)
        && exists x :: x in TrendingRows(req, src) && all[k] == Entry(x, Trending)
  {
    var p := Personal(req, src);
    var rows := TrendingRows(req, src);
    TierKeepsEarlier(Acc(p, Keys(p)), rows, Trending);
    TierAppends(Acc(p, Keys(p)), rows, Trending);
    var all := Recommendations(req, src);
    forall k | |p| <= k < |all|
      ensures exists x :: x in rows && all[k] == Entry(x, Trending)
    {
      var j :| 0 <= j < |rows| && all[k] == Entry(rows[j], Trending);
      assert rows[j] in rows;
    }
  }

  /** Every trending row's key ends up among the recommendations: trending is the fallback. */
  lemma TrendingCovered(req: RecRequest, src: RecSources, x: Item)
    requires x in TrendingRows(req, src)
    ensures IdKey(x.id) in Keys(Recommendations(req, src))
  {
    var p := Personal(req, src);
    var rows := TrendingRows(req, src);
    var j :| 0 <= j < |rows| && rows[j] == x;
    TierCovers(Acc(p, Keys(p)), rows, Trending, j);
    assert Keys(p) == {} + Keys(p);
    TierSeen(Acc(p, Keys(p)), rows, Trending, {});
  }

  /** Every follow row the user has not interacted with is recommended by the follow tier. */
  lemma FollowCovered(req: RecRequest, src: RecSources, x: Item)
    requires FollowTierOn(req, src) && x in FollowRows(req, src)
    requires IdKey(x.id) !in InteractionKeys(src.interactions)
    ensures exists r :: r in Personal(req, src) && RecKey(r) == IdKey(x.id) && r.reason == FromFollow
  {
    var a1, a2 := AfterFollowTier(req, src), AfterInterestTier(req, src);
    assert IdKey(x.id) in Keys(a1.recs) by {
      var rows := FollowRows(req, src);
      var base := InteractionKeys(src.interactions);
      var j :| 0 <= j < |rows| && rows[j] == x;
      TierCovers(Acc([], base), rows, FromFollow, j);
      assert Keys([]) == {};
      TierSeen(Acc([], base), rows, FromFollow, base);
    }
    var r :| r in a1.recs && RecKey(r) == IdKey(x.id);
    assert r.reason == FromFollow by {
      FollowEntries(req, src);
    }
    assert r in a2.recs by {
      InterestEntries(req, src);
      var k :| 0 <= k < |a1.recs| && a1.recs[k] == r;
      assert a2.recs[k] == r;
    }
  }

  /**
   * Every interest row the user has not interacted with, and whose key the follow tier has
   * not recommended, is recommended by the interest tier.
   */
  lemma InterestCovered(req: RecRequest, src: RecSources, x: Item)
    requires InterestTierOn(req, src) && x in InterestRows(req, src)
    requires IdKey(x.id) !in InteractionKeys(src.interactions)
    requires IdKey(x.id) !in Keys(AfterFollowTier(req, src).recs)
    ensures exists r :: r in Personal(req, src) && RecKey(r) == IdKey(x.id) && r.reason == FromInterest
  {
    var a1, a2 := AfterFollowTier(req, src), AfterInterestTier(req, src);
    var base := InteractionKeys(src.interactions);
    var rows := InterestRows(req, src);
    PersonalInv(req, src);
    assert a1.seen == base + Keys(a1.recs) by {
      assert Keys([]) == {};
      if FollowTierOn(req, src) {
        TierSeen(Acc([], base), FollowRows(req, src), FromFollow, base);
      }
    }
    assert IdKey(x.id) in Keys(a2.recs) by {
      var j :| 0 <= j < |rows| && rows[j] == x;
      TierCovers(a1, rows, FromInterest, j);
    }
    var r :| r in a2.recs && RecKey(r) == IdKey(x.id);
    var k :| 0 <= k < |a2.recs| && a2.recs[k] == r;
    InterestEntries(req, src);
  }

  /** Without a user only trending rows are considered, each with reason "Trending now". */
  lemma AnonymousOnlyTrending(req: RecRequest, src: RecSources)
    requires !Truthy(req.userId)
    ensures forall r :: r in Recommendations(req, src) ==> r.reason == Trending && Boost(r.reason) == 0
  {
    TrendingEntries(req, src);
    var all := Recommendations(req, src);
    forall r | r in all ensures r.reason == Trending {
      var k :| 0 <= k < |all| && all[k] == r;
    }
  }

  /** The sorted entries: non-increasing by score, the same entries, keys still unique, types from ids. */
  lemma SortedSound(req: RecRequest, src: RecSources)
    ensures var sorted := Sorted(req, src);
      && StableSort.SortedDesc(sorted, RecScore)
      && multiset(sorted) == multiset(Recommendations(req, src))
      && Distinct(sorted, RecKey)
      && forall r :: r in sorted ==> r.typ == TypeOf(r.id)
  {
    var all, sorted := Recommendations(req, src), Sorted(req, src);
    RecommendationsDistinct(req, src);
    StableSort.SortKeepsDistinct(all, RecScore, RecKey);
    TypesFollowIds(req, src);
    forall r | r in sorted ensures r.typ == TypeOf(r.id) {
      assert r in multiset(sorted);
    }
  }

  /**
   * The output: the first `min(limit, 50)` entries sorted by score (a negative page size
   * counting back from the end, as `slice` does), no id twice, the type read off the id and `why_shown` the entry's reason.
   */
  lemma OutputSound(req: RecRequest, src: RecSources)
    ensures var items, sorted := Recommend(req, src), Sorted(req, src);
      && |items| <= |sorted|
      && (0 <= Take(req.limit) ==> |items| == if Take(req.limit) < |sorted| then Take(req.limit) else |sorted|)
      && (Take(req.limit) < 0 ==> |items| == if |sorted| + Take(req.limit) > 0 then |sorted| + Take(req.limit) else 0)
      && (forall k :: 0 <= k < |items| ==> items[k] == Output(sorted[k]))
      && (forall i, j :: 0 <= i < j < |items| ==> items[i].id != items[j].id)
      && (forall it :: it in items ==> it.typ == TypeOf(it.id))
  {
    var sorted := Sorted(req, src);
    var page := SliceTo(sorted, Take(req.limit));
    var items := Recommend(req, src);
    SortedSound(req, src);
    forall k | 0 <= k < |items| ensures items[k] == Output(sorted[k]) && sorted[k] in sorted {
      assert page[k] == sorted[k];
    }
    forall i, j | 0 <= i < j < |items| ensures items[i].id != items[j].id {
      assert RecKey(sorted[i]) != RecKey(sorted[j]);
    }
  }

  /** Every entry's type is the type of its id. */
  lemma TypesFollowIds(req: RecRequest, src: RecSources)
    ensures forall r :: r in Recommendations(req, src) ==> r.typ == TypeOf(r.id)
  {
    var p, all := Personal(req, src), Recommendations(req, src);
    TrendingEntries(req, src);
    if Truthy(req.userId) {
      FollowEntries(req, src);
      InterestEntries(req, src);
    }
    var a1 := AfterFollowTier(req, src);
    forall r | r in all ensures r.typ == TypeOf(r.id) {
      var k :| 0 <= k < |all| && all[k] == r;
      if k < |p| {
        assert p[k] == r;
        if k < |a1.recs| {
          assert a1.recs[k] == r;
        }
      }
    }
  }
}
