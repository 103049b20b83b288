/**
 * The `notify-digest` edge function: the configuration check, the recipient list (the
 * truthy profile ids, capped at 1000), the digest parts (trending post bodies, then
 * trending lesson titles) and the headline built from them.
 */
module NotifyDigest {
  import opened Common
  import opened Text
  import opened Seqs

  const MaxRecipients := 1000
  /** How many characters of the joined parts the headline quotes. */
  const MaxExcerpt := 80
  /** Post bodies and lesson titles fetched for a digest. */
  const PostRows := 2
  const LessonRows := 1

  const HeadlineStart := "3 stories for you: "
  const Ellipsis := "..."
  const EmptyHeadline := "Your daily digest is ready."
  /** Space, middle dot, space. */
  const PartSeparator := " \U{00B7} "

  /** The ids of `ss` as present values. */
  function Somes(ss: seq<string>): (r: seq<Option<string>>)
    ensures |r| == |ss| && forall k :: 0 <= k < |ss| ==> r[k] == Some(ss[k])
  {
    seq(|ss|, k requires 0 <= k < |ss| => Some(ss[k]))
  }

  /**
   * `ids.filter(Boolean)`: the present, non-empty ids in their order, each as often as it
   * occurs.
   */
  function TruthyIds(ids: seq<Option<string>>): (r: seq<string>)
    ensures |r| <= |ids|
    ensures IsSubsequence(Somes(r), ids)
    ensures forall x :: multiset(r)[x] == if x != "" then multiset(ids)[Some(x)] else 0
    ensures forall x :: x in r <==> Some(x) in ids && x != ""
  {
    if ids == [] then []
    else
      var rest := TruthyIds(ids[..|ids| - 1]);
      TruthyOrderStep(ids, rest);
      TruthyCountStep(ids, rest);
      KeptId(rest, ids[|ids| - 1])
  }

  /** `rest` followed by the value of `id` when it is truthy. */
  function KeptId(rest: seq<string>, id: Option<string>): seq<string> {
    if Truthy(id) then rest + [id.value] else rest
  }

  /** One more id keeps the kept ids in order. */
  lemma TruthyOrderStep(ids: seq<Option<string>>, rest: seq<string>)
    requires ids != [] && IsSubsequence(Somes(rest), ids[..|ids| - 1])
    ensures IsSubsequence(Somes(KeptId(rest, ids[|ids| - 1])), ids)
  {
    var init, last := ids[..|ids| - 1], ids[|ids| - 1];
    assert ids == init + [last];
    if Truthy(last) {
      SomesSnoc(rest, last.value);
      SubsequenceAppend(Somes(rest), init, last);
    } else {
      SubsequenceExtend(Somes(rest), init, last);
    }
  }

  lemma SomesSnoc(ss: seq<string>, s: string)
    ensures Somes(ss + [s]) == Somes(ss) + [Some(s)]
  {
  }

  /** One more id adds one occurrence exactly when it is truthy. */
  lemma TruthyCountStep(ids: seq<Option<string>>, rest: seq<string>)
    requires ids != []
    requires forall x :: multiset(rest)[x] == if x != "" then multiset(ids[..|ids| - 1])[Some(x)] else 0
    ensures var r := KeptId(rest, ids[|ids| - 1]);
      && (forall x :: multiset(r)[x] == if x != "" then multiset(ids)[Some(x)] else 0)
      && (forall x :: x in r <==> Some(x) in ids && x != "")
  {
    var init, last := ids[..|ids| - 1], ids[|ids| - 1];
    assert ids == init + [last];
    var r := KeptId(rest, last);
    forall x ensures multiset(r)[x] == if x != "" then multiset(ids)[Some(x)] else 0 {
      assert multiset(ids) == multiset(init) + multiset{last};
      if Truthy(last) {
        assert multiset(r) == multiset(rest) + multiset{last.value};
      }
    }
    forall x ensures x in r <==> Some(x) in ids && x != "" {
      assert x in r <==> multiset(r)[x] > 0;
      assert Some(x) in ids <==> multiset(ids)[Some(x)] > 0;
    }
  }

  /** `include_external_user_ids`: at most the first 1000 truthy ids. */
  function Recipients(ids: seq<Option<string>>): (r: seq<string>)
    ensures |r| <= MaxRecipients && |r| <= |TruthyIds(ids)|
    ensures r == TruthyIds(ids)[..|r|]
    ensures |r| == if |TruthyIds(ids)| < MaxRecipients then |TruthyIds(ids)| else MaxRecipients
  {
    SliceTo(TruthyIds(ids), MaxRecipients)
  }

  /** The text of each row, `row.text ?? ""`. */
  function Texts(rows: seq<Option<string>>): (r: seq<string>)
    ensures |r| == |rows|
    ensures forall k :: 0 <= k < |rows| ==> r[k] == rows[k].GetOr("")
  {
    seq(|rows|, k requires 0 <= k < |rows| => rows[k].GetOr(""))
  }

  /** `parts`: the post bodies, then the lesson titles, a missing text giving "". */
  function Parts(posts: seq<Option<string>>, lessons: seq<Option<string>>): seq<string> {
    Texts(posts) + Texts(lessons)
  }

  /** The two `for ... parts.push(...)` loops. */
  method BuildParts(posts: seq<Option<string>>, lessons: seq<Option<string>>) returns (parts: seq<string>)
    ensures parts == Parts(posts, lessons)
  {
    parts := [];
    for i := 0 to |posts|
      invariant parts == Texts(posts[..i])
    {
      parts := parts + [posts[i].GetOr("")];
    }
    assert posts[..|posts|] == posts;
    for j := 0 to |lessons|
      invariant parts == Texts(posts) + Texts(lessons[..j])
    {
      parts := parts + [lessons[j].GetOr("")];
    }
    assert lessons[..|lessons|] == lessons;
  }

  /**
   * The headline: a fixed sentence when there are no parts; otherwise the opening, the
   * first 80 characters of the first three parts joined by " · ", and an ellipsis.
   */
  function Headline(parts: seq<string>): (h: string)
    ensures parts == [] ==> h == EmptyHeadline
    ensures parts != [] ==> |HeadlineStart| + |Ellipsis| <= |h|
    ensures parts != [] && |HeadlineStart| + |Ellipsis| <= |h| ==>
      var excerpt := h[|HeadlineStart|..|h| - |Ellipsis|];
      var joined := Join(SliceTo(parts, 3), PartSeparator);
      && StartsWith(h, HeadlineStart)
      && h[|h| - |Ellipsis|..] == Ellipsis
      && |excerpt| == (if |joined| < MaxExcerpt then |joined| else MaxExcerpt)
      && excerpt == joined[..|excerpt|]
    ensures |h| <= |HeadlineStart| + MaxExcerpt + |Ellipsis|
  {
    if |parts| > 0 then
      var excerpt := SliceTo(Join(SliceTo(parts, 3), PartSeparator), MaxExcerpt);
      var h := HeadlineStart + excerpt + Ellipsis;
      assert h[|HeadlineStart|..|h| - |Ellipsis|] == excerpt;
      h
    else EmptyHeadline
  }

  /** What the handler does before calling the notification service. */
  datatype DigestOutcome =
    | NotConfigured(error: string)
    | NoRecipients(sent: int)
    | Send(headline: string, recipients: seq<string>)

  /**
   * The handler up to the notification call. `appId` and `restKey` are the configured
   * credentials, `profileIds` the queried profile ids, `posts` and `lessons` the texts of
   * the trending rows.
   */
  method NotifyDigestHandler(appId: Option<string>, restKey: Option<string>, profileIds: seq<Option<string>>,
                             posts: seq<Option<string>>, lessons: seq<Option<string>>)
    returns (outcome: DigestOutcome)
    ensures !Truthy(appId) || !Truthy(restKey) <==> outcome == NotConfigured("OneSignal not configured")
    ensures Truthy(appId) && Truthy(restKey) && TruthyIds(profileIds) == [] ==> outcome == NoRecipients(0)
    ensures Truthy(appId) && Truthy(restKey) && TruthyIds(profileIds) != [] ==>
      outcome == Send(Headline(Parts(posts, lessons)), Recipients(profileIds))
  {
    if !Truthy(appId) || !Truthy(restKey) {
      return NotConfigured("OneSignal not configured");
    }
    var externalUserIds := TruthyIds(profileIds);
    if |externalUserIds| == 0 {
      return NoRecipients(0);
    }
    var parts := BuildParts(posts, lessons);
    var headline := Headline(parts);
    return Send(headline, SliceTo(externalUserIds, MaxRecipients));
  }

  /** Each recipient candidate is the value of one of the profile ids. */
  lemma TruthyIdsFromProfiles(ids: seq<Option<string>>, k: nat)
    requires k < |TruthyIds(ids)|
    ensures exists j :: 0 <= j < |ids| && ids[j] == Some(TruthyIds(ids)[k])
  {
    var r := TruthyIds(ids);
    assert r[k] in r;
  }

  /**
   * Every recipient is a truthy profile id, and while there are at most 1000 truthy ids
   * each of them is a recipient.
   */
  lemma RecipientsComplete(ids: seq<Option<string>>)
    ensures forall x :: x in Recipients(ids) ==> x != "" && Some(x) in ids
    ensures |TruthyIds(ids)| <= MaxRecipients ==> forall x :: Some(x) in ids && x != "" ==> x in Recipients(ids)
  {
    var t := TruthyIds(ids);
    var r := Recipients(ids);
    assert forall x :: x in r ==> x in t;
    if |t| <= MaxRecipients {
      assert r == t;
    }
  }

  /**
   * With the row limits of the queries (2 posts, 1 lesson) there are at most three parts,
   * all of them quoted; the posts come first.
   */
  lemma PartsShape(posts: seq<Option<string>>, lessons: seq<Option<string>>)
    requires |posts| <= PostRows && |lessons| <= LessonRows
    ensures |Parts(posts, lessons)| <= 3
    ensures SliceTo(Parts(posts, lessons), 3) == Parts(posts, lessons)
    ensures Parts(posts, lessons)[..|posts|] == Texts(posts)
    ensures Parts(posts, lessons)[|posts|..] == Texts(lessons)
  {
  }

  /** A short digest is quoted whole: with fewer than 80 characters joined, nothing is cut. */
  lemma ShortDigestQuotedWhole(parts: seq<string>)
    requires |parts| > 0
    requires |Join(SliceTo(parts, 3), PartSeparator)| < MaxExcerpt
    ensures Headline(parts) == HeadlineStart + Join(SliceTo(parts, 3), PartSeparator) + Ellipsis
  {
  }
}
