/**
 * The `study-buddy` edge function: the prompt subject, and the merge of a parsed model
 * reply into the default study card, where each field of the reply replaces the default
 * only when it has the expected shape and fits its length limit. The reply arrives as an
 * already-parsed JSON value.
 */
module StudyBuddy {
  import opened Common
  import opened Seqs

  /** A parsed JSON value; numbers are reals. */
  datatype Json = JNull | JBool(b: bool) | JNum(n: real) | JStr(s: string) | JArr(elems: seq<Json>) | JObj(fields: map<string, Json>)

  /** The response record. */
  datatype StudyCard = StudyCard(tips: seq<string>, action: string, question: string, options: seq<string>, correctIndex: real)

  const MaxTip := 100
  const MaxAction := 150
  const MaxQuestion := 200
  const MaxOption := 100

  /** The card returned when no reply is used. */
  function DefaultCard(): StudyCard {
    StudyCard(
      ["Review key terms.", "Practice once before bed."],
      "Spend 5 minutes summarizing in your own words.",
      "What is the main idea?",
      ["Option A", "Option B", "Option C"],
      0.0)
  }

  /** `topic ?? (content_id ? "content <id>" : "this topic")`. */
  function Subject(topic: Option<string>, contentId: Option<string>): (s: string)
    ensures topic.Some? ==> s == topic.value
    ensures topic.None? && Truthy(contentId) ==> s == "content " + contentId.value
    ensures topic.None? && !Truthy(contentId) ==> s == "this topic"
  {
    match topic
    case Some(t) => t
    case None => if Truthy(contentId) then "content " + contentId.value else "this topic"
  }

  /** `parsed && typeof parsed === "object"`: an object or an array, not `null`. */
  predicate IsObject(parsed: Json) {
    parsed.JObj? || parsed.JArr?
  }

  /** `parsed.<name>`; an array has none of the members read here. */
  function Member(parsed: Json, name: string): (v: Option<Json>)
    ensures v.Some? <==> parsed.JObj? && name in parsed.fields
    ensures v.Some? ==> v.value == parsed.fields[name]
  {
    if parsed.JObj? && name in parsed.fields then Some(parsed.fields[name]) else None
  }

  /** `Array.isArray(v) && v.length >= n`. */
  predicate ArrayOfAtLeast(v: Option<Json>, n: nat) {
    v.Some? && v.value.JArr? && |v.value.elems| >= n
  }

  /** `typeof v === "string" && v.length <= n`. */
  predicate StringOfAtMost(v: Option<Json>, n: nat) {
    v.Some? && v.value.JStr? && |v.value.s| <= n
  }

  /** The strings of `ss` as JSON values. */
  function Strs(ss: seq<string>): (js: seq<Json>)
    ensures |js| == |ss| && forall k :: 0 <= k < |ss| ==> js[k] == JStr(ss[k])
  {
    seq(|ss|, k requires 0 <= k < |ss| => JStr(ss[k]))
  }

  /**
   * `xs.filter((x) => typeof x === "string" && x.length <= max)`: the short strings in
   * their order, each as often as it occurs.
   */
  function ShortStrings(xs: seq<Json>, max: nat): (r: seq<string>)
    ensures |r| <= |xs|
    ensures IsSubsequence(Strs(r), xs)
    ensures forall s :: multiset(r)[s] == if |s| <= max then multiset(xs)[JStr(s)] else 0
    decreases |xs|
  {
    if xs == [] then []
    else
      var rest := ShortStrings(xs[..|xs| - 1], max);
      ShortOrderStep(xs, rest, max);
      ShortCountStep(xs, rest, max);
      Kept(rest, xs[|xs| - 1], max)
  }

  /** `rest` followed by `x` when it is a short string. */
  function Kept(rest: seq<string>, x: Json, max: nat): seq<string> {
    if x.JStr? && |x.s| <= max then rest + [x.s] else rest
  }

  /** One more entry keeps the kept strings in order. */
  lemma ShortOrderStep(xs: seq<Json>, rest: seq<string>, max: nat)
    requires xs != [] && IsSubsequence(Strs(rest), xs[..|xs| - 1])
    ensures IsSubsequence(Strs(Kept(rest, xs[|xs| - 1], max)), xs)
  {
    var init, last := xs[..|xs| - 1], xs[|xs| - 1];
    assert xs == init + [last];
    if last.JStr? && |last.s| <= max {
      StrsSnoc(rest, last.s);
      SubsequenceAppend(Strs(rest), init, last);
    } else {
      SubsequenceExtend(Strs(rest), init, last);
    }
  }

  lemma StrsSnoc(ss: seq<string>, s: string)
    ensures Strs(ss + [s]) == Strs(ss) + [JStr(s)]
  {
  }

  /** One more entry adds one occurrence exactly when it is a short string. */
  lemma ShortCountStep(xs: seq<Json>, rest: seq<string>, max: nat)
    requires xs != []
    requires forall s :: multiset(rest)[s] == if |s| <= max then multiset(xs[..|xs| - 1])[JStr(s)] else 0
    ensures forall s :: multiset(Kept(rest, xs[|xs| - 1], max))[s] == if |s| <= max then multiset(xs)[JStr(s)] else 0
  {
    var init, last := xs[..|xs| - 1], xs[|xs| - 1];
    assert xs == init + [last];
    var r := Kept(rest, last, max);
    forall s ensures multiset(r)[s] == if |s| <= max then multiset(xs)[JStr(s)] else 0 {
      assert multiset(xs) == multiset(init) + multiset{last};
      if last.JStr? && |last.s| <= max {
        assert multiset(r) == multiset(rest) + multiset{last.s};
      }
    }
  }

  /** The filter keeps exactly the short strings among the entries. */
  lemma ShortStringsMembers(xs: seq<Json>, max: nat)
    ensures forall s :: s in ShortStrings(xs, max) <==> JStr(s) in xs && |s| <= max
  {
    var r := ShortStrings(xs, max);
    forall s ensures s in r <==> JStr(s) in xs && |s| <= max {
      assert s in r <==> multiset(r)[s] > 0;
      assert JStr(s) in xs <==> multiset(xs)[JStr(s)] > 0;
    }
  }

  /**
   * `parsed.options?.length ?? fallback`: the length of an array or a string, the `length`
   * member of an object when it is a number, and otherwise the fallback.
   */
  function OptionsLength(v: Option<Json>, fallback: nat): real {
    match v
    case Some(JArr(e)) => |e| as real
    case Some(JStr(s)) => |s| as real
    case Some(JObj(m)) => if "length" in m && m["length"].JNum? then m["length"].n else fallback as real
    case _ => fallback as real
  }

  /** The tips: the first two entries, filtered, when "tips" is an array of at least 2; otherwise unchanged. */
  function NewTips(cur: seq<string>, parsed: Json): (r: seq<string>)
    ensures ArrayOfAtLeast(Member(parsed, "tips"), 2) ==> r == ShortStrings(Member(parsed, "tips").value.elems[..2], MaxTip)
    ensures !ArrayOfAtLeast(Member(parsed, "tips"), 2) ==> r == cur
    ensures r == cur || (|r| <= 2 && forall t :: t in r ==> |t| <= MaxTip)
  {
    var v := Member(parsed, "tips");
    if ArrayOfAtLeast(v, 2) then ShortStrings(v.value.elems[..2], MaxTip) else cur
  }

  /** A string field: replaced exactly when the reply's member is a string within `max`. */
  function NewText(cur: string, parsed: Json, name: string, max: nat): (r: string)
    ensures StringOfAtMost(Member(parsed, name), max) ==> Member(parsed, name) == Some(JStr(r))
    ensures !StringOfAtMost(Member(parsed, name), max) ==> r == cur
    ensures r == cur || |r| <= max
  {
    var v := Member(parsed, name);
    if StringOfAtMost(v, max) then v.value.s else cur
  }

  /** The options: the first three entries, filtered, when "options" is an array of at least 3; otherwise unchanged. */
  function NewOptions(cur: seq<string>, parsed: Json): (r: seq<string>)
    ensures ArrayOfAtLeast(Member(parsed, "options"), 3) ==> r == ShortStrings(Member(parsed, "options").value.elems[..3], MaxOption)
    ensures !ArrayOfAtLeast(Member(parsed, "options"), 3) ==> r == cur
    ensures r == cur || (|r| <= 3 && forall o :: o in r ==> |o| <= MaxOption)
  {
    var v := Member(parsed, "options");
    if ArrayOfAtLeast(v, 3) then ShortStrings(v.value.elems[..3], MaxOption) else cur
  }

  /**
   * The index: replaced exactly when "correct_index" is a number in `[0, n)`, with `n` the
   * length of the reply's "options" or else the current number of options.
   */
  function NewIndex(cur: real, parsed: Json, optionCount: nat): (r: real)
    ensures (exists n :: Member(parsed, "correct_index") == Some(JNum(n)) && 0.0 <= n < OptionsLength(Member(parsed, "options"), optionCount))
      ==> Member(parsed, "correct_index") == Some(JNum(r))
    ensures r != cur ==> Member(parsed, "correct_index") == Some(JNum(r)) && 0.0 <= r < OptionsLength(Member(parsed, "options"), optionCount)
  {
    var v := Member(parsed, "correct_index");
    if v.Some? && v.value.JNum? && 0.0 <= v.value.n < OptionsLength(Member(parsed, "options"), optionCount) then v.value.n else cur
  }

  /** The schema validation of an object reply, field by field; anything else leaves the card as it is. */
  function Merged(card: StudyCard, parsed: Json): StudyCard {
    if !IsObject(parsed) then card
    else
      var options := NewOptions(card.options, parsed);
      StudyCard(
        NewTips(card.tips, parsed),
        NewText(card.action, parsed, "action", MaxAction),
        NewText(card.question, parsed, "question", MaxQuestion),
        options,
        NewIndex(card.correctIndex, parsed, |options|))
  }

  /** `if (Array.isArray(parsed.tips) && parsed.tips.length >= 2) result.tips = ...`. */
  method ApplyTips(card: StudyCard, parsed: Json) returns (result: StudyCard)
    ensures result == card.(tips := NewTips(card.tips, parsed))
  {
    result := card;
    var tips := Member(parsed, "tips");
    if ArrayOfAtLeast(tips, 2) {
      result := result.(tips := ShortStrings(tips.value.elems[..2], MaxTip));
    }
  }

  /** `if (typeof parsed.action === "string" && parsed.action.length <= 150) result.action = parsed.action`. */
  method ApplyAction(card: StudyCard, parsed: Json) returns (result: StudyCard)
    ensures result == card.(action := NewText(card.action, parsed, "action", MaxAction))
  {
    result := card;
    var action := Member(parsed, "action");
    if StringOfAtMost(action, MaxAction) {
      result := result.(action := action.value.s);
    }
  }

  /** The same for `question`, within 200 characters. */
  method ApplyQuestion(card: StudyCard, parsed: Json) returns (result: StudyCard)
    ensures result == card.(question := NewText(card.question, parsed, "question", MaxQuestion))
  {
    result := card;
    var question := Member(parsed, "question");
    if StringOfAtMost(question, MaxQuestion) {
      result := result.(question := question.value.s);
    }
  }

  /** `if (Array.isArray(parsed.options) && parsed.options.length >= 3) result.options = ...`. */
  method ApplyOptions(card: StudyCard, parsed: Json) returns (result: StudyCard)
    ensures result == card.(options := NewOptions(card.options, parsed))
  {
    result := card;
    var options := Member(parsed, "options");
    if ArrayOfAtLeast(options, 3) {
      result := result.(options := ShortStrings(options.value.elems[..3], MaxOption));
    }
  }

  /** The `correct_index` check, against the reply's options or else the card's current ones. */
  method ApplyIndex(card: StudyCard, parsed: Json) returns (result: StudyCard)
    ensures result == card.(correctIndex := NewIndex(card.correctIndex, parsed, |card.options|))
  {
    result := card;
    var index := Member(parsed, "correct_index");
    if index.Some? && index.value.JNum? && index.value.n >= 0.0
      && index.value.n < OptionsLength(Member(parsed, "options"), |result.options|) {
      result := result.(correctIndex := index.value.n);
    }
  }

  /** The conditional overwrites of `result`, one field after the other. */
  method ApplyParsed(card: StudyCard, parsed: Json) returns (result: StudyCard)
    ensures result == Merged(card, parsed)
  {
    result := card;
    if IsObject(parsed) {
      result := ApplyTips(result, parsed);
      result := ApplyAction(result, parsed);
      result := ApplyQuestion(result, parsed);
      result := ApplyOptions(result, parsed);
      result := ApplyIndex(result, parsed);
    }
  }

  /**
   * The handler after authentication and body parsing. `hasApiKey` says whether the
   * model key is configured; `reply` is the parsed reply of the attempt that succeeded,
   * absent when no attempt produced reply text.
   */
  method StudyBuddyHandler(topic: Option<string>, contentId: Option<string>, hasApiKey: bool, reply: Option<Json>)
    returns (subject: string, result: StudyCard)
    ensures subject == Subject(topic, contentId)
    ensures !hasApiKey || reply.None? ==> result == DefaultCard()
    ensures hasApiKey && reply.Some? ==> result == Merged(DefaultCard(), reply.value)
  {
    subject := Subject(topic, contentId);
    result := DefaultCard();
    if hasApiKey {
      if reply.Some? {
        result := ApplyParsed(result, reply.value);
      }
    }
  }

  /**
   * Starting from the default card, whatever the reply: at most 2 tips and 3 options, each
   * at most 100 chars, an action of at most 150 and a question of at most 200 chars, and a
   * non-negative index.
   */
  lemma MergedFits(parsed: Json)
    ensures var r := Merged(DefaultCard(), parsed);
      && |r.tips| <= 2 && (forall t :: t in r.tips ==> |t| <= MaxTip)
      && |r.action| <= MaxAction
      && |r.question| <= MaxQuestion
      && |r.options| <= 3 && (forall o :: o in r.options ==> |o| <= MaxOption)
      && 0.0 <= r.correctIndex
  {
    var d := DefaultCard();
    assert forall t :: t in d.tips ==> |t| <= MaxTip;
    assert forall o :: o in d.options ==> |o| <= MaxOption;
    if IsObject(parsed) {
      var r := Merged(d, parsed);
      assert r.tips == NewTips(d.tips, parsed);
      assert r.options == NewOptions(d.options, parsed);
    }
  }

  /** With no string among the entries, the filter keeps none of them. */
  lemma {:induction false} NoStringKept(xs: seq<Json>, max: nat)
    requires forall x :: x in xs ==> !x.JStr?
    ensures ShortStrings(xs, max) == []
    decreases |xs|
  {
    if xs != [] {
      var init := xs[..|xs| - 1];
      assert xs[|xs| - 1] in xs;
      assert forall x :: x in init ==> x in xs;
      NoStringKept(init, max);
    }
  }

  /**
   * The index is checked against the length of the reply's options before filtering, so
   * it can point past the options kept: with three or more options none of which is a
   * string, no option survives and any index below their number is accepted.
   */
  lemma IndexCanPassFilteredOptions(card: StudyCard, parsed: Json, i: real)
    requires parsed.JObj? && "options" in parsed.fields && parsed.fields["options"].JArr?
    requires |parsed.fields["options"].elems| >= 3
    requires forall x :: x in parsed.fields["options"].elems ==> !x.JStr?
    requires "correct_index" in parsed.fields && parsed.fields["correct_index"] == JNum(i)
    requires 0.0 <= i < |parsed.fields["options"].elems| as real
    ensures Merged(card, parsed).options == []
    ensures Merged(card, parsed).correctIndex == i
    ensures Merged(card, parsed).correctIndex >= |Merged(card, parsed).options| as real
  {
    var e := parsed.fields["options"].elems;
    assert forall x :: x in e[..3] ==> x in e;
    NoStringKept(e[..3], MaxOption);
    var options := NewOptions(card.options, parsed);
    assert options == [] by {
      assert ArrayOfAtLeast(Member(parsed, "options"), 3);
    }
    var index := NewIndex(card.correctIndex, parsed, |options|);
    assert index == i by {
      assert OptionsLength(Member(parsed, "options"), |options|) == |e| as real;
    }
  }

  /** With the reply's options absent, the index is checked against the current options. */
  lemma IndexWithoutOptions(card: StudyCard, parsed: Json)
    requires parsed.JObj? && "options" !in parsed.fields
    ensures Merged(card, parsed).options == card.options
    ensures Merged(card, parsed).correctIndex != card.correctIndex ==>
      0.0 <= Merged(card, parsed).correctIndex < |card.options| as real
  {
  }
}
