/**
 * The `moderate-content` edge function: the check on `text`, the rule verdict
 * `/\b(spam|harm)\b/i`, the override of that verdict by the model's safety feedback, and
 * the status that follows from the verdict.
 */
module ModerateContent {
  import opened Common
  import opened Text

  const Spam := "spam"
  const Harm := "harm"

  /**
   * `w` (lower case) occurs in `text` at offset `i`, ignoring ASCII case, with a regular
   * expression word boundary on both sides: the string's edge or a non-word character.
   */
  predicate WordAt(text: string, i: int, w: string) {
    && 0 <= i && i + |w| <= |text|
    && (forall k :: 0 <= k < |w| ==> ToLower(text[i + k]) == w[k])
    && (i == 0 || !IsWordChar(text[i - 1]))
    && (i + |w| == |text| || !IsWordChar(text[i + |w|]))
  }

  /** `text` contains `w` as a whole word, ignoring case: the reference definition of the rule. */
  predicate ContainsWord(text: string, w: string) {
    exists i :: 0 <= i <= |text| && WordAt(text, i, w)
  }

  /** The regular expression's search: try "spam", then "harm", at each offset from `i` on. */
  predicate MatchFrom(text: string, i: nat)
    decreases |text| - i
  {
    if i > |text| then false
    else WordAt(text, i, Spam) || WordAt(text, i, Harm) || MatchFrom(text, i + 1)
  }

  /** `/\b(spam|harm)\b/i.test(text)`. */
  predicate RuleFlags(text: string) {
    MatchFrom(text, 0)
  }

  /** The search from `i` succeeds exactly when a match starts at some offset `j >= i`. */
  lemma {:induction false} MatchFromExists(text: string, i: nat)
    ensures MatchFrom(text, i) <==> exists j :: i <= j && (WordAt(text, j, Spam) || WordAt(text, j, Harm))
    decreases |text| - i
  {
    if i <= |text| {
      MatchFromExists(text, i + 1);
      forall j | i <= j && (WordAt(text, j, Spam) || WordAt(text, j, Harm)) ensures MatchFrom(text, i) {
        if j > i {
          assert i + 1 <= j;
        }
      }
    } else {
      forall j | i <= j ensures !WordAt(text, j, Spam) && !WordAt(text, j, Harm) {
      }
    }
  }

  /** The rule flags a text exactly when "spam" or "harm" occurs in it as a whole word, in any case. */
  lemma RuleFlagsWords(text: string)
    ensures RuleFlags(text) <==> ContainsWord(text, Spam) || ContainsWord(text, Harm)
  {
    MatchFromExists(text, 0);
  }

  /** The text with every ASCII letter lower-cased. */
  function Lower(text: string): (r: string)
    ensures |r| == |text|
    ensures forall k :: 0 <= k < |text| ==> r[k] == ToLower(text[k])
  {
    seq(|text|, k requires 0 <= k < |text| => ToLower(text[k]))
  }

  /** Lower-casing a character is idempotent and keeps it a word character or not. */
  lemma ToLowerChar(c: char)
    ensures ToLower(ToLower(c)) == ToLower(c)
    ensures IsWordChar(ToLower(c)) == IsWordChar(c)
  {
  }

  lemma LowerWordAt(text: string, i: int, w: string)
    ensures WordAt(Lower(text), i, w) <==> WordAt(text, i, w)
  {
    var lower := Lower(text);
    forall k | 0 <= k < |text| ensures ToLower(lower[k]) == ToLower(text[k]) && IsWordChar(lower[k]) == IsWordChar(text[k]) {
      ToLowerChar(text[k]);
    }
  }

  /** The verdict is about letters only: lower-casing the text does not change it. */
  lemma RuleIgnoresCase(text: string)
    ensures RuleFlags(Lower(text)) <==> RuleFlags(text)
  {
    MatchFromExists(text, 0);
    MatchFromExists(Lower(text), 0);
    forall j ensures WordAt(Lower(text), j, Spam) <==> WordAt(text, j, Spam) {
      LowerWordAt(text, j, Spam);
    }
    forall j ensures WordAt(Lower(text), j, Harm) <==> WordAt(text, j, Harm) {
      LowerWordAt(text, j, Harm);
    }
  }

  /** A word glued to other word characters is not flagged: "spam" inside "spammy" or "harm" inside "harmless". */
  lemma PartOfWordNotFlagged(text: string, j: int, w: string)
    requires w == Spam || w == Harm
    requires 0 <= j && j + |w| < |text| && IsWordChar(text[j + |w|])
    ensures !WordAt(text, j, w)
  {
  }

  /** An upper-case "SPAM" standing alone is flagged. */
  lemma ShoutedSpamFlagged()
    ensures RuleFlags("SPAM!")
  {
    MatchFromExists("SPAM!", 0);
    assert WordAt("SPAM!", 0, Spam);
  }

  /** "spammy" is not flagged: the only "spam" in it runs on into a word character. */
  lemma SpammyNotFlagged()
    ensures !RuleFlags("spammy")
  {
    var t := "spammy";
    MatchFromExists(t, 0);
    forall j ensures !WordAt(t, j, Spam) && !WordAt(t, j, Harm) {
      if 0 < j < 3 {
        assert IsWordChar(t[j - 1]);
      } else if j == 0 {
        assert IsWordChar(t[4]);
      }
    }
  }

  /** `isSafe ? "approved" : "quarantined"`. */
  function Status(isSafe: bool): (s: string)
    ensures s == "approved" <==> isSafe
    ensures s == "approved" || s == "quarantined"
  {
    if isSafe then "approved" else "quarantined"
  }

  /** The request body; an absent or non-string field is `None`. */
  datatype ModerateRequest = ModerateRequest(contentType: Option<string>, contentId: Option<string>, text: Option<string>)

  datatype ModerateResponse =
    | BadRequest(error: string)
    | Moderated(status: string, contentType: Option<string>, contentId: Option<string>)

  /**
   * The verdict: the model's when a response arrived (safe exactly when it carries no
   * `blockReason`), otherwise the rule's. `blocked` is `Some(b)` when the model answered,
   * with `b` whether `promptFeedback.blockReason` was present.
   */
  function Verdict(text: string, hasApiKey: bool, blocked: Option<bool>): bool {
    if hasApiKey && |text| > 0 && blocked.Some? then !blocked.value else !RuleFlags(text)
  }

  /**
   * The handler after parsing. `blocked` is the safety feedback of the model call that
   * ended the retry loop, absent when every attempt failed.
   */
  method ModerateHandler(req: ModerateRequest, hasApiKey: bool, blocked: Option<bool>) returns (response: ModerateResponse)
    ensures !Truthy(req.text) <==> response == BadRequest("text required")
    ensures Truthy(req.text) ==> response == Moderated(Status(Verdict(req.text.value, hasApiKey, blocked)), req.contentType, req.contentId)
  {
    if !Truthy(req.text) {
      return BadRequest("text required");
    }
    var text := req.text.value;
    var isSafe := !RuleFlags(text);
    if hasApiKey && |text| > 0 {
      if blocked.Some? {
        isSafe := !blocked.value;
      }
    }
    return Moderated(Status(isSafe), req.contentType, req.contentId);
  }

  /**
   * A valid request is approved exactly when the model answered without a block reason, or,
   * with no key or no answer, when neither word occurs in the text.
   */
  lemma VerdictCases(text: string, hasApiKey: bool, blocked: Option<bool>)
    requires text != ""
    ensures hasApiKey && blocked.Some? ==> (Status(Verdict(text, hasApiKey, blocked)) == "approved" <==> !blocked.value)
    ensures !hasApiKey || blocked.None? ==>
      (Status(Verdict(text, hasApiKey, blocked)) == "approved" <==> !ContainsWord(text, Spam) && !ContainsWord(text, Harm))
  {
    RuleFlagsWords(text);
  }
}
