/**
 * The `generate-post` edge function: the topic check, the extraction of at most three
 * post variants from the model's reply text (split into lines, trim, keep the valid
 * lines, take the first three) and the fallback variant built from the request.
 */
module GeneratePost {
  import opened Common
  import opened Text
  import opened Seqs

  /** The longest variant kept, in characters. */
  const MaxVariant := 280
  /** How many variants are kept. */
  const VariantCount := 3

  /** A character of the class `[\d\-\*\+\.\s]`. */
  predicate IsFormattingChar(c: char) {
    ('0' <= c <= '9') || c == '-' || c == '*' || c == '+' || c == '.' || IsSpace(c)
  }

  /** `/^[\d\-\*\+\.\s]+$/.test(s)`: a non-empty line of numbering, bullets and white space only. */
  predicate IsFormattingOnly(s: string) {
    |s| > 0 && forall k :: 0 <= k < |s| ==> IsFormattingChar(s[k])
  }

  /** The filter on a trimmed line: non-empty, at most 280 characters, not formatting only. */
  predicate IsValidVariant(s: string) {
    0 < |s| <= MaxVariant && !IsFormattingOnly(s)
  }

  /** `text.split("\n").map((s) => s.trim())`. */
  function Lines(text: string): (r: seq<string>)
    ensures |r| == |Split(text, '\n')|
    ensures forall k :: 0 <= k < |r| ==> r[k] == Trim(Split(text, '\n')[k])
  {
    var pieces := Split(text, '\n');
    seq(|pieces|, k requires 0 <= k < |pieces| => Trim(pieces[k]))
  }

  /**
   * `.filter(IsValidVariant)`: the valid lines in their order, each as often as it occurs.
   * Being a subsequence with these counts determines the result.
   */
  function KeepValid(lines: seq<string>): (r: seq<string>)
    ensures |r| <= |lines|
    ensures forall s :: s in r ==> IsValidVariant(s)
    ensures IsSubsequence(r, lines)
    ensures forall s :: multiset(r)[s] == if IsValidVariant(s) then multiset(lines)[s] else 0
  {
    if lines == [] then []
    else
      var init := lines[..|lines| - 1];
      var last := lines[|lines| - 1];
      var rest := KeepValid(init);
      assert lines == init + [last];
      if IsValidVariant(last) then
        SubsequenceAppend(rest, init, last);
        rest + [last]
      else
        SubsequenceExtend(rest, init, last);
        rest
  }

  /** Split the reply text into lines, trim each, keep the valid ones, and take the first three. */
  function ExtractVariants(text: string): seq<string> {
    SliceTo(KeepValid(Lines(text)), VariantCount)
  }

  /** `Post about "<topic>" (<tone ?? "neutral">, <target_length ?? "short">).` */
  function Fallback(topic: string, tone: Option<string>, targetLength: Option<string>): string {
    "Post about \"" + topic + "\" (" + tone.GetOr("neutral") + ", " + targetLength.GetOr("short") + ")."
  }

  /** The request body; an absent or non-string `topic` is `None`. */
  datatype PostRequest = PostRequest(topic: Option<string>, tone: Option<string>, targetLength: Option<string>)

  /** The handler's two answers after authentication: a 400 with a message, or the variants. */
  datatype PostResponse = BadRequest(error: string) | Variants(variants: seq<string>)

  /**
   * The settled variants: those extracted from the reply text when that is a non-empty
   * string and yields any, and otherwise the single fallback variant.
   */
  function Generated(req: PostRequest, text: Option<string>): seq<string>
    requires Truthy(req.topic)
  {
    var extracted := if Truthy(text) then ExtractVariants(text.value) else [];
    if extracted == [] then [Fallback(req.topic.value, req.tone, req.targetLength)] else extracted
  }

  /**
   * The handler after authentication. `text` is the reply text of the model call that
   * ended the retry loop, absent when no key is configured or no attempt produced text.
   */
  method GeneratePostHandler(req: PostRequest, text: Option<string>) returns (response: PostResponse)
    ensures !Truthy(req.topic) <==> response == BadRequest("topic required")
    ensures Truthy(req.topic) ==> response == Variants(Generated(req, text))
  {
    if !Truthy(req.topic) {
      return BadRequest("topic required");
    }
    var variants: seq<string> := [];
    if Truthy(text) {
      variants := SliceTo(KeepValid(Lines(text.value)), VariantCount);
    }
    if |variants| == 0 {
      variants := [Fallback(req.topic.value, req.tone, req.targetLength)];
    }
    return Variants(variants);
  }

  /** Filtering keeps exactly the valid lines. */
  lemma {:induction false} KeepValidMembers(lines: seq<string>)
    ensures forall s :: s in KeepValid(lines) <==> s in lines && IsValidVariant(s)
  {
    if lines != [] {
      var init := lines[..|lines| - 1];
      KeepValidMembers(init);
      assert lines == init + [lines[|lines| - 1]];
    }
  }

  /**
   * At most three variants; each is a trimmed line of the text that is non-empty, at most
   * 280 characters and not formatting only; they keep the order of the lines.
   */
  lemma ExtractSound(text: string)
    ensures |ExtractVariants(text)| <= VariantCount
    ensures forall v :: v in ExtractVariants(text) ==>
      IsValidVariant(v) && IsTrimmed(v) && v in Lines(text)
    ensures IsSubsequence(ExtractVariants(text), Lines(text))
  {
    var kept := KeepValid(Lines(text));
    var r := ExtractVariants(text);
    KeepValidMembers(Lines(text));
    SubsequencePrefix(kept, Lines(text), |r|);
    assert forall v :: v in r ==> v in kept;
    forall v | v in r ensures IsTrimmed(v) {
      var k :| 0 <= k < |Lines(text)| && Lines(text)[k] == v;
    }
  }

  /** Nothing valid is lost while there are at most three valid lines; otherwise the first three are kept. */
  lemma ExtractComplete(text: string)
    ensures |KeepValid(Lines(text))| <= VariantCount ==> ExtractVariants(text) == KeepValid(Lines(text))
    ensures |KeepValid(Lines(text))| > VariantCount ==> ExtractVariants(text) == KeepValid(Lines(text))[..VariantCount]
    ensures |KeepValid(Lines(text))| <= VariantCount ==>
      forall s :: s in Lines(text) && IsValidVariant(s) ==> s in ExtractVariants(text)
  {
    var lines := Lines(text);
    var kept := KeepValid(lines);
    assert ExtractVariants(text) == SliceTo(kept, VariantCount);
    KeepValidMembers(lines);
  }

  /**
   * The answer always holds at least one variant: either the extracted ones, with everything
   * `ExtractSound` says of them, or exactly the fallback, which happens precisely when the
   * text is absent, empty or yields no valid line.
   */
  lemma GeneratedSound(req: PostRequest, text: Option<string>)
    requires Truthy(req.topic)
    ensures 1 <= |Generated(req, text)| <= VariantCount
    ensures Generated(req, text) == [Fallback(req.topic.value, req.tone, req.targetLength)]
      <== !Truthy(text) || ExtractVariants(text.value) == []
    ensures Truthy(text) && ExtractVariants(text.value) != [] ==> Generated(req, text) == ExtractVariants(text.value)
  {
    if Truthy(text) {
      ExtractSound(text.value);
    }
  }

  /**
   * The fallback names the topic in quotes, then in parentheses the tone and the length,
   * separated by ", ": the given ones, or "neutral" and "short" when absent.
   */
  lemma FallbackShape(topic: string, tone: Option<string>, targetLength: Option<string>)
    ensures var f := Fallback(topic, tone, targetLength);
      var t := |topic|;
      var n := if tone.Some? then |tone.value| else 7;
      var m := if targetLength.Some? then |targetLength.value| else 5;
      && |f| == 19 + t + n + m
      && StartsWith(f, "Post about \"")
      && f[12..12 + t] == topic
      && f[12 + t..15 + t] == "\" ("
      && (tone.Some? ==> f[15 + t..15 + t + n] == tone.value)
      && (tone.None? ==> f[15 + t..15 + t + n] == "neutral")
      && f[15 + t + n..17 + t + n] == ", "
      && (targetLength.Some? ==> f[17 + t + n..17 + t + n + m] == targetLength.value)
      && (targetLength.None? ==> f[17 + t + n..17 + t + n + m] == "short")
      && f[|f| - 2..] == ")."
  {
  }

  /** A line of numbering or bullets is dropped whatever its length. */
  lemma BulletsDropped(s: string)
    requires 0 < |s| && forall k :: 0 <= k < |s| ==> s[k] in "0123456789-*+. "
    ensures !IsValidVariant(s)
  {
    forall k | 0 <= k < |s| ensures IsFormattingChar(s[k]) {
      assert s[k] in "0123456789-*+. ";
    }
  }
}
