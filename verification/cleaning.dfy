/**
 * `_clean_json_response`: the clean-up applied to every language-model reply
 * before it is parsed as JSON (and to the plain-language explanation).
 */
module ReplyCleaning {
  import opened Text

  /** The opening marker of a fenced JSON block. */
  const JsonFence: string := "```json"

  /**
   * Deletes every newline, then every "```json", then every remaining fence,
   * then strips surrounding whitespace. The result holds no newline and no
   * fence, and has no whitespace at either end.
   */
  function CleanJsonResponse(content: string): (r: string)
    ensures '\n' !in r
    ensures !Contains(r, Fence)
    ensures |r| > 0 ==> !IsSpace(r[0]) && !IsSpace(r[|r| - 1])
  {
    var noNewline := ReplaceAll(content, "\n", "");
    var noJsonFence := ReplaceAll(noNewline, JsonFence, "");
    var noFence := ReplaceAll(noJsonFence, Fence, "");
    DeleteCharComplete(content, '\n');
    DeleteKeepsAbsentChar(noNewline, JsonFence, '\n');
    DeleteKeepsAbsentChar(noJsonFence, Fence, '\n');
    DeleteFenceComplete(noJsonFence);
    StripKeepsAbsent(noFence, Fence, '\n');
    Strip(noFence)
  }

  /** A reply with no newline, no fence and no surrounding whitespace is already clean. */
  lemma CleanFixesClean(y: string)
    requires '\n' !in y && !Contains(y, Fence)
    requires |y| > 0 ==> !IsSpace(y[0]) && !IsSpace(y[|y| - 1])
    ensures CleanJsonResponse(y) == y
  {
    AbsentCharNotContained(y, '\n');
    ReplaceAllAbsent(y, "\n", "");
    assert JsonFence == Fence + "json";
    AbsentPrefixPattern(y, Fence, "json");
    ReplaceAllAbsent(y, JsonFence, "");
    ReplaceAllAbsent(y, Fence, "");
    StripTrimmed(y);
  }

  /** Cleaning a cleaned reply changes nothing. */
  lemma CleanIdempotent(content: string)
    ensures CleanJsonResponse(CleanJsonResponse(content)) == CleanJsonResponse(content)
  {
    CleanFixesClean(CleanJsonResponse(content));
  }

  /**
   * A reply that wraps a one-line JSON body in a fenced block comes back as
   * exactly that body.
   */
  lemma CleanFencedReply(body: string)
    requires '\n' !in body && '`' !in body
    requires |body| > 0 ==> !IsSpace(body[0]) && !IsSpace(body[|body| - 1])
    ensures CleanJsonResponse(JsonFence + "\n" + body + "\n" + Fence) == body
  {
    var reply := JsonFence + "\n" + body + "\n" + Fence;
    // newlines
    assert reply == JsonFence + ("\n" + (body + ("\n" + Fence)));
    ReplaceAllSkipsPrefix(JsonFence, "\n" + (body + ("\n" + Fence)), "\n", "");
    ReplaceAllAtHead("\n", body + ("\n" + Fence), "");
    ReplaceAllSkipsPrefix(body, "\n" + Fence, "\n", "");
    ReplaceAllAtHead("\n", Fence, "");
    ReplaceAllSkipsPrefix(Fence, "", "\n", "");
    assert Fence + "" == Fence;
    var noNewline := ReplaceAll(reply, "\n", "");
    assert noNewline == JsonFence + (body + Fence);
    // the opening marker
    ReplaceAllAtHead(JsonFence, body + Fence, "");
    ReplaceAllSkipsPrefix(body, Fence, JsonFence, "");
    var noJsonFence := ReplaceAll(noNewline, JsonFence, "");
    assert noJsonFence == body + Fence;
    // the closing fence
    ReplaceAllSkipsPrefix(body, Fence, Fence, "");
    ReplaceAllAtHead(Fence, "", "");
    assert ReplaceAll(noJsonFence, Fence, "") == body;
    StripTrimmed(body);
  }
}
