/**
 * The response handling of `ETFAnalyzer.analyze_tweet` (src/analyzer.py):
 * the model's reply is stripped of whitespace and of a surrounding code
 * fence, handed to the JSON parser, and a parsed list is returned as the
 * keywords; anything else gives `[]`. The call to the language model and
 * `json.loads` itself come in as data and as a parameter.
 */
module Analyzer {
  import opened PyStr

  /** The opening fence with a language tag, and a bare fence. */
  const JsonFence: string := "```json"
  const Fence: string := "```"

  /** `response.choices[0].message.content`, or the exception raised while getting or stripping it. */
  datatype LlmReply = CallFailed | Content(text: string)

  /** What `json.loads` made of the cleaned text: an error, a list (of strings), or some other value. */
  datatype Parsed = Invalid | List(items: seq<string>) | NotList

  /** The cleanup between the first `strip()` and `json.loads` (src/analyzer.py:45-54). */
  function Cleanup(content: string): (r: string)
    ensures Trimmed(r) && |r| <= |content|
  {
    Strip(Unfence(Strip(content)))
  }

  /** The three conditional slices that remove a leading `json` fence, a leading fence and a trailing fence. */
  function Unfence(c0: string): (c3: string)
    ensures |c3| <= |c0|
  {
    var c1 := if StartsWith(c0, JsonFence) then c0[|JsonFence|..] else c0;
    var c2 := if StartsWith(c1, Fence) then c1[|Fence|..] else c1;
    if EndsWith(c2, Fence) then c2[..|c2| - |Fence|] else c2
  }

  /** A reply with no fence at either end is only stripped of whitespace. */
  lemma CleanupFenceFree(content: string)
    requires !StartsWith(Strip(content), Fence) && !EndsWith(Strip(content), Fence)
    ensures Cleanup(content) == Strip(content)
  {
    UnfenceFenceFree(Strip(content));
    StripIdempotent(content);
  }

  lemma UnfenceFenceFree(c0: string)
    requires !StartsWith(c0, Fence) && !EndsWith(c0, Fence)
    ensures Unfence(c0) == c0
  {
    assert !StartsWith(c0, JsonFence) by {
      if |JsonFence| <= |c0| {
        assert c0[..|JsonFence|][..|Fence|] == c0[..|Fence|];
      }
    }
  }

  /** `body` wrapped in a `json` code fence. */
  function Fenced(body: string): (s: string)
    ensures StartsWith(s, JsonFence) && EndsWith(s, Fence)
  {
    JsonFence + body + Fence
  }

  /** Unwrapping a fenced reply gives back its body, stripped, unless the body itself starts with a backtick. */
  lemma CleanupFenced(body: string)
    requires body == [] || body[0] != '`'
    ensures Cleanup(Fenced(body)) == Strip(body)
  {
    var s := Fenced(body);
    assert Trimmed(s) by {
      assert s[0] == '`' && s[|s| - 1] == '`';
    }
    StripTrimmed(s);
    var c1 := s[|JsonFence|..];
    assert c1 == body + Fence;
    if body == [] {
      assert c1 == Fence;
      assert c1[|Fence|..] == [];
    } else {
      assert c1[0] == body[0];
      assert !StartsWith(c1, Fence) by {
        assert c1[0] != Fence[0];
      }
      assert c1[..|c1| - |Fence|] == body;
    }
  }

  /**
   * A body wrapped in bare code fences comes back stripped, unless it starts
   * with a backtick or with `json` (which the first slice would eat).
   */
  lemma CleanupBareFenced(body: string)
    requires body != [] && body[0] != '`' && !StartsWith(body, "json")
    ensures Cleanup(Fence + body + Fence) == Strip(body)
  {
    var s := Fence + body + Fence;
    assert Trimmed(s) by {
      assert s[0] == '`' && s[|s| - 1] == '`';
    }
    StripTrimmed(s);
    assert !StartsWith(s, JsonFence) by {
      if |JsonFence| <= |s| {
        if |body| >= 4 {
          assert s[3..7] == body[..4];
        } else {
          assert s[3 + |body|] == '`';
          assert JsonFence[3 + |body|] != '`';
        }
      }
    }
    assert s[|Fence|..] == body + Fence;
    assert StartsWith(s, Fence);
    var c2 := body + Fence;
    assert EndsWith(c2, Fence);
    assert c2[..|c2| - |Fence|] == body;
  }

  /** What `analyze_tweet` returns for a reply, given how `json.loads` parses the cleaned text. */
  function AnalyzeReply(reply: LlmReply, parse: string -> Parsed): (keywords: seq<string>)
    ensures reply.Content? && parse(Cleanup(reply.text)).List? ==> keywords == parse(Cleanup(reply.text)).items
    ensures keywords != [] ==> reply.Content? && parse(Cleanup(reply.text)).List?
  {
    match reply
    case CallFailed => []
    case Content(text) =>
      match parse(Cleanup(text))
      case List(items) => items
      case _ => []
  }

  /** A failed call, unparsable text, or a parsed value that is not a list all give no keywords. */
  lemma AnalyzeReplyFallback(reply: LlmReply, parse: string -> Parsed)
    requires reply.CallFailed? || !parse(Cleanup(reply.text)).List?
    ensures AnalyzeReply(reply, parse) == []
  {
  }
}
