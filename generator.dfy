/**
 * generator.js: the three calls into the completion endpoint and what is done with the answer.
 * The awaited `openai.chat.completions.create(...)` is opaque and arrives as an `ApiCall`:
 * either the response it resolved to or a rejection. Prompts and sampling settings are configuration.
 */
module Generator {
  import opened Wrappers
  import opened JsText

  /** The `input` argument of `generateTweet`: only whether it is a string, and which, matters. */
  datatype JsValue = JsString(text: string) | JsNonString

  /** `response.choices[i].message`; `content` may be null. */
  datatype ChatMessage = ChatMessage(content: Option<string>)
  /** `response.choices[i]`; `message` may be missing. */
  datatype Choice = Choice(message: Option<ChatMessage>)
  /** The resolved response; `choices` may be missing. */
  datatype Completion = Completion(choices: Option<seq<Choice>>)

  /** What awaiting the endpoint call gives: a response, or a rejection that propagates. */
  datatype ApiCall = Returned(completion: Completion) | Rejected

  datatype GenerationError =
    | InvalidInput                 // 'Invalid input provided'
    | UnexpectedResponseStructure  // 'Unexpected response structure from OpenAI API'
    | PropertyAccessError          // a TypeError from reading a property of undefined or null
    | ApiFailure                   // the rejection of the endpoint call itself

  /** `input` is truthy and a string: a non-empty string. */
  predicate IsValidInput(input: JsValue) {
    input.JsString? && input.text != ""
  }

  /** `response.choices && response.choices[0] && response.choices[0].message` is truthy. */
  predicate HasExpectedStructure(c: Completion) {
    c.choices.Some? && |c.choices.value| > 0 && c.choices.value[0].message.Some?
  }

  /** The `content` of the first choice's message, for a response of the expected structure. */
  function FirstContent(c: Completion): Option<string>
    requires HasExpectedStructure(c)
  {
    c.choices.value[0].message.value.content
  }

  /** `tweet.trim().length > 0`, the filter both list-producing calls apply. */
  predicate HasContent(line: string)
    ensures HasContent(line) <==> !IsBlank(line)
  {
    |Trim(line)| > 0
  }

  /** `content.split('\n').filter(l => l.trim().length > 0)`: the post-processing of
      `generateThread` and `suggestTweetIdeas`. Lines are kept untrimmed, and there are
      never more of them than lines in `content`. */
  function NonBlankLines(content: string): (lines: seq<string>)
    ensures |lines| <= Count(content, '\n') + 1
    ensures forall i :: 0 <= i < |lines| ==> HasContent(lines[i])
    ensures forall l :: l in lines <==> l in Split(content, '\n') && HasContent(l)
  {
    FilterMembership(Split(content, '\n'), HasContent);
    Filter(Split(content, '\n'), HasContent)
  }

  /** `generateTweet(openai, input)`: the input guard comes before the call, the structure
      guard after it, and the first choice's content is returned as it is (possibly null). */
  function GenerateTweet(input: JsValue, call: ApiCall): (r: Result<Option<string>, GenerationError>)
    ensures r == Failure(InvalidInput) <==> !IsValidInput(input)
    ensures IsValidInput(input) && call.Rejected? ==> r == Failure(ApiFailure)
    ensures r.Success? <==> IsValidInput(input) && call.Returned? && HasExpectedStructure(call.completion)
    ensures r.Success? ==> r.value == FirstContent(call.completion)
    ensures r == Failure(UnexpectedResponseStructure) <==>
              IsValidInput(input) && call.Returned? && !HasExpectedStructure(call.completion)
  {
    if !IsValidInput(input) then Failure(InvalidInput)
    else if call.Rejected? then Failure(ApiFailure)
    else if !HasExpectedStructure(call.completion) then Failure(UnexpectedResponseStructure)
    else Success(FirstContent(call.completion))
  }

  /** `response.choices[0].message.content.split('\n').filter(...)`, with no guard of its own:
      a missing piece of the response fails by property access. */
  function GenerateThread(call: ApiCall): (r: Result<seq<string>, GenerationError>)
    ensures r.Success? <==> call.Returned? && HasExpectedStructure(call.completion)
                            && FirstContent(call.completion).Some?
    ensures r.Success? ==> r.value == NonBlankLines(FirstContent(call.completion).value)
    ensures r.Failure? ==> r.error == (if call.Rejected? then ApiFailure else PropertyAccessError)
  {
    match call
    case Rejected => Failure(ApiFailure)
    case Returned(completion) =>
      match completion.choices
      case None => Failure(PropertyAccessError)            // undefined[0]
      case Some(choices) =>
        if |choices| == 0 then Failure(PropertyAccessError) // undefined.message
        else
          match choices[0].message
          case None => Failure(PropertyAccessError)         // undefined.content
          case Some(message) =>
            match message.content
            case None => Failure(PropertyAccessError)       // null.split
            case Some(content) => Success(NonBlankLines(content))
  }

  /** `suggestTweetIdeas(openai, topic)`: the same unguarded read and the same split-and-filter. */
  function SuggestTweetIdeas(call: ApiCall): (r: Result<seq<string>, GenerationError>)
    ensures r == GenerateThread(call)
  {
    if call.Rejected? then Failure(ApiFailure)
    else if call.completion.choices.None? || |call.completion.choices.value| == 0 then Failure(PropertyAccessError)
    else if call.completion.choices.value[0].message.None? then Failure(PropertyAccessError)
    else if call.completion.choices.value[0].message.value.content.None? then Failure(PropertyAccessError)
    else Success(NonBlankLines(call.completion.choices.value[0].message.value.content.value))
  }

  /** The input guard runs before the endpoint is called: for invalid input the outcome
      of the call has no influence. */
  lemma InputGuardPrecedesCall(input: JsValue, call1: ApiCall, call2: ApiCall)
    requires !IsValidInput(input)
    ensures GenerateTweet(input, call1) == GenerateTweet(input, call2) == Failure(InvalidInput)
  {
  }

  /** Where `generateTweet` reports a malformed response, `generateThread` fails on the same
      response by property access; and `generateThread` also fails where the tweet call would
      hand back a null content. */
  lemma ThreadFailsWhereTweetIsGuarded(input: JsValue, call: ApiCall)
    requires IsValidInput(input)
    ensures GenerateTweet(input, call).Failure? ==> GenerateThread(call).Failure?
    ensures GenerateThread(call).Success? <==> GenerateTweet(input, call).Success? && GenerateTweet(input, call).value.Some?
  {
  }

  /** When `content` has no blank or white-space-only line, joining the result with '\n'
      gives back `content` exactly. */
  lemma NoBlankLinesRoundTrip(content: string)
    requires forall l :: l in Split(content, '\n') ==> HasContent(l)
    ensures Join(NonBlankLines(content), '\n') == content
  {
    var parts := Split(content, '\n');
    assert forall i :: 0 <= i < |parts| ==> parts[i] in parts;
    FilterKeepsAll(parts, HasContent);
    JoinSplit(content, '\n');
  }

  /** No kept line contains a line break. */
  lemma NonBlankLinesHaveNoBreak(content: string)
    ensures forall i :: 0 <= i < |NonBlankLines(content)| ==> '\n' !in NonBlankLines(content)[i]
  {
    var lines := NonBlankLines(content);
    forall i | 0 <= i < |lines| ensures '\n' !in lines[i] {
      assert lines[i] in lines;
    }
  }

  /** The returned lines are lines of the content at strictly increasing positions, and no
      line with content is skipped: order and repetitions are those of `content`. */
  lemma NonBlankLinesInOrder(content: string) returns (idx: seq<nat>)
    ensures |idx| == |NonBlankLines(content)|
    ensures forall k :: 0 <= k < |idx| ==>
              idx[k] < |Split(content, '\n')| && NonBlankLines(content)[k] == Split(content, '\n')[idx[k]]
    ensures forall k, m :: 0 <= k < m < |idx| ==> idx[k] < idx[m]
    ensures forall i :: 0 <= i < |Split(content, '\n')| && HasContent(Split(content, '\n')[i]) ==> i in idx
  {
    idx := FilterPositions(Split(content, '\n'), HasContent);
  }

  /** For any three lines with content, an empty line and a line of spaces between them
      disappear, and the three come back in order. */
  lemma BlankLinesDropped(a: string, b: string, c: string)
    requires HasContent(a) && HasContent(b) && HasContent(c)
    requires '\n' !in a && '\n' !in b && '\n' !in c
    ensures NonBlankLines(a + "\n\n" + b + "\n   \n" + c) == [a, b, c]
  {
    SplitFiveLines(a, b, c);
    assert !HasContent("") && !HasContent("   ") by {
      assert IsBlank("") && IsBlank("   ");
    }
    FilterFiveLines(a, "", b, "   ", c, HasContent);
  }

  lemma FilterFiveLines<T(!new)>(a: T, x: T, b: T, y: T, c: T, keep: T -> bool)
    requires keep(a) && keep(b) && keep(c)
    requires !keep(x) && !keep(y)
    ensures Filter([a, x, b, y, c], keep) == [a, b, c]
  {
    var l3 := [y, c];
    var l2 := [b] + l3;
    var l1 := [x] + l2;
    assert [a, x, b, y, c] == [a] + l1;
    assert Filter(l3, keep) == [c] by {
      assert l3[1..] == [c];
      assert [c][1..] == [];
    }
    assert Filter(l2, keep) == [b, c] by {
      assert l2[1..] == l3;
    }
    assert Filter(l1, keep) == [b, c] by {
      assert l1[1..] == l2;
    }
    assert ([a] + l1)[1..] == l1;
  }

  lemma SplitFiveLines(a: string, b: string, c: string)
    requires '\n' !in a && '\n' !in b && '\n' !in c
    ensures Split(a + "\n\n" + b + "\n   \n" + c, '\n') == [a, "", b, "   ", c]
  {
    var s4 := c;
    var s3 := "   " + ['\n'] + s4;
    var s2 := b + ['\n'] + s3;
    var s1 := "" + ['\n'] + s2;
    var s0 := a + ['\n'] + s1;
    assert s0 == a + "\n\n" + b + "\n   \n" + c;
    SplitWithoutSeparator(s4, '\n');
    SplitAtSeparator("   ", s4, '\n');
    SplitAtSeparator(b, s3, '\n');
    SplitAtSeparator("", s2, '\n');
    SplitAtSeparator(a, s1, '\n');
  }

  /** Segments are not trimmed: surrounding spaces and a carriage return stay in place. */
  lemma UntrimmedExample()
    ensures NonBlankLines(" a \r\n\t") == [" a \r"]
  {
    var parts := [" a \r", "\t"];
    assert Join(parts, '\n') == " a \r\n\t";
    SplitJoin(parts, '\n');
    KeepFirstOfTwo(" a \r", "\t");
  }

  /** Filtering two lines of which only the first has content. */
  lemma KeepFirstOfTwo(a: string, b: string)
    requires |a| > 1 && !IsWhiteSpace(a[1]) && IsBlank(b)
    ensures Filter([a, b], HasContent) == [a]
  {
    assert HasContent(a) by {
      assert !IsBlank(a);
    }
    assert [a, b][1..] == [b];
    assert [b][1..] == [];
  }
}
