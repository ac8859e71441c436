/**
 * The `bot.onText` patterns of index.js, none anchored: `/\/tweet (.+)/`, `/\/thread (.+)/`
 * and `/\/regenerate/`. A pattern matches anywhere in the message text; `(.+)` takes at least one
 * character and then greedily everything up to the next line terminator.
 */
module Commands {
  import opened Wrappers
  import opened JsText

  const TweetCommand: string := "/tweet "
  const ThreadCommand: string := "/thread "
  const RegenerateCommand: string := "/regenerate"

  /** `word` occurs in `text` at index `i`. */
  predicate OccursAt(word: string, text: string, i: int) {
    0 <= i && i + |word| <= |text| && text[i..i + |word|] == word
  }

  /** `prefix(.+)` can start matching at index `i`: `prefix` is there and is followed by a
      character that `.` accepts. */
  predicate MatchesAt(prefix: string, text: string, i: int) {
    OccursAt(prefix, text, i) && i + |prefix| < |text| && !IsLineTerminator(text[i + |prefix|])
  }

  /** The leftmost index at or after `from` where `prefix(.+)` matches. */
  function FirstMatch(prefix: string, text: string, from: nat): (r: Option<nat>)
    requires from <= |text|
    ensures r.Some? ==> from <= r.value < |text| && MatchesAt(prefix, text, r.value)
    ensures r.Some? ==> forall j :: from <= j < r.value ==> !MatchesAt(prefix, text, j)
    ensures r.None? ==> forall j :: from <= j ==> !MatchesAt(prefix, text, j)
    decreases |text| - from
  {
    if from == |text| then None
    else if MatchesAt(prefix, text, from) then Some(from)
    else FirstMatch(prefix, text, from + 1)
  }

  /** What greedy `.+` (after its first character) takes: the longest prefix of `s` without a
      line terminator. */
  function RestOfLine(s: string): (line: string)
    ensures |line| <= |s| && line == s[..|line|]
    ensures forall i :: 0 <= i < |line| ==> !IsLineTerminator(line[i])
    ensures |line| == |s| || IsLineTerminator(s[|line|])
  {
    if s == [] || IsLineTerminator(s[0]) then [] else [s[0]] + RestOfLine(s[1..])
  }

  /** `match[1]` of `prefix(.+)` on `text`, or nothing when the pattern does not match. */
  function Payload(prefix: string, text: string): (r: Option<string>)
    ensures r.None? <==> forall i :: 0 <= i < |text| ==> !MatchesAt(prefix, text, i)
    ensures r.Some? ==> |r.value| > 0
    ensures r.Some? ==> forall k :: 0 <= k < |r.value| ==> !IsLineTerminator(r.value[k])
  {
    match FirstMatch(prefix, text, 0)
    case None => None
    case Some(i) => Some(RestOfLine(text[i + |prefix|..]))
  }

  /** Where the payload sits: right after the leftmost match of the command, up to the end
      of that line. */
  lemma PayloadPosition(prefix: string, text: string)
    requires Payload(prefix, text).Some?
    ensures var i := FirstMatch(prefix, text, 0).value;
            var p := Payload(prefix, text).value;
            && OccursAt(prefix, text, i)
            && text[i + |prefix|..i + |prefix| + |p|] == p
            && (i + |prefix| + |p| == |text| || IsLineTerminator(text[i + |prefix| + |p|]))
  {
    var i := FirstMatch(prefix, text, 0).value;
    var rest := text[i + |prefix|..];
    var p := RestOfLine(rest);
    assert rest[..|p|] == text[i + |prefix|..i + |prefix| + |p|];
    if i + |prefix| + |p| < |text| {
      assert rest[|p|] == text[i + |prefix| + |p|];
    }
  }

  /** `/\/regenerate/` matches: the word occurs somewhere in the text. */
  function Mentions(word: string, text: string): (r: bool)
    ensures r <==> exists i :: OccursAt(word, text, i)
    decreases |text|
  {
    if |text| < |word| then false
    else if text[..|word|] == word then assert OccursAt(word, text, 0); true
    else
      OccursAfterFirst(word, text);
      Mentions(word, text[1..])
  }

  /** With no occurrence at index 0, the occurrences are those in `text[1..]`, moved by one. */
  lemma OccursAfterFirst(word: string, text: string)
    requires |text| > 0 && !OccursAt(word, text, 0)
    ensures (exists i :: OccursAt(word, text, i)) <==> (exists j :: OccursAt(word, text[1..], j))
  {
    if i :| OccursAt(word, text, i) {
      assert text[1..][i - 1..i - 1 + |word|] == text[i..i + |word|];
      assert OccursAt(word, text[1..], i - 1);
    }
    if j :| OccursAt(word, text[1..], j) {
      assert text[1..][j..j + |word|] == text[j + 1..j + 1 + |word|];
      assert OccursAt(word, text, j + 1);
    }
  }

  /** `/tweet` alone, `/tweet ` with nothing after the space, and `/tweet ` followed by a line
      break match nothing, so no handler runs for them. */
  lemma BareTweetDoesNotMatch()
    ensures Payload(TweetCommand, "/tweet").None?
    ensures Payload(TweetCommand, "/tweet ").None?
    ensures Payload(TweetCommand, "/tweet \nhello").None?
  {
    var text := "/tweet \nhello";
    forall i | 0 <= i < |text| ensures !MatchesAt(TweetCommand, text, i) {
      if i == 0 {
        assert IsLineTerminator(text[7]);
      } else if i + 7 < |text| {
        assert text[i..i + 7][0] == text[i] != '/';
      }
    }
  }

  /** The payload of a message that starts with the command is the rest of its first line. */
  lemma LeadingCommand(prefix: string, line: string, more: string)
    requires |line| > 0 && forall k :: 0 <= k < |line| ==> !IsLineTerminator(line[k])
    requires more == [] || IsLineTerminator(more[0])
    ensures Payload(prefix, prefix + line + more) == Some(line)
  {
    var text := prefix + line + more;
    assert text[..|prefix|] == prefix;
    assert text[|prefix|] == line[0];
    assert MatchesAt(prefix, text, 0);
    var rest := text[|prefix|..];
    assert rest == line + more;
    LeadingRestOfLine(line, more);
  }

  lemma {:induction false} LeadingRestOfLine(line: string, more: string)
    requires forall k :: 0 <= k < |line| ==> !IsLineTerminator(line[k])
    requires more == [] || IsLineTerminator(more[0])
    ensures RestOfLine(line + more) == line
  {
    if line == [] {
      assert line + more == more;
    } else {
      assert (line + more)[1..] == line[1..] + more;
      LeadingRestOfLine(line[1..], more);
      assert [line[0]] + line[1..] == line;
    }
  }
}
