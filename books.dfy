/**
 * Book recommendations from a chat-completion service: the answer text is
 * trimmed and cut into its non-blank lines, and every way of not getting
 * an answer ends in the same one-line fallback.
 */
module Books {
  import opened Outcomes
  import opened Text

  const NoRecommendations: seq<string> := ["No recommendations found."]

  /**
   * What the completion request gave: it failed (network, status, or an
   * answer whose content is not a string), or it was answered with
   * `choices[0]?.message?.content`, absent when any step of that path is.
   */
  datatype Completion = Failed | Answered(content: Option<string>)

  /** `lines.filter(line => line.trim() !== "")`: the non-blank lines, untrimmed, in order. */
  function NonBlankLines(lines: seq<string>): (r: seq<string>)
    ensures |r| <= |lines|
    ensures forall i :: 0 <= i < |r| ==> !IsBlank(r[i]) && r[i] in lines
    ensures forall line :: line in lines && !IsBlank(line) ==> line in r
  {
    if |lines| == 0 then []
    else (if IsBlank(lines[0]) then [] else [lines[0]]) + NonBlankLines(lines[1..])
  }

  /** Filtering a concatenation filters each part: the kept lines keep their order. */
  lemma {:induction false} NonBlankLinesConcat(a: seq<string>, b: seq<string>)
    ensures NonBlankLines(a + b) == NonBlankLines(a) + NonBlankLines(b)
    decreases |a|
  {
    if |a| > 0 {
      assert (a + b)[1..] == a[1..] + b;
      NonBlankLinesConcat(a[1..], b);
    } else {
      assert a + b == b;
    }
  }

  /**
   * `getBookRecommendations`: without an API key, or without a non-blank
   * answer, the fallback; otherwise the trimmed answer split on "\n" with
   * the blank lines dropped.
   */
  function Recommendations(apiKey: Option<string>, answer: Completion): (r: seq<string>)
    ensures |r| >= 1
    ensures forall i :: 0 <= i < |r| ==> !IsBlank(r[i])
    ensures !Present(apiKey) || answer.Failed? ==> r == NoRecommendations
    ensures answer.Answered? && (answer.content.None? || IsBlank(answer.content.value)) ==> r == NoRecommendations
    ensures Present(apiKey) && answer.Answered? && answer.content.Some? && !IsBlank(answer.content.value) ==>
      r == NonBlankLines(Split(Trim(answer.content.value), '\n'))
  {
    FallbackNotBlank();
    if !Present(apiKey) then NoRecommendations
    else
      match answer
      case Failed => NoRecommendations
      case Answered(None) => NoRecommendations
      case Answered(Some(content)) =>
        var text := Trim(content);
        if text == "" then NoRecommendations
        else
          FirstLineNotBlank(text);
          NonBlankLines(Split(text, '\n'))
  }

  /** `NoRecommendations` holds no blank line. */
  lemma FallbackNotBlank()
    ensures forall i :: 0 <= i < |NoRecommendations| ==> !IsBlank(NoRecommendations[i])
  {
    assert !IsSpace(NoRecommendations[0][0]);
  }

  /** A trimmed, non-empty text has a non-blank first line, so its filtered lines are never empty. */
  lemma FirstLineNotBlank(text: string)
    requires text != "" && !IsSpace(text[0])
    ensures |NonBlankLines(Split(text, '\n'))| >= 1
  {
    var parts := Split(text, '\n');
    var k := IndexOf(text, '\n');
    assert k > 0;
    assert parts[0] == text[..k];
    assert parts[0][0] == text[0];
    assert !IsBlank(parts[0]);
    assert parts == [parts[0]] + parts[1..];
    NonBlankLinesConcat([parts[0]], parts[1..]);
  }

  /** A one-line answer without surrounding whitespace comes back as that single line. */
  lemma OneLineAnswer(apiKey: string, line: string)
    requires apiKey != ""
    requires line != "" && '\n' !in line && !IsSpace(line[0]) && !IsSpace(line[|line| - 1])
    ensures Recommendations(Some(apiKey), Answered(Some(line))) == [line]
  {
    SplitJoin([line], '\n');
    assert !IsBlank(line);
  }

  /** The lines of a two-line answer come back in the order the service wrote them. */
  lemma TwoLineAnswer(apiKey: string, first: string, second: string)
    requires apiKey != ""
    requires first != "" && '\n' !in first && !IsSpace(first[0])
    requires second != "" && '\n' !in second && !IsSpace(second[|second| - 1])
    ensures Recommendations(Some(apiKey), Answered(Some(first + "\n" + second))) == [first, second]
  {
    var text := first + "\n" + second;
    TwoLinesTrimmed(first, second);
    TwoLinesSplit(first, second);
    assert !IsBlank(first) && !IsBlank(second);
    TwoLinesKept(first, second);
    assert Recommendations(Some(apiKey), Answered(Some(text))) == NonBlankLines(Split(Trim(text), '\n'));
  }

  /** Two lines whose outer ends are not whitespace make a non-blank text with nothing to trim. */
  lemma TwoLinesTrimmed(first: string, second: string)
    requires first != "" && !IsSpace(first[0])
    requires second != "" && !IsSpace(second[|second| - 1])
    ensures !IsBlank(first + "\n" + second) && Trim(first + "\n" + second) == first + "\n" + second
  {
    var text := first + "\n" + second;
    assert text[0] == first[0] && text[|text| - 1] == second[|second| - 1];
  }

  /** Two lines without a line break, joined by one, split back into those two lines. */
  lemma TwoLinesSplit(first: string, second: string)
    requires '\n' !in first && '\n' !in second
    ensures Split(first + "\n" + second, '\n') == [first, second]
  {
    assert Join([first, second], '\n') == first + "\n" + second;
    SplitJoin([first, second], '\n');
  }

  /** Two non-blank lines are both kept, in order. */
  lemma TwoLinesKept(first: string, second: string)
    requires !IsBlank(first) && !IsBlank(second)
    ensures NonBlankLines([first, second]) == [first, second]
  {
    assert NonBlankLines([first]) == [first] by { assert [first][1..] == []; }
    assert NonBlankLines([second]) == [second] by { assert [second][1..] == []; }
    NonBlankLinesConcat([first], [second]);
    assert [first] + [second] == [first, second];
  }
}
