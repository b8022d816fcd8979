/**
 The quiz summary placed in the prompt: one line `Q<question id>: <answer>` per answer,
 in the order given, joined with newlines.

 `ReadSummary` reads such a summary back; it is not part of the server and exists to
 state that the summary loses nothing: every list of answers whose texts hold no newline
 is recovered exactly from its summary.
 */
module Quiz {
  import opened Text
  import opened Models

  datatype Option<T> = None | Some(value: T)

  /** `f"Q{ans.question_id}: {ans.answer}"`. The line determines the answer: reading it
      back gives the same id and text. It holds a newline only when the answer does. */
  function AnswerLine(a: QuizAnswer): (line: string)
    ensures ReadAnswerLine(line) == Some(a)
    ensures '\n' in line <==> '\n' in a.answer
  {
    LineReadsBack(a.questionId, a.answer);
    "Q" + IntToDecimal(a.questionId) + ": " + a.answer
  }

  /** The list comprehension: the line of each answer, in order. */
  function AnswerLines(answers: seq<QuizAnswer>): (lines: seq<string>)
    ensures |lines| == |answers|
    ensures forall k :: 0 <= k < |answers| ==> lines[k] == AnswerLine(answers[k])
  {
    if answers == [] then [] else [AnswerLine(answers[0])] + AnswerLines(answers[1..])
  }

  /** No answer text contains a newline. */
  predicate NoNewlines(answers: seq<QuizAnswer>) {
    forall k :: 0 <= k < |answers| ==> '\n' !in answers[k].answer
  }

  /** `"\n".join(...)` over the answer lines. The summary is empty exactly when there are no
      answers, and it loses nothing: when no answer text contains a newline, reading it back
      gives the answers, with their ids, in their order. */
  function QuizSummary(answers: seq<QuizAnswer>): (summary: string)
    ensures summary == [] <==> answers == []
    ensures NoNewlines(answers) ==> ReadSummary(summary) == Some(answers)
  {
    JoinedLinesReadBack(answers);
    Join(AnswerLines(answers), "\n")
  }

  /** The joined answer lines are empty only for no answers, and read back to the answers. */
  lemma JoinedLinesReadBack(answers: seq<QuizAnswer>)
    ensures Join(AnswerLines(answers), "\n") == [] <==> answers == []
    ensures NoNewlines(answers) ==> ReadSummary(Join(AnswerLines(answers), "\n")) == Some(answers)
  {
    var lines := AnswerLines(answers);
    if answers != [] {
      assert Join(lines, "\n") != [] by {
        assert lines[0][0] == 'Q';
      }
      if NoNewlines(answers) {
        forall k | 0 <= k < |lines| ensures '\n' !in lines[k] {
        }
        SplitJoin(lines, '\n');
        ReadLinesOfAnswerLines(answers);
      }
    }
  }

  /** No answers give the empty summary; one answer gives its line and no newline. */
  lemma SummaryOfFew(a: QuizAnswer)
    ensures QuizSummary([]) == []
    ensures QuizSummary([a]) == AnswerLine(a)
  {
    assert AnswerLines([a]) == [AnswerLine(a)];
  }

  /** Adding an answer adds one newline and its line at the end: newlines stand between
      lines, never after the last. */
  lemma SummaryAppend(answers: seq<QuizAnswer>, a: QuizAnswer)
    requires answers != []
    ensures QuizSummary(answers + [a]) == QuizSummary(answers) + "\n" + AnswerLine(a)
  {
    assert AnswerLines(answers + [a]) == AnswerLines(answers) + [AnswerLine(a)];
    JoinSnoc(AnswerLines(answers), AnswerLine(a), "\n");
  }

  /** Splitting the summary at newlines gives back the answer lines, as long as no answer
      text contains a newline. */
  lemma SummarySplitsIntoLines(answers: seq<QuizAnswer>)
    requires answers != [] && NoNewlines(answers)
    ensures Split(QuizSummary(answers), '\n') == AnswerLines(answers)
  {
    var lines := AnswerLines(answers);
    forall k | 0 <= k < |lines| ensures '\n' !in lines[k] {
    }
    SplitJoin(lines, '\n');
  }

  /** Digits only. */
  predicate AllDigits(s: string) {
    forall k :: 0 <= k < |s| ==> '0' <= s[k] <= '9'
  }

  /** `int(s)` restricted to what `str(int)` produces: an optional minus sign and digits. */
  function ReadInt(s: string): Option<int>
  {
    if s != [] && s[0] == '-' && |s| > 1 && AllDigits(s[1..]) then
      var magnitude: int := DecimalValue(s[1..]);
      Some(-magnitude)
    else if s != [] && AllDigits(s) then Some(DecimalValue(s))
    else None
  }

  lemma ReadIntOfDecimal(n: int)
    ensures ReadInt(IntToDecimal(n)) == Some(n)
  {
    if n < 0 {
      assert IntToDecimal(n)[1..] == NatToDecimal(-n);
    }
  }

  /** Reads `Q<id>: <answer>` back into an answer. */
  function ReadAnswerLine(line: string): Option<QuizAnswer>
  {
    if StartsWith(line, "Q") && ':' in line[1..] then ReadIdAndAnswer(line[1..]) else None
  }

  /** Reads `<id>: <answer>`: the id is what comes before the first colon. */
  function ReadIdAndAnswer(tail: string): Option<QuizAnswer>
    requires ':' in tail
  {
    var rest := AfterFirst(tail, ':');
    var id := ReadInt(tail[..|tail| - |rest| - 1]);
    if id.Some? && StartsWith(rest, " ") then Some(QuizAnswer(id.value, rest[1..])) else None
  }

  /** The decimal rendering of an id holds only a minus sign and digits. */
  lemma DecimalChars(n: int)
    ensures forall k :: 0 <= k < |IntToDecimal(n)| ==>
      IntToDecimal(n)[k] == '-' || '0' <= IntToDecimal(n)[k] <= '9'
  {
  }

  /** After the id, the first colon is the one the line format puts there. */
  lemma AfterId(d: string, answer: string)
    requires forall k :: 0 <= k < |d| ==> d[k] != ':'
    ensures ':' in d + ": " + answer
    ensures AfterFirst(d + ": " + answer, ':') == " " + answer
  {
    var tail := d + ": " + answer;
    assert tail == (d + ":") + (" " + answer);
    AfterHeader(tail, d + ":");
  }

  /** The line built from an id and a text reads back to that id and text, and holds a
      newline exactly when the text does. */
  lemma LineReadsBack(id: int, answer: string)
    ensures var line := "Q" + IntToDecimal(id) + ": " + answer;
      ReadAnswerLine(line) == Some(QuizAnswer(id, answer)) && ('\n' in line <==> '\n' in answer)
  {
    var d := IntToDecimal(id);
    DecimalChars(id);
    LineReadsBackFrom(d, answer);
    ReadIntOfDecimal(id);
    LineNewline(d, answer);
  }

  /** The id part of the line holds no newline. */
  lemma LineNewline(d: string, answer: string)
    requires forall k :: 0 <= k < |d| ==> d[k] == '-' || '0' <= d[k] <= '9'
    ensures '\n' in "Q" + d + ": " + answer <==> '\n' in answer
  {
    assert "Q" + d + ": " + answer == ("Q" + d + ": ") + answer;
  }

  /** With an id rendered as `d`, which holds no colon, the line reads back to what `d`
      reads as and to the text. */
  lemma LineReadsBackFrom(d: string, answer: string)
    requires forall k :: 0 <= k < |d| ==> d[k] != ':'
    ensures ReadInt(d).Some? ==>
      ReadAnswerLine("Q" + d + ": " + answer) == Some(QuizAnswer(ReadInt(d).value, answer))
  {
    var tail := d + ": " + answer;
    var line := "Q" + d + ": " + answer;
    assert line == "Q" + tail && line[1..] == tail;
    AfterId(d, answer);
    ReadIdAndAnswerOf(d, answer);
  }

  lemma ReadIdAndAnswerOf(d: string, answer: string)
    requires forall k :: 0 <= k < |d| ==> d[k] != ':'
    requires ':' in d + ": " + answer
    ensures ReadInt(d).Some? ==> ReadIdAndAnswer(d + ": " + answer) == Some(QuizAnswer(ReadInt(d).value, answer))
  {
    var tail := d + ": " + answer;
    AfterId(d, answer);
    var rest := AfterFirst(tail, ':');
    assert |tail| - |rest| - 1 == |d|;
    assert tail[..|d|] == d;
    assert StartsWith(rest, " ") && rest[1..] == answer;
  }

  /** Reads each line in turn; fails if any line fails. */
  function ReadLines(lines: seq<string>): Option<seq<QuizAnswer>>
  {
    if lines == [] then Some([])
    else
      match (ReadAnswerLine(lines[0]), ReadLines(lines[1..]))
      case (Some(a), Some(rest)) => Some([a] + rest)
      case _ => None
  }

  /** Reads a whole summary: the empty string is no answers, anything else one answer
      per line. */
  function ReadSummary(summary: string): Option<seq<QuizAnswer>>
  {
    if summary == [] then Some([]) else ReadLines(Split(summary, '\n'))
  }

  lemma {:induction false} ReadLinesOfAnswerLines(answers: seq<QuizAnswer>)
    ensures ReadLines(AnswerLines(answers)) == Some(answers)
  {
    if answers != [] {
      ReadLinesOfAnswerLines(answers[1..]);
      assert AnswerLines(answers)[1..] == AnswerLines(answers[1..]);
      assert [answers[0]] + answers[1..] == answers;
    }
  }
}
