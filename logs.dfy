/** The entries `save_feedback` and `save_conversation` append to their log files. */
module Logs {
  import opened Outcome
  import opened Text

  /** The rule that ends every entry: forty dashes. */
  const Rule: string := "----------------------------------------"

  /** How an f-string shows an optional bot response: `None` is written as the word None. */
  function Shown(botResponse: Option<string>): string {
    match botResponse
    case None => "None"
    case Some(text) => text
  }

  predicate SingleLine(s: string) {
    '\n' !in s
  }

  /** Each line followed by a newline, as the entries' f-strings lay them out. */
  function Terminated(lines: seq<string>): string {
    if lines == [] then "" else lines[0] + "\n" + Terminated(lines[1..])
  }

  /** The lines of a feedback entry: time, question, bot response, feedback, rule. */
  function FeedbackLines(time: string, feedback: string, question: string, botResponse: Option<string>): seq<string> {
    ["Time: " + time, "Question: " + question, "Bot Response: " + Shown(botResponse), "Feedback: " + feedback, Rule]
  }

  /** The lines of a conversation entry: time, question, bot response, rule. */
  function ConversationLines(time: string, question: string, botResponse: string): seq<string> {
    ["Time: " + time, "Question: " + question, "Bot Response: " + botResponse, Rule]
  }

  /** The entry `save_feedback` appends; the time is the formatted clock reading the caller passes in. */
  function FeedbackEntry(time: string, feedback: string, question: string, botResponse: Option<string>): (entry: string)
    ensures EndsWith(entry, Rule + "\n")
  {
    var lines := FeedbackLines(time, feedback, question, botResponse);
    TerminatedEndsWith(lines);
    Terminated(lines)
  }

  /** The entry `save_conversation` appends. */
  function ConversationEntry(time: string, question: string, botResponse: string): (entry: string)
    ensures EndsWith(entry, Rule + "\n")
  {
    var lines := ConversationLines(time, question, botResponse);
    TerminatedEndsWith(lines);
    Terminated(lines)
  }

  /** Terminated lines end with the last line and its newline. */
  lemma {:induction false} TerminatedEndsWith(lines: seq<string>)
    requires lines != []
    ensures EndsWith(Terminated(lines), lines[|lines| - 1] + "\n")
  {
    if |lines| > 1 {
      TerminatedEndsWith(lines[1..]);
    }
  }

  /** Terminating two lists of lines one after the other is terminating their concatenation. */
  lemma {:induction false} TerminatedAppend(a: seq<string>, b: seq<string>)
    ensures Terminated(a + b) == Terminated(a) + Terminated(b)
  {
    if a != [] {
      assert (a + b)[1..] == a[1..] + b;
      TerminatedAppend(a[1..], b);
    } else {
      assert a + b == b;
    }
  }

  /** Lines ended by newlines split back into those lines, followed by the empty piece after the last newline. */
  lemma {:induction false} SplitTerminated(lines: seq<string>)
    requires forall i :: 0 <= i < |lines| ==> SingleLine(lines[i])
    ensures Split(Terminated(lines), '\n') == lines + [""]
  {
    if lines != [] {
      SplitTerminated(lines[1..]);
      SplitAfterPiece(lines[0], '\n', Terminated(lines[1..]));
    }
  }

  /** Read back line by line, a feedback entry of single-line fields gives its labelled fields, the rule and nothing more. */
  lemma FeedbackEntryLines(time: string, feedback: string, question: string, botResponse: Option<string>)
    requires SingleLine(time) && SingleLine(feedback) && SingleLine(question) && SingleLine(Shown(botResponse))
    ensures Split(FeedbackEntry(time, feedback, question, botResponse), '\n')
      == ["Time: " + time, "Question: " + question, "Bot Response: " + Shown(botResponse), "Feedback: " + feedback, Rule, ""]
  {
    assert SingleLine(Rule);
    SplitTerminated(FeedbackLines(time, feedback, question, botResponse));
  }

  /** Read back line by line, a conversation entry of single-line fields gives its labelled fields, the rule and nothing more. */
  lemma ConversationEntryLines(time: string, question: string, botResponse: string)
    requires SingleLine(time) && SingleLine(question) && SingleLine(botResponse)
    ensures Split(ConversationEntry(time, question, botResponse), '\n')
      == ["Time: " + time, "Question: " + question, "Bot Response: " + botResponse, Rule, ""]
  {
    assert SingleLine(Rule);
    SplitTerminated(ConversationLines(time, question, botResponse));
  }

  /** Four lines, each followed by a newline. */
  lemma TerminatedFour(a: string, b: string, c: string, d: string)
    ensures Terminated([a, b, c, d]) == a + "\n" + b + "\n" + c + "\n" + d + "\n"
  {
    TerminatedAppend([a, b], [c, d]);
    TerminatedAppend([a], [b]);
    TerminatedAppend([c], [d]);
    assert [a, b] + [c, d] == [a, b, c, d];
    assert Terminated([a]) == a + "\n";
    assert Terminated([b]) == b + "\n";
    assert Terminated([c]) == c + "\n";
    assert Terminated([d]) == d + "\n";
  }

  /** For any field values, newlines included, a conversation entry is the f-string's text: three labelled lines, then the rule. */
  lemma ConversationEntryText(time: string, question: string, botResponse: string)
    ensures ConversationEntry(time, question, botResponse)
      == ("Time: " + time) + "\n" + ("Question: " + question) + "\n" + ("Bot Response: " + botResponse) + "\n" + Rule + "\n"
  {
    TerminatedFour("Time: " + time, "Question: " + question, "Bot Response: " + botResponse, Rule);
  }

  /** For any field values, newlines included, a feedback entry is the f-string's text: four labelled lines, then the rule. */
  lemma FeedbackEntryText(time: string, feedback: string, question: string, botResponse: Option<string>)
    ensures FeedbackEntry(time, feedback, question, botResponse)
      == ("Time: " + time) + "\n" + ("Question: " + question) + "\n" + ("Bot Response: " + Shown(botResponse)) + "\n"
         + ("Feedback: " + feedback) + "\n" + Rule + "\n"
  {
    var head := ["Time: " + time, "Question: " + question, "Bot Response: " + Shown(botResponse), "Feedback: " + feedback];
    TerminatedFour(head[0], head[1], head[2], head[3]);
    TerminatedAppend(head, [Rule]);
    assert head + [Rule] == FeedbackLines(time, feedback, question, botResponse);
    assert Terminated([Rule]) == Rule + "\n";
  }

  /** Inserting a line before the last one inserts its text, with its newline, before the last line's text. */
  lemma InsertBeforeLast(head: seq<string>, line: string, last: string)
    ensures EndsWith(Terminated(head + [last]), last + "\n")
    ensures var shorter := Terminated(head + [last]);
      Terminated(head + [line, last]) == shorter[..|shorter| - |last| - 1] + line + "\n" + last + "\n"
  {
    TerminatedEndsWith(head + [last]);
    TerminatedAppend(head, [last]);
    TerminatedAppend(head, [line, last]);
    assert Terminated([last]) == last + "\n";
    assert Terminated([line, last]) == line + "\n" + (last + "\n");
    var shorter := Terminated(head) + (last + "\n");
    assert shorter[..|shorter| - |last| - 1] == Terminated(head);
  }

  /** A feedback entry is the conversation entry for the same exchange with the feedback line inserted before the rule. */
  lemma FeedbackExtendsConversation(time: string, feedback: string, question: string, botResponse: string)
    ensures var conversation := ConversationEntry(time, question, botResponse);
      FeedbackEntry(time, feedback, question, Some(botResponse))
        == conversation[..|conversation| - |Rule| - 1] + "Feedback: " + feedback + "\n" + Rule + "\n"
  {
    var head := ["Time: " + time, "Question: " + question, "Bot Response: " + botResponse];
    assert ConversationLines(time, question, botResponse) == head + [Rule];
    assert FeedbackLines(time, feedback, question, Some(botResponse)) == head + ["Feedback: " + feedback, Rule];
    InsertBeforeLast(head, "Feedback: " + feedback, Rule);
  }
}
