/**
 * The search-backed chat answer: the search results are formatted into a
 * system message, pushed onto the global system-message list for one
 * completion request and popped again; the user's prompt and the cleaned
 * answer are appended to the conversation log.
 *
 * The web search, the streaming completion and the JSON log file are
 * inputs of the model (what they returned or raised); the two global
 * lists and the log file are the fields of a `Session`.
 */
module RealtimeSearchEngine {
  import opened Optional
  import opened Text

  datatype ChatMessage = ChatMessage(role: string, content: string)

  // ---------------------------------------------------------------------
  // Formatting the search results (`GoogleSearch`)
  // ---------------------------------------------------------------------

  /** One record of `search(query, advanced=True)`. */
  datatype SearchRecord = SearchRecord(title: string, description: string)

  /** What the search call did: the records it listed, or the exception
      it raised. */
  datatype SearchOutcome = Found(records: seq<SearchRecord>) | SearchRaised(reason: string)

  function Block(r: SearchRecord): string {
    "Title: " + r.title + "\nDescription: " + r.description + "\n\n"
  }

  /** The block of each record, in list order. */
  function Rendered(rs: seq<SearchRecord>): (r: seq<string>)
    ensures |r| == |rs|
  {
    seq(|rs|, k requires 0 <= k < |rs| => Block(rs[k]))
  }

  function Blocks(rs: seq<SearchRecord>): string {
    Concat(Rendered(rs))
  }

  /** Record `i`'s block sits between the blocks of the records before it
      and those after it. */
  lemma BlocksInOrder(rs: seq<SearchRecord>, i: nat)
    requires i < |rs|
    ensures Blocks(rs) == Blocks(rs[..i]) + Block(rs[i]) + Blocks(rs[i + 1..])
  {
    ConcatInOrder(Rendered(rs), i);
    assert Rendered(rs)[..i] == Rendered(rs[..i]);
    assert Rendered(rs)[i + 1..] == Rendered(rs[i + 1..]);
  }

  /** One more record adds its block at the end. */
  lemma BlocksSnoc(rs: seq<SearchRecord>, i: nat)
    requires i < |rs|
    ensures Blocks(rs[..i + 1]) == Blocks(rs[..i]) + Block(rs[i])
  {
    assert Rendered(rs[..i + 1]) == Rendered(rs[..i]) + [Block(rs[i])];
    ConcatAppend(Rendered(rs[..i]), [Block(rs[i])]);
    assert [Block(rs[i])][..0] == [];
  }

  function SearchHeader(query: string): string {
    "The search results for '" + query + "' are:\n[start]\n"
  }

  const SearchFooter: string := "[end]"

  /** The text `GoogleSearch` returns for a search outcome. */
  function SearchReport(query: string, outcome: SearchOutcome): string {
    match outcome
    case SearchRaised(reason) => "An error occurred while searching for '" + query + "': " + reason
    case Found(records) =>
      if records == [] then "No search results found for '" + query + "'."
      else SearchHeader(query) + Blocks(records) + SearchFooter
  }

  /** A non-empty result list reads: the header, then record `i`'s block for
      each `i` in list order, then the footer. */
  lemma SearchReportLayout(query: string, records: seq<SearchRecord>, i: nat)
    requires i < |records|
    ensures var report := SearchReport(query, Found(records));
      report == SearchHeader(query) + Blocks(records[..i]) + Block(records[i]) + Blocks(records[i + 1..]) + SearchFooter
  {
    BlocksInOrder(records, i);
  }

  /** A non-empty result list is framed by the header and `[end]`; a
      failed search ends with the exception's text. */
  lemma SearchReportFrame(query: string, outcome: SearchOutcome)
    ensures var r := SearchReport(query, outcome);
      && (outcome.Found? && outcome.records != [] ==>
        && |r| >= |SearchHeader(query)| + |SearchFooter|
        && r[..|SearchHeader(query)|] == SearchHeader(query)
        && r[|r| - |SearchFooter|..] == SearchFooter)
      && (outcome.SearchRaised? ==> |r| >= |outcome.reason| && r[|r| - |outcome.reason|..] == outcome.reason)
  {
  }

  /** `GoogleSearch`, with the search call's outcome as input: the answer is
      built with `+=` over the records. */
  method GoogleSearch(query: string, outcome: SearchOutcome) returns (answer: string)
    ensures answer == SearchReport(query, outcome)
  {
    match outcome
    case SearchRaised(reason) =>
      answer := "An error occurred while searching for '" + query + "': " + reason;
    case Found(records) =>
      if records == [] {
        answer := "No search results found for '" + query + "'.";
        return;
      }
      answer := SearchHeader(query);
      var i := 0;
      while i < |records|
        invariant 0 <= i <= |records|
        invariant answer == SearchHeader(query) + Blocks(records[..i])
      {
        answer := answer + Block(records[i]);
        BlocksSnoc(records, i);
        i := i + 1;
      }
      assert records[..i] == records;
      answer := answer + SearchFooter;
  }

  // ---------------------------------------------------------------------
  // Removing blank lines (`AnswerModifier`)
  // ---------------------------------------------------------------------

  /** `[line for line in lines if line.strip()]`. */
  function NonBlankLines(lines: seq<string>): (r: seq<string>)
    ensures forall k :: 0 <= k < |r| ==> !IsBlank(r[k]) && r[k] in lines
    decreases |lines|
  {
    if lines == [] then []
    else
      StripEmptyIffBlank(lines[0]);
      (if Strip(lines[0]) != [] then [lines[0]] else []) + NonBlankLines(lines[1..])
  }

  /** Filtering keeps a list of non-blank lines as it is. */
  lemma {:induction false} NonBlankLinesKeepsAll(lines: seq<string>)
    requires forall k :: 0 <= k < |lines| ==> !IsBlank(lines[k])
    ensures NonBlankLines(lines) == lines
    decreases |lines|
  {
    if lines != [] {
      StripEmptyIffBlank(lines[0]);
      NonBlankLinesKeepsAll(lines[1..]);
    }
  }

  function Lines(s: string): seq<string> {
    Split(s, '\n')
  }

  /** `AnswerModifier`: the answer with its blank lines dropped. An empty
      answer comes back as it is; otherwise the lines of the result are the
      non-blank lines of the answer, in order, none of them blank. The result
      is empty exactly when the answer has no non-blank line. */
  function AnswerModifier(answer: string): (r: string)
    ensures answer == [] ==> r == answer
    ensures r == [] <==> NonBlankLines(Lines(answer)) == []
    ensures r != [] ==> Lines(r) == NonBlankLines(Lines(answer))
    ensures r != [] ==> forall k :: 0 <= k < |Lines(r)| ==> !IsBlank(Lines(r)[k])
  {
    if answer == [] then answer
    else
      var kept := NonBlankLines(Lines(answer));
      JoinKeptLines(Lines(answer));
      Join(kept, '\n')
  }

  /** Joining the kept lines gives back those lines, and a non-empty text
      when any line was kept. */
  lemma JoinKeptLines(lines: seq<string>)
    requires forall k :: 0 <= k < |lines| ==> '\n' !in lines[k]
    ensures var kept := NonBlankLines(lines);
      kept != [] ==> Join(kept, '\n') != [] && Lines(Join(kept, '\n')) == kept
  {
    var kept := NonBlankLines(lines);
    if kept != [] {
      SplitJoin(kept, '\n');
      assert kept[0] != [];
    }
  }

  /** An answer without blank lines is left unchanged. */
  lemma AnswerModifierKeepsCleanText(answer: string)
    requires forall k :: 0 <= k < |Lines(answer)| ==> !IsBlank(Lines(answer)[k])
    ensures AnswerModifier(answer) == answer
  {
    NonBlankLinesKeepsAll(Lines(answer));
    JoinSplit(answer, '\n');
  }

  /** Dropping blank lines twice is dropping them once. */
  lemma AnswerModifierIdempotent(answer: string)
    ensures AnswerModifier(AnswerModifier(answer)) == AnswerModifier(answer)
  {
    var r := AnswerModifier(answer);
    if r != [] {
      AnswerModifierKeepsCleanText(r);
    }
  }

  // ---------------------------------------------------------------------
  // The streamed answer
  // ---------------------------------------------------------------------

  /** What the completion call did: the chunks' `delta.content` values it
      streamed, or the exception it raised. */
  datatype Completion = Streamed(chunks: seq<Option<string>>) | CompletionRaised(reason: string)

  /** A chunk contributes its content when that is truthy. */
  function ChunkText(chunk: Option<string>): string {
    if chunk.Some? && chunk.value != [] then chunk.value else []
  }

  /** The contribution of each chunk, in stream order. */
  function ChunkTexts(chunks: seq<Option<string>>): (r: seq<string>)
    ensures |r| == |chunks|
  {
    seq(|chunks|, k requires 0 <= k < |chunks| => ChunkText(chunks[k]))
  }

  /** The concatenated content of the streamed chunks. */
  function StreamedText(chunks: seq<Option<string>>): string {
    Concat(ChunkTexts(chunks))
  }

  /** One more chunk adds its content at the end. */
  lemma StreamedTextSnoc(chunks: seq<Option<string>>, i: nat)
    requires i < |chunks|
    ensures StreamedText(chunks[..i + 1]) == StreamedText(chunks[..i]) + ChunkText(chunks[i])
  {
    assert ChunkTexts(chunks[..i + 1]) == ChunkTexts(chunks[..i]) + [ChunkText(chunks[i])];
    ConcatAppend(ChunkTexts(chunks[..i]), [ChunkText(chunks[i])]);
    assert [ChunkText(chunks[i])][..0] == [];
  }

  /** The `for chunk in completion` loop: the truthy contents, in the
      order they were streamed. */
  method CollectAnswer(chunks: seq<Option<string>>) returns (answer: string)
    ensures answer == StreamedText(chunks)
  {
    answer := "";
    var i := 0;
    while i < |chunks|
      invariant 0 <= i <= |chunks|
      invariant answer == StreamedText(chunks[..i])
    {
      if chunks[i].Some? && chunks[i].value != [] {
        answer := answer + chunks[i].value;
      }
      StreamedTextSnoc(chunks, i);
      i := i + 1;
    }
    assert chunks[..i] == chunks;
  }

  /** Every chunk's truthy content appears in the answer, in stream order. */
  lemma StreamedTextInOrder(chunks: seq<Option<string>>, i: nat)
    requires i < |chunks|
    ensures StreamedText(chunks) == StreamedText(chunks[..i]) + ChunkText(chunks[i]) + StreamedText(chunks[i + 1..])
  {
    ConcatInOrder(ChunkTexts(chunks), i);
    assert ChunkTexts(chunks)[..i] == ChunkTexts(chunks[..i]);
    assert ChunkTexts(chunks)[i + 1..] == ChunkTexts(chunks[i + 1..]);
  }

  const EndToken: string := "</s>"

  /** `Answer.strip().replace("</s>", "")`. */
  function CleanAnswer(raw: string): (r: string)
    ensures |r| <= |raw|
    ensures IsBlank(raw) ==> r == []
  {
    StripEmptyIffBlank(raw);
    Replace(Strip(raw), EndToken, "")
  }

  /** An answer with no surrounding whitespace and no end token is already clean. */
  lemma CleanAnswerKeepsCleanText(raw: string)
    requires raw == [] || (!IsSpace(raw[0]) && !IsSpace(raw[|raw| - 1]))
    requires Absent(raw, EndToken)
    ensures CleanAnswer(raw) == raw
  {
    StripKeepsTrimmed(raw);
    ReplaceAbsent(raw, EndToken, "");
  }

  // ---------------------------------------------------------------------
  // The conversation state (`RealtimeSearchEngine`)
  // ---------------------------------------------------------------------

  /** The chat log file: absent, present but not loadable as a list of
      messages, or holding a list of messages. */
  datatype LogFile = Missing | Unreadable | Log(entries: seq<ChatMessage>)

  /** What happened to the save of the log: done; `open` raised, so the
      file is untouched; or `dump` raised after `open` had truncated it. */
  datatype SaveOutcome = Saved | SaveOpenFailed(reason: string) | SaveDumpFailed(reason: string)

  function ErrorReply(reason: string): string {
    "An error occurred: " + reason
  }

  /** The messages a loadable log yields; a missing log yields none. */
  function Loaded(log: LogFile): seq<ChatMessage>
    requires !log.Unreadable?
  {
    if log.Log? then log.entries else []
  }

  function UserMessage(prompt: string): ChatMessage {
    ChatMessage("user", prompt)
  }

  function AssistantMessage(answer: string): ChatMessage {
    ChatMessage("assistant", answer)
  }

  function SearchMessage(prompt: string, search: SearchOutcome): ChatMessage {
    ChatMessage("system", SearchReport(prompt, search))
  }

  /** The state `RealtimeSearchEngine` reads and changes: the globals
      `SystemChatBot` and `messages`, and the chat log file. */
  datatype Conversation = Conversation(systemChatBot: seq<ChatMessage>, messages: seq<ChatMessage>,
                                       chatLog: LogFile)

  /** The guarded pop of the error path. */
  function PopIfMore(list: seq<ChatMessage>): seq<ChatMessage> {
    if |list| > 1 then list[..|list| - 1] else list
  }

  /** The guarded pop keeps a prefix: one entry shorter when there were at
      least two, the whole list otherwise, so the first entry (the system
      message) always survives. */
  lemma PopIfMoreKeepsPrefix(list: seq<ChatMessage>)
    ensures var r := PopIfMore(list);
      && |r| == (if |list| > 1 then |list| - 1 else |list|)
      && r == list[..|r|]
      && (list != [] ==> r != [] && r[0] == list[0])
  {
  }

  /** One call of `RealtimeSearchEngine`: the new state, the reply, and the
      conversation sent to the completion call (`None` when the call is not
      reached). `loadError` is the text of the exception an unloadable log
      raises; `search`, `completion` and `save` are what the search, the
      completion (at creation or while streaming) and the log save did.
      - a system list of one entry has that entry alone afterwards, and any
        non-empty system list comes back unchanged once the log loaded;
      - a log that fails to load changes no message and sends nothing;
      - otherwise the request is the system list with the search report
        pushed on top, then the logged conversation, then the prompt;
      - a streamed answer grows the logged conversation by exactly the user
        prompt and the cleaned answer, in that order, and a successful save
        writes that conversation to the log and replies with it without its
        blank lines. */
  function SearchTurn(c: Conversation, prompt: string, loadError: string, search: SearchOutcome,
                      completion: Completion, save: SaveOutcome): (r: (Conversation, string, Option<seq<ChatMessage>>))
    ensures |c.systemChatBot| == 1 ==> r.0.systemChatBot == c.systemChatBot
    ensures !c.chatLog.Unreadable? && c.systemChatBot != [] ==> r.0.systemChatBot == c.systemChatBot
    ensures c.chatLog.Unreadable? ==>
      r.0.messages == c.messages && r.0.chatLog == c.chatLog && r.1 == ErrorReply(loadError) && r.2 == None
    ensures !c.chatLog.Unreadable? ==>
      r.2 == Some(c.systemChatBot + [SearchMessage(prompt, search)] + Loaded(c.chatLog) + [UserMessage(prompt)])
    ensures !c.chatLog.Unreadable? && completion.Streamed? ==>
      var answer := CleanAnswer(StreamedText(completion.chunks));
      r.0.messages == Loaded(c.chatLog) + [UserMessage(prompt), AssistantMessage(answer)]
    ensures !c.chatLog.Unreadable? && completion.Streamed? && save.Saved? ==>
      r.0.chatLog == Log(r.0.messages) && r.1 == AnswerModifier(CleanAnswer(StreamedText(completion.chunks)))
    ensures !c.chatLog.Unreadable? && completion.CompletionRaised? ==>
      r.0.messages == Loaded(c.chatLog) + [UserMessage(prompt)] && r.0.chatLog == c.chatLog
  {
    if c.chatLog.Unreadable? then
      (c.(systemChatBot := PopIfMore(c.systemChatBot)), ErrorReply(loadError), None)
    else
      var asked := Loaded(c.chatLog) + [UserMessage(prompt)];
      var pushed := c.systemChatBot + [SearchMessage(prompt, search)];
      assert pushed[..|pushed| - 1] == c.systemChatBot;
      var request := Some(pushed + asked);
      assert pushed + asked == c.systemChatBot + [SearchMessage(prompt, search)] + Loaded(c.chatLog) + [UserMessage(prompt)];
      match completion
      case CompletionRaised(reason) =>
        (Conversation(PopIfMore(pushed), asked, c.chatLog), ErrorReply(reason), request)
      case Streamed(chunks) =>
        var answer := CleanAnswer(StreamedText(chunks));
        var answered := asked + [AssistantMessage(answer)];
        match save
        case Saved =>
          (Conversation(pushed[..|pushed| - 1], answered, Log(answered)), AnswerModifier(answer), request)
        case SaveOpenFailed(reason) =>
          (Conversation(PopIfMore(pushed), answered, c.chatLog), ErrorReply(reason), request)
        case SaveDumpFailed(reason) =>
          (Conversation(PopIfMore(pushed), answered, Unreadable), ErrorReply(reason), request)
  }

  /** After a successful turn the log holds the conversation, so the next
      turn starts from it: two successful turns append two messages each. */
  lemma SuccessfulTurnsChain(c: Conversation, p1: string, p2: string, e: string,
                             s1: SearchOutcome, s2: SearchOutcome,
                             k1: seq<Option<string>>, k2: seq<Option<string>>)
    requires !c.chatLog.Unreadable?
    ensures var r1 := SearchTurn(c, p1, e, s1, Streamed(k1), Saved).0;
      var r2 := SearchTurn(r1, p2, e, s2, Streamed(k2), Saved).0;
      && r2.chatLog == Log(r2.messages)
      && r2.messages == Loaded(c.chatLog)
                        + [UserMessage(p1), AssistantMessage(CleanAnswer(StreamedText(k1)))]
                        + [UserMessage(p2), AssistantMessage(CleanAnswer(StreamedText(k2)))]
  {
    var r1 := SearchTurn(c, p1, e, s1, Streamed(k1), Saved).0;
    assert Loaded(r1.chatLog) == r1.messages;
  }

  /** The running program: the module's globals and the chat log file. */
  class Session {
    var systemChatBot: seq<ChatMessage>
    var messages: seq<ChatMessage>
    var chatLog: LogFile

    function State(): Conversation
      reads this
    {
      Conversation(systemChatBot, messages, chatLog)
    }

    /** The state at import time: the system prompt alone, no messages. */
    constructor (systemPrompt: string, log: LogFile)
      ensures State() == Conversation([ChatMessage("system", systemPrompt)], [], log)
    {
      systemChatBot := [ChatMessage("system", systemPrompt)];
      messages := [];
      chatLog := log;
    }

    /** `RealtimeSearchEngine(prompt)`, changing the globals and the log in
        place, step by step as the source does. */
    method RealtimeSearchEngine(prompt: string, loadError: string, search: SearchOutcome,
                                completion: Completion, save: SaveOutcome)
      returns (reply: string, request: Option<seq<ChatMessage>>)
      modifies this
      ensures (State(), reply, request) == SearchTurn(old(State()), prompt, loadError, search, completion, save)
    {
      ghost var expected := SearchTurn(State(), prompt, loadError, search, completion, save);
      request := None;
      if chatLog.Unreadable? {
        if |systemChatBot| > 1 {
          systemChatBot := systemChatBot[..|systemChatBot| - 1];
        }
        reply := ErrorReply(loadError);
        assert State() == expected.0;
        return;
      }
      var logged := Loaded(chatLog);
      messages := logged;
      messages := messages + [UserMessage(prompt)];

      var results := GoogleSearch(prompt, search);
      var before := systemChatBot;
      systemChatBot := systemChatBot + [ChatMessage("system", results)];
      assert systemChatBot[..|systemChatBot| - 1] == before;
      request := Some(systemChatBot + messages);
      assert request == expected.2;

      if completion.CompletionRaised? {
        if |systemChatBot| > 1 {
          systemChatBot := systemChatBot[..|systemChatBot| - 1];
        }
        reply := ErrorReply(completion.reason);
        assert State() == expected.0;
        return;
      }

      var answer := CollectAnswer(completion.chunks);
      answer := CleanAnswer(answer);
      messages := messages + [AssistantMessage(answer)];
      assert messages == expected.0.messages;

      match save
      case Saved =>
        chatLog := Log(messages);
        systemChatBot := systemChatBot[..|systemChatBot| - 1];
        reply := AnswerModifier(answer);
      case SaveOpenFailed(reason) =>
        if |systemChatBot| > 1 {
          systemChatBot := systemChatBot[..|systemChatBot| - 1];
        }
        reply := ErrorReply(reason);
      case SaveDumpFailed(reason) =>
        chatLog := Unreadable;
        if |systemChatBot| > 1 {
          systemChatBot := systemChatBot[..|systemChatBot| - 1];
        }
        reply := ErrorReply(reason);
    }
  }
}
