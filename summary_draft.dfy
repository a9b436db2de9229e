/**
 * The summary generator without a trigger (the older draft): every call on
 * a conversation with messages asks the model for a summary of its oldest
 * 200 messages and upserts it. The prompt building and the summarising
 * step are shared with the packaged generator, which only adds a trigger.
 */
module SummaryDraft {
  import opened Wrappers
  import opened Strings
  import opened Chat
  import opened SummaryStore

  const SUMMARY_MODEL: string := "gpt-4o-mini"

  /** The draft's system prompt, with its leading and trailing newline. */
  const SUMMARY_SYSTEM_PROMPT: string :=
    "\nYou are a conversation summarization engine.\n\n"
    + "Your job is to compress a full conversation into a factual, memory-safe summary, keeping the entire context.\n\n"
    + "Rules:\n"
    + "- Capture stable user facts (preferences, profile, habits)\n"
    + "- Keep the context \n"
    + "- Capture long-term goals or constraints\n"
    + "- Do NOT include small talk\n"
    + "- Do NOT invent information\n"
    + "- Use neutral third-person tone\n"
    + "- Keep it concise but complete\n"

  // ----------------------------------------------------------------- prompt

  /** The lines of the user message before the conversation. */
  function PromptHeader(): seq<string>
  {
    ["", "Summarize the following conversation.", "", "Conversation:"]
  }

  /** The lines of the user message after the conversation. */
  function PromptFooter(): seq<string>
  {
    ["", "Return only the summary text.", ""]
  }

  /** The user message: the conversation text between its header and footer lines. */
  function UserContent(conversationText: string): string
  {
    Join("\n", PromptHeader() + [conversationText] + PromptFooter())
  }

  /** `generate_summary_prompt(lines)`: the system prompt, then the lines joined by newlines. */
  function SummaryPrompt(systemPrompt: string, lines: seq<string>): seq<ChatMessage>
  {
    [ChatMessage("system", systemPrompt), ChatMessage("user", UserContent(Join("\n", lines)))]
  }

  /** The completion request: the summary model at temperature 0.2, no tools. */
  function SummaryRequest(systemPrompt: string, lines: seq<string>): Request
  {
    Request(SUMMARY_MODEL, SummaryPrompt(systemPrompt, lines), 0.2, None, None)
  }

  /**
   * The prompt is two messages, the system prompt first; read line by
   * line the user message is the header, the given lines in order (one
   * blank line when there are none) and the footer.
   */
  lemma SummaryPromptLines(systemPrompt: string, lines: seq<string>)
    requires NoneContains(lines, '\n')
    ensures var p := SummaryPrompt(systemPrompt, lines);
      && |p| == 2 && p[0] == ChatMessage("system", systemPrompt) && p[1].role == "user"
      && Split(p[1].content, '\n') == PromptHeader() + (if lines == [] then [""] else lines) + PromptFooter()
  {
    var body := if lines == [] then [""] else lines;
    assert Join("\n", body) == Join("\n", lines);
    var h, f := PromptHeader(), PromptFooter();
    JoinConcat("\n", h, body);
    JoinConcat("\n", h + body, f);
    JoinConcat("\n", h, [Join("\n", body)]);
    JoinConcat("\n", h + [Join("\n", body)], f);
    var parts := h + body + f;
    PartsSingleLine(body);
    SplitJoin(parts, '\n');
  }

  lemma PartsSingleLine(body: seq<string>)
    requires NoneContains(body, '\n')
    ensures NoneContains(PromptHeader() + body + PromptFooter(), '\n')
  {
    var h, f := PromptHeader(), PromptFooter();
    var parts := h + body + f;
    HeaderFooterSingleLine();
    forall i | 0 <= i < |parts|
      ensures '\n' !in parts[i]
    {
      if i < |h| {
        assert parts[i] == h[i];
      } else if i < |h| + |body| {
        assert parts[i] == body[i - |h|];
      } else {
        assert parts[i] == f[i - |h| - |body|];
      }
    }
  }

  lemma HeaderFooterSingleLine()
    ensures NoneContains(PromptHeader(), '\n') && NoneContains(PromptFooter(), '\n')
  {
    var h, f := PromptHeader(), PromptFooter();
    forall i | 0 <= i < |h| ensures '\n' !in h[i] {
      assert i == 0 || i == 1 || i == 2 || i == 3;
    }
    forall i | 0 <= i < |f| ensures '\n' !in f[i] {
      assert i == 0 || i == 1 || i == 2;
    }
  }

  /** Messages whose text holds no line break. */
  ghost predicate SingleLineTexts(ms: seq<StoredMessage>)
  {
    forall i :: 0 <= i < |ms| ==> '\n' !in ms[i].text
  }

  /**
   * The model is shown every message read, in order, with its speaker and
   * its whole text, one message per line after the header.
   */
  lemma PromptCarriesMessages(systemPrompt: string, ms: seq<StoredMessage>)
    requires ms != [] && SingleLineTexts(ms)
    ensures var lines := Split(SummaryRequest(systemPrompt, FormatAll(ms)).messages[1].content, '\n');
      && |lines| == |PromptHeader()| + |ms| + |PromptFooter()|
      && forall i :: 0 <= i < |ms| ==> ParseLine(lines[|PromptHeader()| + i]) == Some((ms[i].sender, ms[i].text))
  {
    var fs := FormatAll(ms);
    forall i | 0 <= i < |fs|
      ensures '\n' !in fs[i]
    {
      assert fs[i] == SenderName(ms[i].sender) + " " + ms[i].text;
    }
    SummaryPromptLines(systemPrompt, fs);
    var lines := Split(SummaryRequest(systemPrompt, fs).messages[1].content, '\n');
    forall i | 0 <= i < |ms|
      ensures ParseLine(lines[|PromptHeader()| + i]) == Some((ms[i].sender, ms[i].text))
    {
      assert lines[|PromptHeader()| + i] == fs[i];
      FormatRoundTrip(ms[i]);
    }
  }

  // -------------------------------------------------------------- summarise

  /**
   * What a summary run leaves behind: the value returned or the exception
   * raised, the staged summaries, and whether they were committed.
   */
  datatype Outcome = Outcome(result: Result<string, SummaryError>, summaries: seq<Summary>, committed: bool)

  /**
   * One summary run on messages `ms` and summaries `ss`: no messages gives
   * "" and no write; otherwise the model's reply, stripped, is upserted and
   * committed. `complete` is the model: the content of its reply to a
   * request, None when the reply has none.
   */
  function Summarized(ms: seq<StoredMessage>, ss: seq<Summary>, conv: int, now: Time,
                      systemPrompt: string, complete: Request -> Option<string>): (o: Outcome)
    ensures Oldest(ms, conv) == [] ==> o == Outcome(Ok(""), ss, false)
    ensures o.committed <==> Oldest(ms, conv) != [] && o.result.Ok?
    ensures !o.committed ==> o.summaries == ss
    ensures o.result.Ok? ==> Strip(o.result.value) == o.result.value
  {
    var msgs := Oldest(ms, conv);
    if msgs == [] then Outcome(Ok(""), ss, false)
    else
      match complete(SummaryRequest(systemPrompt, FormatAll(msgs)))
      case None => Outcome(Err(MissingContent), ss, false)
      case Some(c) =>
        var text := Strip(c);
        StripIdempotent(c);
        match Upsert(ss, conv, text, now)
        case Err(e) => Outcome(Err(e), ss, false)
        case Ok(next) => Outcome(Ok(text), next, true)
  }

  /** A run that returned `text` and committed the summaries after storing it. */
  ghost predicate Stored(o: Outcome, ss: seq<Summary>, conv: int, text: string, now: Time)
  {
    o.result == Ok(text) && o.committed && Upserted(ss, o.summaries, conv, text, now)
  }

  /**
   * When the conversation has messages and the model replies, under the
   * one-summary-per-conversation invariant the run returns the stripped
   * reply and commits summaries in which the conversation has exactly
   * that summary, dated now, every other conversation's summary is kept,
   * and the invariant still holds.
   */
  lemma SummarizedStores(ms: seq<StoredMessage>, ss: seq<Summary>, conv: int, now: Time,
                         systemPrompt: string, complete: Request -> Option<string>, reply: string)
    requires AtMostOnePerConversation(ss)
    requires Oldest(ms, conv) != []
    requires complete(SummaryRequest(systemPrompt, FormatAll(Oldest(ms, conv)))) == Some(reply)
    ensures Stored(Summarized(ms, ss, conv, now, systemPrompt, complete), ss, conv, Strip(reply), now)
  {
    var text := Strip(reply);
    UpsertStores(ss, conv, text, now);
    assert Summarized(ms, ss, conv, now, systemPrompt, complete)
      == Outcome(Ok(text), Upsert(ss, conv, text, now).value, true);
  }

  /** A run never breaks the one-summary-per-conversation invariant. */
  lemma SummarizedKeepsInvariant(ms: seq<StoredMessage>, ss: seq<Summary>, conv: int, now: Time,
                                 systemPrompt: string, complete: Request -> Option<string>)
    requires AtMostOnePerConversation(ss)
    ensures AtMostOnePerConversation(Summarized(ms, ss, conv, now, systemPrompt, complete).summaries)
  {
    var msgs := Oldest(ms, conv);
    var reply := complete(SummaryRequest(systemPrompt, FormatAll(msgs)));
    if msgs != [] && reply.Some? {
      SummarizedStores(ms, ss, conv, now, systemPrompt, complete, reply.value);
    }
  }

  /**
   * The summarising step of both generators, from the message query to
   * the return: read the oldest messages, ask the model, strip its reply,
   * upsert it and commit.
   */
  method Summarize(db: SummaryDb, conv: int, now: Time, systemPrompt: string,
                   complete: Request -> Option<string>) returns (r: Result<string, SummaryError>)
    modifies db
    ensures var o := Summarized(old(db.messages), old(db.summaries), conv, now, systemPrompt, complete);
      && r == o.result && db.summaries == o.summaries
      && db.committed == (if o.committed then o.summaries else old(db.committed))
      && db.commits == old(db.commits) + (if o.committed then 1 else 0)
    ensures db.messages == old(db.messages)
  {
    var msgs := Oldest(db.messages, conv);
    if msgs == [] {
      return Ok("");
    }
    var lines := FormatAll(msgs);
    var content := complete(SummaryRequest(systemPrompt, lines));
    if content.None? {
      return Err(MissingContent);
    }
    var text := Strip(content.value);
    var error := db.UpsertSummary(conv, text, now);
    if error.Some? {
      return Err(error.value);
    }
    db.Commit();
    return Ok(text);
  }

  /** `generate_conversation_summary` of the draft: a run with its own system prompt. */
  method GenerateConversationSummary(db: SummaryDb, conv: int, now: Time,
                                     complete: Request -> Option<string>) returns (r: Result<string, SummaryError>)
    modifies db
    ensures var o := Summarized(old(db.messages), old(db.summaries), conv, now, SUMMARY_SYSTEM_PROMPT, complete);
      && r == o.result && db.summaries == o.summaries
      && db.committed == (if o.committed then o.summaries else old(db.committed))
      && db.commits == old(db.commits) + (if o.committed then 1 else 0)
    ensures db.messages == old(db.messages)
  {
    r := Summarize(db, conv, now, SUMMARY_SYSTEM_PROMPT, complete);
  }

  /**
   * Without a trigger, every run on a conversation with messages and a
   * model that replies writes a summary, however few messages there are.
   */
  lemma EveryRunSummarizes(ms: seq<StoredMessage>, ss: seq<Summary>, conv: int, now: Time,
                           complete: Request -> Option<string>)
    requires AtMostOnePerConversation(ss)
    requires exists m :: m in ms && m.conversationId == conv
    requires forall req :: complete(req).Some?
    ensures Summarized(ms, ss, conv, now, SUMMARY_SYSTEM_PROMPT, complete).committed
  {
    var m :| m in ms && m.conversationId == conv;
    assert m in ConversationMessages(ms, conv);
    OldestLength(ms, conv);
    var reply := complete(SummaryRequest(SUMMARY_SYSTEM_PROMPT, FormatAll(Oldest(ms, conv))));
    SummarizedStores(ms, ss, conv, now, SUMMARY_SYSTEM_PROMPT, complete, reply.value);
  }
}
