/**
 * The packaged summary generator: the draft's summarising step, run only
 * when the conversation's message count is a positive multiple of the
 * trigger count. Its system prompt lives in a prompt module that is not
 * part of this model, so it is a parameter.
 */
module SummaryGenerator {
  import opened Wrappers
  import opened Strings
  import opened Chat
  import opened SummaryStore
  import opened SummaryDraft

  const SUMMARY_TRIGGER_COUNT: nat := 20

  /** The trigger: at least one message, and a whole number of blocks of twenty. */
  predicate ShouldSummarize(count: nat)
  {
    count != 0 && count % SUMMARY_TRIGGER_COUNT == 0
  }

  /**
   * One call of `generate_conversation_summary`: "" and no write unless
   * the conversation's message count triggers a run.
   */
  function Generated(ms: seq<StoredMessage>, ss: seq<Summary>, conv: int, now: Time,
                     generatorPrompt: string, complete: Request -> Option<string>): (o: Outcome)
    ensures !ShouldSummarize(|ConversationMessages(ms, conv)|) ==> o == Outcome(Ok(""), ss, false)
    ensures o.committed ==> |ConversationMessages(ms, conv)| % SUMMARY_TRIGGER_COUNT == 0
    ensures !o.committed ==> o.summaries == ss
  {
    if !ShouldSummarize(|ConversationMessages(ms, conv)|) then Outcome(Ok(""), ss, false)
    else Summarized(ms, ss, conv, now, generatorPrompt, complete)
  }

  /**
   * On the trigger, with a model that replies, the stripped reply is
   * returned and committed as the conversation's one summary, dated now;
   * every other conversation's summary is kept.
   */
  lemma GeneratedOnTrigger(ms: seq<StoredMessage>, ss: seq<Summary>, conv: int, now: Time,
                           generatorPrompt: string, complete: Request -> Option<string>, reply: string)
    requires AtMostOnePerConversation(ss)
    requires ShouldSummarize(|ConversationMessages(ms, conv)|)
    requires complete(SummaryRequest(generatorPrompt, FormatAll(Oldest(ms, conv)))) == Some(reply)
    ensures Stored(Generated(ms, ss, conv, now, generatorPrompt, complete), ss, conv, Strip(reply), now)
  {
    OldestLength(ms, conv);
    SummarizedStores(ms, ss, conv, now, generatorPrompt, complete, reply);
  }

  /**
   * The twentieth, fortieth, ... message of a conversation triggers a
   * summary; any other count, zero included, does not, so between two
   * triggers nineteen messages pass without a summary.
   */
  lemma TriggerPeriod(count: nat)
    ensures ShouldSummarize(count) <==> exists k: nat :: k >= 1 && count == k * SUMMARY_TRIGGER_COUNT
    ensures ShouldSummarize(count) ==> forall n :: count < n < count + SUMMARY_TRIGGER_COUNT ==> !ShouldSummarize(n)
  {
    if ShouldSummarize(count) {
      var k: nat := count / SUMMARY_TRIGGER_COUNT;
      assert count == k * SUMMARY_TRIGGER_COUNT;
      forall n | count < n < count + SUMMARY_TRIGGER_COUNT
        ensures !ShouldSummarize(n)
      {
        assert n == k * SUMMARY_TRIGGER_COUNT + (n - count);
      }
    }
    if exists k: nat :: k >= 1 && count == k * SUMMARY_TRIGGER_COUNT {
      var k: nat :| k >= 1 && count == k * SUMMARY_TRIGGER_COUNT;
      assert count % SUMMARY_TRIGGER_COUNT == 0;
    }
  }

  /** A call never breaks the one-summary-per-conversation invariant. */
  lemma GeneratedKeepsInvariant(ms: seq<StoredMessage>, ss: seq<Summary>, conv: int, now: Time,
                                generatorPrompt: string, complete: Request -> Option<string>)
    requires AtMostOnePerConversation(ss)
    ensures AtMostOnePerConversation(Generated(ms, ss, conv, now, generatorPrompt, complete).summaries)
  {
    if ShouldSummarize(|ConversationMessages(ms, conv)|) {
      SummarizedKeepsInvariant(ms, ss, conv, now, generatorPrompt, complete);
    }
  }

  /**
   * `generate_conversation_summary`: count the conversation's messages,
   * return "" unless the count triggers, otherwise run the summarising
   * step with the generator's system prompt.
   */
  method GenerateConversationSummary(db: SummaryDb, conv: int, now: Time, generatorPrompt: string,
                                     complete: Request -> Option<string>) returns (r: Result<string, SummaryError>)
    modifies db
    ensures var o := Generated(old(db.messages), old(db.summaries), conv, now, generatorPrompt, complete);
      && r == o.result && db.summaries == o.summaries
      && db.committed == (if o.committed then o.summaries else old(db.committed))
      && db.commits == old(db.commits) + (if o.committed then 1 else 0)
    ensures db.messages == old(db.messages)
  {
    var total := db.Count(conv);
    if total == 0 || total % SUMMARY_TRIGGER_COUNT != 0 {
      return Ok("");
    }
    r := Summarize(db, conv, now, generatorPrompt, complete);
  }
}
