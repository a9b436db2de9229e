/**
 * The tables the summary generators read and write: the stored chat
 * messages, read oldest first, and the conversation summaries, upserted
 * one per conversation.
 */
module SummaryStore {
  import opened Wrappers
  import opened Sequences
  import opened Ranking

  type Time = int

  /** `SenderEnum`: a string enum whose upper-cased value names the speaker. */
  datatype Sender = User | Assistant

  /** A row of `messages`. */
  datatype StoredMessage = StoredMessage(conversationId: int, sender: Sender, text: string, timestamp: Time)

  /** A row of `conversation_summaries`. */
  datatype Summary = Summary(conversationId: int, text: string, updatedAt: Time)

  /** How many messages a summary is built from. */
  const MAX_MESSAGES_FROM_SUMMARY: int := 200

  // -------------------------------------------------------------- messages

  /** The conversation's messages, in stored order. */
  function ConversationMessages(ms: seq<StoredMessage>, conv: int): (r: seq<StoredMessage>)
    ensures |r| <= |ms|
    ensures forall m :: m in r <==> m in ms && m.conversationId == conv
  {
    if ms == [] then []
    else
      var init, m := ConversationMessages(ms[..|ms| - 1], conv), ms[|ms| - 1];
      FrontLast(ms);
      if m.conversationId == conv then init + [m] else init
  }

  /** Each message keyed so that a descending sort puts the oldest first. */
  function ByAge(ms: seq<StoredMessage>): (r: seq<Scored<StoredMessage>>)
    ensures |r| == |ms|
    ensures forall i :: 0 <= i < |ms| ==> r[i] == Scored(-(ms[i].timestamp as real), ms[i])
  {
    seq(|ms|, i requires 0 <= i < |ms| => Scored(-(ms[i].timestamp as real), ms[i]))
  }

  /**
   * The query `order_by(timestamp.asc()).limit(200)` on the conversation's
   * messages; equal timestamps keep stored order.
   */
  function Oldest(ms: seq<StoredMessage>, conv: int): seq<StoredMessage>
  {
    Items(TopK(ByAge(ConversationMessages(ms, conv)), MAX_MESSAGES_FROM_SUMMARY))
  }

  /** At most 200 messages: all of them when the conversation has no more. */
  lemma OldestLength(ms: seq<StoredMessage>, conv: int)
    ensures var n := |ConversationMessages(ms, conv)|;
      |Oldest(ms, conv)| == if n <= MAX_MESSAGES_FROM_SUMMARY then n else MAX_MESSAGES_FROM_SUMMARY
  {
  }

  /** Every message read belongs to the conversation. */
  lemma OldestInConversation(ms: seq<StoredMessage>, conv: int, i: int)
    requires 0 <= i < |Oldest(ms, conv)|
    ensures Oldest(ms, conv)[i] in ms && Oldest(ms, conv)[i].conversationId == conv
  {
    var top := TopK(ByAge(ConversationMessages(ms, conv)), MAX_MESSAGES_FROM_SUMMARY);
    assert top[i] in multiset(top);
    assert top[i] in ByAge(ConversationMessages(ms, conv));
  }

  /** Oldest first: timestamps never decrease along the result. */
  lemma OldestAscending(ms: seq<StoredMessage>, conv: int, i: int, j: int)
    requires 0 <= i < j < |Oldest(ms, conv)|
    ensures Oldest(ms, conv)[i].timestamp <= Oldest(ms, conv)[j].timestamp
  {
    var s := ByAge(ConversationMessages(ms, conv));
    var top := TopK(s, MAX_MESSAGES_FROM_SUMMARY);
    assert top[i] in multiset(top) && top[j] in multiset(top);
    assert top[i] in s && top[j] in s;
  }

  /** No message left out is older than a message read. */
  lemma OldestDominates(ms: seq<StoredMessage>, conv: int, i: int, m: StoredMessage)
    requires 0 <= i < |Oldest(ms, conv)|
    requires m in ms && m.conversationId == conv && m !in Oldest(ms, conv)
    ensures Oldest(ms, conv)[i].timestamp <= m.timestamp
  {
    var c := ConversationMessages(ms, conv);
    var s := ByAge(c);
    var top := TopK(s, MAX_MESSAGES_FROM_SUMMARY);
    var j :| 0 <= j < |c| && c[j] == m;
    assert s[j].item == m;
    TopKDominatesItem(s, MAX_MESSAGES_FROM_SUMMARY, i, j);
    assert top[i] in multiset(top);
    assert top[i] in s;
  }

  // ------------------------------------------------------------- formatting

  /** `msg.sender.upper()`. */
  function SenderName(s: Sender): string
  {
    match s
    case User => "USER"
    case Assistant => "ASSISTANT"
  }

  /** `f"{msg.sender.upper()} {msg.message_text}"`. */
  function Format(m: StoredMessage): (r: string)
    ensures |r| == |SenderName(m.sender)| + 1 + |m.text|
  {
    SenderName(m.sender) + " " + m.text
  }

  function FormatAll(ms: seq<StoredMessage>): (r: seq<string>)
    ensures |r| == |ms|
    ensures forall i :: 0 <= i < |ms| ==> r[i] == Format(ms[i])
  {
    seq(|ms|, i requires 0 <= i < |ms| => Format(ms[i]))
  }

  /** Reads a formatted line back into its speaker and text. */
  function ParseLine(line: string): Option<(Sender, string)>
  {
    if |line| >= 5 && line[..5] == "USER " then Some((User, line[5..]))
    else if |line| >= 10 && line[..10] == "ASSISTANT " then Some((Assistant, line[10..]))
    else None
  }

  /** A formatted line keeps both the speaker and the full text. */
  lemma FormatRoundTrip(m: StoredMessage)
    ensures ParseLine(Format(m)) == Some((m.sender, m.text))
  {
    var line := Format(m);
    if m.sender == User {
      assert line[..5] == "USER ";
      assert line[5..] == m.text;
    } else {
      assert line[..10] == "ASSISTANT ";
      assert line[..5] != "USER " by {
        assert line[0] == 'A';
      }
      assert line[10..] == m.text;
    }
  }

  // -------------------------------------------------------------- summaries

  /** The positions of the conversation's summaries, ascending. */
  function Matching(ss: seq<Summary>, conv: int): (r: seq<nat>)
    ensures forall k :: k in r <==> 0 <= k < |ss| && ss[k].conversationId == conv
    ensures forall i, j :: 0 <= i < j < |r| ==> r[i] < r[j]
  {
    if ss == [] then []
    else
      var init := Matching(ss[..|ss| - 1], conv);
      assert forall k :: 0 <= k < |init| ==> init[k] in init && init[k] < |ss| - 1;
      if ss[|ss| - 1].conversationId == conv then init + [|ss| - 1] else init
  }

  /** The invariant the upsert keeps: no conversation has two summaries. */
  ghost predicate AtMostOnePerConversation(ss: seq<Summary>)
  {
    forall i, j :: 0 <= i < j < |ss| ==> ss[i].conversationId != ss[j].conversationId
  }

  /**
   * The exceptions a summary run can raise: `one_or_none()` finding more
   * than one row, and `strip()` called on a reply without content.
   */
  datatype SummaryError = MultipleResultsFound | MissingContent

  /**
   * The summary upsert: with two or more summaries for the conversation
   * `one_or_none` raises; with one, its text and update time are replaced;
   * with none, a summary is appended.
   */
  function Upsert(ss: seq<Summary>, conv: int, text: string, now: Time): (r: Result<seq<Summary>, SummaryError>)
  {
    var found := Matching(ss, conv);
    assert |found| > 0 ==> found[0] in found;
    if |found| > 1 then Err(MultipleResultsFound)
    else if |found| == 1 then Ok(ss[found[0] := ss[found[0]].(text := text, updatedAt := now)])
    else Ok(ss + [Summary(conv, text, now)])
  }

  /** Under the invariant the upsert never raises. */
  lemma UpsertSucceeds(ss: seq<Summary>, conv: int, text: string, now: Time)
    requires AtMostOnePerConversation(ss)
    ensures Upsert(ss, conv, text, now).Ok?
  {
    UpsertFails(ss, conv, text, now);
  }

  /** The conversation already has two summaries or more. */
  ghost predicate TwoSummaries(ss: seq<Summary>, conv: int)
  {
    exists i, j :: 0 <= i < j < |ss| && ss[i].conversationId == conv && ss[j].conversationId == conv
  }

  /** The upsert raises exactly when the conversation already has two summaries or more. */
  lemma UpsertFails(ss: seq<Summary>, conv: int, text: string, now: Time)
    ensures Upsert(ss, conv, text, now).Err? <==> TwoSummaries(ss, conv)
  {
    var found := Matching(ss, conv);
    assert Upsert(ss, conv, text, now).Err? <==> |found| > 1;
    if |found| > 1 {
      assert found[0] in found && found[1] in found;
      assert found[0] < found[1];
      assert TwoSummaries(ss, conv);
    }
    if TwoSummaries(ss, conv) {
      var i, j :| 0 <= i < j < |ss| && ss[i].conversationId == conv && ss[j].conversationId == conv;
      assert i in found && j in found;
      var a :| 0 <= a < |found| && found[a] == i;
      var b :| 0 <= b < |found| && found[b] == j;
      assert a != b;
    }
  }

  /**
   * `next` is `ss` after storing `text` for the conversation: the
   * conversation has exactly one summary, holding the text and time, every
   * summary of another conversation is kept in place, and no conversation
   * has two summaries.
   */
  ghost predicate Upserted(ss: seq<Summary>, next: seq<Summary>, conv: int, text: string, now: Time)
  {
    && AtMostOnePerConversation(next)
    && (exists k :: 0 <= k < |next| && next[k] == Summary(conv, text, now))
    && (forall k :: 0 <= k < |ss| && ss[k].conversationId != conv ==> k < |next| && next[k] == ss[k])
    && (forall k :: 0 <= k < |next| && next[k].conversationId != conv ==> k < |ss| && next[k] == ss[k])
  }

  /** Under the invariant the upsert succeeds and stores the summary. */
  lemma UpsertStores(ss: seq<Summary>, conv: int, text: string, now: Time)
    requires AtMostOnePerConversation(ss)
    ensures var r := Upsert(ss, conv, text, now);
      r.Ok? && Upserted(ss, r.value, conv, text, now)
  {
    UpsertSucceeds(ss, conv, text, now);
    var found := Matching(ss, conv);
    var r := Upsert(ss, conv, text, now).value;
    if |found| == 1 {
      var k := found[0];
      assert k in found;
      assert r[k] == Summary(conv, text, now);
    } else {
      assert r[|ss|] == Summary(conv, text, now);
      forall k | 0 <= k < |ss|
        ensures ss[k].conversationId != conv
      {
        assert k !in found;
      }
    }
  }

  /**
   * The database the summary generators use: messages are only read;
   * `summaries` are the staged summary rows and `committed` the rows as of
   * the last commit.
   */
  class SummaryDb {
    var messages: seq<StoredMessage>
    var summaries: seq<Summary>
    var committed: seq<Summary>
    var commits: nat

    constructor (messages: seq<StoredMessage>, summaries: seq<Summary>)
      ensures this.messages == messages && this.summaries == summaries
      ensures committed == summaries && commits == 0
    {
      this.messages := messages;
      this.summaries := summaries;
      committed := summaries;
      commits := 0;
    }

    /** The count query on the conversation's messages. */
    function Count(conv: int): (n: nat)
      reads this
      ensures n <= |messages|
    {
      |ConversationMessages(messages, conv)|
    }

    /** Looks up the conversation's summary and updates or adds it; nothing is committed. */
    method UpsertSummary(conv: int, text: string, now: Time) returns (error: Option<SummaryError>)
      modifies this
      ensures var r := Upsert(old(summaries), conv, text, now);
        && (r.Ok? ==> error.None? && summaries == r.value)
        && (r.Err? ==> error == Some(r.error) && summaries == old(summaries))
      ensures messages == old(messages) && committed == old(committed) && commits == old(commits)
    {
      var found := Matching(summaries, conv);
      if |found| > 1 {
        return Some(MultipleResultsFound);
      }
      error := None;
      if |found| == 1 {
        var k := found[0];
        assert k in found;
        summaries := summaries[k := summaries[k].(text := text, updatedAt := now)];
      } else {
        summaries := summaries + [Summary(conv, text, now)];
      }
    }

    /** `db.commit()`. */
    method Commit()
      modifies this
      ensures messages == old(messages) && summaries == old(summaries)
      ensures committed == summaries && commits == old(commits) + 1
    {
      committed := summaries;
      commits := commits + 1;
    }
  }
}
