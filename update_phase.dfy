/**
 * `update_phase`: for each candidate fact in turn, embed it, look up its
 * ten most similar memories of the conversation, ask the language model
 * for one action, and apply the first tool call it returns to the staged
 * rows; commit once after the last fact.
 *
 * Lookups run against the staged rows, so a fact sees what the facts
 * before it added, changed or deleted.
 */
module UpdatePhase {
  import opened Wrappers
  import opened Store
  import opened Chat
  import opened ToolClassifier
  import opened SimilarMemorySearch
  import opened ConnectionGraph

  /** How many similar memories each fact is shown with. */
  const NEIGHBOURS: int := 10

  /** A JSON value as far as the actions read it. */
  datatype JsonValue = JString(s: string) | JInt(i: int) | JOther

  /** What `json.loads` makes of the arguments: an object, another value, or an error. */
  datatype Json = JObject(fields: map<string, JsonValue>) | JNotObject | JInvalid

  /** Why a batch stops; each is an exception in the source. */
  datatype PhaseError =
    | NoToolCalls               // the decision has no tool calls
    | NoArguments               // the first call carries no arguments string
    | BadJson                   // the arguments string is not JSON
    | NotAnObject               // the arguments are JSON but not an object
    | MissingArgument(key: string)
    | WrongArgumentType(key: string)

  /**
   * The language model and what surrounds it: the chat model name, the
   * system prompt, the completion call and the JSON parser.
   */
  datatype Decider = Decider(model: string, systemPrompt: string, complete: Request -> RawResult, parseJson: string -> Json)

  // ------------------------------------------------------------ arguments

  /** `args[key]` where a string is expected. */
  function StringArg(args: Json, key: string): (r: Result<string, PhaseError>)
    ensures r.Ok? <==> args.JObject? && key in args.fields && args.fields[key].JString?
    ensures r.Ok? ==> r.value == args.fields[key].s
    ensures r.Err? && args.JObject? ==> r.error == (if key in args.fields then WrongArgumentType(key) else MissingArgument(key))
  {
    match args
    case JObject(f) =>
      if key !in f then Err(MissingArgument(key))
      else if f[key].JString? then Ok(f[key].s) else Err(WrongArgumentType(key))
    case _ => Err(NotAnObject)
  }

  /** `args[key]` where an integer id is expected. */
  function IntArg(args: Json, key: string): (r: Result<int, PhaseError>)
    ensures r.Ok? <==> args.JObject? && key in args.fields && args.fields[key].JInt?
    ensures r.Ok? ==> r.value == args.fields[key].i
    ensures r.Err? && args.JObject? ==> r.error == (if key in args.fields then WrongArgumentType(key) else MissingArgument(key))
  {
    match args
    case JObject(f) =>
      if key !in f then Err(MissingArgument(key))
      else if f[key].JInt? then Ok(f[key].i) else Err(WrongArgumentType(key))
    case _ => Err(NotAnObject)
  }

  // --------------------------------------------------------------- records

  /**
   * The record `add_memory` creates: conversation, text, embedding and both
   * timestamps set; every other column takes the schema's default, given
   * as `defaults`.
   */
  function NewFact(defaults: Memory, conv: int, text: string, emb: Embedding, now: Time): (m: Memory)
    ensures m.conversationId == conv && m.text == text && m.embedding == emb
    ensures m.createdAt == now && m.updatedAt == now
    ensures m.(conversationId := defaults.conversationId, text := defaults.text, embedding := defaults.embedding,
               createdAt := defaults.createdAt, updatedAt := defaults.updatedAt) == defaults
  {
    defaults.(conversationId := conv, text := text, embedding := emb, createdAt := now, updatedAt := now)
  }

  /** A record after `update_memory`: new text, the fact's embedding, refreshed `updated_at`. */
  function Revised(m: Memory, text: string, emb: Embedding, now: Time): (r: Memory)
    ensures r.text == text && r.embedding == emb && r.updatedAt == now
    ensures r.(text := m.text, embedding := m.embedding, updatedAt := m.updatedAt) == m
  {
    m.(text := text, embedding := emb, updatedAt := now)
  }

  // ---------------------------------------------------------------- actions

  /** Applies the tool `name` with arguments `args` to the staged rows. */
  function Apply(t: Table, name: Option<string>, args: Json, emb: Embedding, conv: int, now: Time, defaults: Memory): (r: Result<Table, PhaseError>)
    requires t.Valid()
    ensures r.Ok? ==> r.value.Valid()
  {
    if name == Some("add_memory") then
      var text := StringArg(args, "text");
      if text.Err? then Err(text.error)
      else Ok(t.Insert(NewFact(defaults, conv, text.value, emb, now)))
    else if name == Some("update_memory") then
      var id := IntArg(args, "memory_id");
      if id.Err? then Err(id.error)
      else if id.value !in t.rows then Ok(t)
      else
        var text := StringArg(args, "text");
        if text.Err? then Err(text.error)
        else Ok(t.Replace(id.value, Revised(t.rows[id.value], text.value, emb, now)))
    else if name == Some("delete_memory") then
      var id := IntArg(args, "memory_id");
      if id.Err? then Err(id.error)
      else if id.value !in t.rows then Ok(t)
      else Ok(t.Remove(id.value))
    else Ok(t)
  }

  /** The decision's first tool call, applied; the batch stops when there is none or its arguments do not parse. */
  function ApplyDecision(t: Table, msg: Message, emb: Embedding, conv: int, now: Time, d: Decider, defaults: Memory): (r: Result<Table, PhaseError>)
    requires t.Valid()
    ensures r.Ok? ==> r.value.Valid()
    ensures r == Err(NoToolCalls) <==> msg.toolCalls.None? || msg.toolCalls.value == []
  {
    if msg.toolCalls.None? || msg.toolCalls.value == [] then Err(NoToolCalls)
    else
      var f := msg.toolCalls.value[0].func;
      if f.arguments.None? then Err(NoArguments)
      else
        var args := d.parseJson(f.arguments.value);
        if args.JInvalid? then Err(BadJson)
        else Apply(t, f.name, args, emb, conv, now, defaults)
  }

  /** The similar memories as the prompt shows them. */
  function Neighbours(t: Table, ids: seq<Id>): (r: seq<Neighbour>)
    requires forall i :: 0 <= i < |ids| ==> ids[i] in t.rows
    ensures |r| == |ids|
    ensures forall i :: 0 <= i < |ids| ==> r[i] == Neighbour(ids[i], t.rows[ids[i]].text)
  {
    seq(|ids|, i requires 0 <= i < |ids| => Neighbour(ids[i], t.rows[ids[i]].text))
  }

  lemma SimilarStored(t: Table, conv: int, query: Embedding, limit: int, orc: Oracles)
    requires t.Valid()
    ensures var r := Similar(t, conv, query, limit, orc);
      forall i :: 0 <= i < |r| ==> r[i] in t.rows
  {
    var r := Similar(t, conv, query, limit, orc);
    forall i | 0 <= i < |r|
      ensures r[i] in t.rows
    {
      SimilarInConversation(t, conv, query, limit, orc, r[i]);
    }
  }

  /** The decision the model returns for `fact`, shown its ten most similar memories. */
  function Decision(t: Table, conv: int, fact: string, orc: Oracles, d: Decider): Message
    requires t.Valid()
  {
    var similar := Similar(t, conv, orc.embed(fact), NEIGHBOURS, orc);
    SimilarStored(t, conv, orc.embed(fact), NEIGHBOURS, orc);
    Decode(d.complete(DecisionRequest(d.model, d.systemPrompt, fact, Neighbours(t, similar))))
  }

  /** One iteration of the loop, for `fact`. */
  function Step(t: Table, conv: int, fact: string, now: Time, orc: Oracles, d: Decider, defaults: Memory): (r: Result<Table, PhaseError>)
    requires t.Valid()
    ensures r.Ok? ==> r.value.Valid()
  {
    ApplyDecision(t, Decision(t, conv, fact, orc, d), orc.embed(fact), conv, now, d, defaults)
  }

  /** The staged rows after the loop, and the error that stopped it, if any. */
  datatype PhaseResult = PhaseResult(table: Table, error: Option<PhaseError>)

  /** The loop over `facts`: each fact applied to the rows the ones before it left. */
  function Run(t: Table, facts: seq<string>, conv: int, now: Time, orc: Oracles, d: Decider, defaults: Memory): (r: PhaseResult)
    requires t.Valid()
    ensures r.table.Valid()
    decreases |facts|
  {
    if facts == [] then PhaseResult(t, None)
    else
      match Step(t, conv, facts[0], now, orc, d, defaults)
      case Err(e) => PhaseResult(t, Some(e))
      case Ok(t1) => Run(t1, facts[1..], conv, now, orc, d, defaults)
  }

  /**
   * A decision without tool calls stops the whole batch at that fact with
   * `NoToolCalls`, leaving the rows as they were before it.
   */
  lemma RunStopsWithoutCalls(t: Table, facts: seq<string>, conv: int, now: Time, orc: Oracles, d: Decider, defaults: Memory)
    requires t.Valid() && facts != []
    requires var m := Decision(t, conv, facts[0], orc, d); m.toolCalls.None? || m.toolCalls.value == []
    ensures Run(t, facts, conv, now, orc, d, defaults) == PhaseResult(t, Some(NoToolCalls))
  {
  }

  /** The `if`/`elif` chain on the tool name, run against the session. */
  method ApplyAction(db: Session, name: Option<string>, args: Json, emb: Embedding, conv: int, now: Time, defaults: Memory)
    returns (error: Option<PhaseError>)
    requires db.Valid()
    modifies db
    ensures db.Valid()
    ensures var r := Apply(old(db.table), name, args, emb, conv, now, defaults);
      && (r.Ok? ==> error.None? && db.table == r.value)
      && (r.Err? ==> error == Some(r.error) && db.table == old(db.table))
    ensures db.committed == old(db.committed) && db.commits == old(db.commits)
  {
    error := None;
    if name == Some("add_memory") {
      var text := StringArg(args, "text");
      if text.Err? {
        return Some(text.error);
      }
      var _ := db.Add(NewFact(defaults, conv, text.value, emb, now));
    } else if name == Some("update_memory") {
      var id := IntArg(args, "memory_id");
      if id.Err? {
        return Some(id.error);
      }
      var memory := db.Get(id.value);
      if memory.Some? {
        var text := StringArg(args, "text");
        if text.Err? {
          return Some(text.error);
        }
        db.Put(id.value, Revised(memory.value, text.value, emb, now));
      }
    } else if name == Some("delete_memory") {
      var id := IntArg(args, "memory_id");
      if id.Err? {
        return Some(id.error);
      }
      var memory := db.Get(id.value);
      if memory.Some? {
        db.Delete(id.value);
      }
    }
  }

  /** The decision for `fact`: its ten most similar memories, shown to the model. */
  method Consult(db: Session, fact: string, conv: int, orc: Oracles, d: Decider) returns (msg: Message)
    requires db.Valid()
    ensures msg == Decision(db.table, conv, fact, orc, d)
  {
    var similar := SearchSimilarMemories(db, conv, orc.embed(fact), NEIGHBOURS, orc);
    SimilarStored(db.table, conv, orc.embed(fact), NEIGHBOURS, orc);
    msg := Decode(d.complete(DecisionRequest(d.model, d.systemPrompt, fact, Neighbours(db.table, similar))));
  }

  /** The first tool call of `msg`, its arguments parsed and applied. */
  method Act(db: Session, msg: Message, emb: Embedding, conv: int, now: Time, d: Decider, defaults: Memory)
    returns (error: Option<PhaseError>)
    requires db.Valid()
    modifies db
    ensures db.Valid()
    ensures var r := ApplyDecision(old(db.table), msg, emb, conv, now, d, defaults);
      && (r.Ok? ==> error.None? && db.table == r.value)
      && (r.Err? ==> error == Some(r.error) && db.table == old(db.table))
    ensures db.committed == old(db.committed) && db.commits == old(db.commits)
  {
    if msg.toolCalls.None? || msg.toolCalls.value == [] {
      return Some(NoToolCalls);
    }
    var call := msg.toolCalls.value[0];
    if call.func.arguments.None? {
      return Some(NoArguments);
    }
    var args := d.parseJson(call.func.arguments.value);
    if args.JInvalid? {
      return Some(BadJson);
    }
    error := ApplyAction(db, call.func.name, args, emb, conv, now, defaults);
  }

  /** One iteration of the loop of `update_phase`, for `fact`. */
  method UpdateFact(db: Session, fact: string, conv: int, now: Time, orc: Oracles, d: Decider, defaults: Memory)
    returns (error: Option<PhaseError>)
    requires db.Valid()
    modifies db
    ensures db.Valid()
    ensures var r := Step(old(db.table), conv, fact, now, orc, d, defaults);
      && (r.Ok? ==> error.None? && db.table == r.value)
      && (r.Err? ==> error == Some(r.error) && db.table == old(db.table))
    ensures db.committed == old(db.committed) && db.commits == old(db.commits)
  {
    var msg := Consult(db, fact, conv, orc, d);
    error := Act(db, msg, orc.embed(fact), conv, now, d, defaults);
  }

  /** One iteration of the loop, stated against `Run`: the first fact is handled and the rest is what remains. */
  method RunOne(db: Session, facts: seq<string>, conv: int, now: Time, orc: Oracles, d: Decider, defaults: Memory)
    returns (error: Option<PhaseError>)
    requires db.Valid() && facts != []
    modifies db
    ensures db.Valid()
    ensures error.None? ==> Run(old(db.table), facts, conv, now, orc, d, defaults) == Run(db.table, facts[1..], conv, now, orc, d, defaults)
    ensures error.Some? ==> Run(old(db.table), facts, conv, now, orc, d, defaults) == PhaseResult(db.table, error)
    ensures db.committed == old(db.committed) && db.commits == old(db.commits)
  {
    RunStep(db.table, facts, conv, now, orc, d, defaults);
    error := UpdateFact(db, facts[0], conv, now, orc, d, defaults);
  }

  lemma RunStep(t: Table, facts: seq<string>, conv: int, now: Time, orc: Oracles, d: Decider, defaults: Memory)
    requires t.Valid() && facts != []
    ensures var step := Step(t, conv, facts[0], now, orc, d, defaults);
      Run(t, facts, conv, now, orc, d, defaults) ==
        if step.Err? then PhaseResult(t, Some(step.error)) else Run(step.value, facts[1..], conv, now, orc, d, defaults)
  {
  }

  /**
   * `update_phase(db, candidate_facts, conversation_id)`. The staged rows
   * end as `Run` describes. Without an error they are committed once;
   * after an error the changes of the earlier facts stay staged and
   * nothing is committed.
   */
  method UpdatePhase(db: Session, facts: seq<string>, conv: int, now: Time, orc: Oracles, d: Decider, defaults: Memory)
    returns (error: Option<PhaseError>)
    requires db.Valid()
    modifies db
    ensures db.Valid()
    ensures db.table == Run(old(db.table), facts, conv, now, orc, d, defaults).table
    ensures error == Run(old(db.table), facts, conv, now, orc, d, defaults).error
    ensures error.None? ==> db.committed == db.table.rows && db.commits == old(db.commits) + 1
    ensures error.Some? ==> db.committed == old(db.committed) && db.commits == old(db.commits)
  {
    error := None;
    ghost var t0 := db.table;
    var rest := facts;
    var i := 0;
    while i < |facts|
      invariant 0 <= i <= |facts| && rest == facts[i..]
      invariant db.Valid()
      invariant Run(t0, facts, conv, now, orc, d, defaults) == Run(db.table, rest, conv, now, orc, d, defaults)
      invariant db.committed == old(db.committed) && db.commits == old(db.commits)
      invariant error.None?
    {
      assert rest[0] == facts[i];
      error := RunOne(db, rest, conv, now, orc, d, defaults);
      if error.Some? {
        return;
      }
      rest := rest[1..];
      i := i + 1;
    }
    db.Commit();
  }

  // ---------------------------------------------------------------- lemmas

  /** `add_memory` with a text stores exactly one new record under the next id and touches nothing else. */
  lemma ApplyAdd(t: Table, args: Json, emb: Embedding, conv: int, now: Time, defaults: Memory)
    requires t.Valid()
    ensures var r := Apply(t, Some("add_memory"), args, emb, conv, now, defaults);
      && (r.Ok? <==> StringArg(args, "text").Ok?)
      && (r.Ok? ==>
            && r.value.rows.Keys == t.rows.Keys + {t.nextId} && t.nextId !in t.rows
            && (forall x :: x in t.rows ==> r.value.rows[x] == t.rows[x])
            && r.value.rows[t.nextId] == NewFact(defaults, conv, args.fields["text"].s, emb, now))
  {
    var r := Apply(t, Some("add_memory"), args, emb, conv, now, defaults);
    if r.Ok? {
      var m := NewFact(defaults, conv, StringArg(args, "text").value, emb, now);
      assert r.value == t.Insert(m);
      assert r.value.rows == t.rows[t.nextId := m];
    }
  }

  /**
   * `update_memory` on a stored id rewrites that record's text, embedding
   * and update time and nothing else; on an id that is not stored it
   * changes nothing and does not read `text` at all.
   */
  lemma ApplyUpdate(t: Table, id: Id, args: Json, emb: Embedding, conv: int, now: Time, defaults: Memory)
    requires t.Valid()
    requires IntArg(args, "memory_id") == Ok(id)
    ensures var r := Apply(t, Some("update_memory"), args, emb, conv, now, defaults);
      && (id !in t.rows ==> r == Ok(t))
      && (id in t.rows ==> (r.Ok? <==> StringArg(args, "text").Ok?))
      && (id in t.rows && r.Ok? ==>
            && r.value.rows.Keys == t.rows.Keys && r.value.order == t.order
            && (forall x :: x in t.rows && x != id ==> r.value.rows[x] == t.rows[x])
            && r.value.rows[id].text == args.fields["text"].s
            && r.value.rows[id].embedding == emb && r.value.rows[id].updatedAt == now
            && r.value.rows[id].(text := t.rows[id].text, embedding := t.rows[id].embedding, updatedAt := t.rows[id].updatedAt) == t.rows[id])
  {
    var r := Apply(t, Some("update_memory"), args, emb, conv, now, defaults);
    if id in t.rows && r.Ok? {
      var m := Revised(t.rows[id], StringArg(args, "text").value, emb, now);
      assert r.value == t.Replace(id, m);
      assert r.value.rows == t.rows[id := m];
    }
  }

  /** `delete_memory` removes a stored id and nothing else; an id that is not stored changes nothing. */
  lemma ApplyDelete(t: Table, id: Id, args: Json, emb: Embedding, conv: int, now: Time, defaults: Memory)
    requires t.Valid()
    requires IntArg(args, "memory_id") == Ok(id)
    ensures var r := Apply(t, Some("delete_memory"), args, emb, conv, now, defaults);
      && r.Ok?
      && r.value.rows == t.rows - {id}
      && (forall x :: x in r.value.order <==> x in t.order && x != id)
  {
  }

  /** A `noop`, an unknown tool name or a call without a name leaves the rows as they were. */
  lemma ApplyIgnored(t: Table, name: Option<string>, args: Json, emb: Embedding, conv: int, now: Time, defaults: Memory)
    requires t.Valid()
    requires name !in {Some("add_memory"), Some("update_memory"), Some("delete_memory")}
    ensures Apply(t, name, args, emb, conv, now, defaults) == Ok(t)
  {
  }

  /**
   * An action fails only for one of the three tools that take arguments,
   * and an argument it reports missing is one the tool schema marks as
   * required for that tool.
   */
  lemma ApplyMissingIsRequired(t: Table, name: Option<string>, args: Json, emb: Embedding, conv: int, now: Time, defaults: Memory)
    requires t.Valid()
    ensures var r := Apply(t, name, args, emb, conv, now, defaults);
      && (r.Err? ==> name in {Some("add_memory"), Some("update_memory"), Some("delete_memory")})
      && (r.Err? && r.error.MissingArgument? ==>
            exists i :: 0 <= i < |TOOLS| && TOOLS[i].name == name.value && r.error.key in RequiredOf(TOOLS[i]))
  {
    var r := Apply(t, name, args, emb, conv, now, defaults);
    ToolsSchema();
    var names := ToolNames(TOOLS);
    if r.Err? && r.error.MissingArgument? {
      if name == Some("add_memory") {
        assert r.error.key == "text" && TOOLS[0].name == names[0];
      } else if name == Some("update_memory") {
        assert r.error.key in ["memory_id", "text"] && TOOLS[1].name == names[1];
      } else {
        assert r.error.key == "memory_id" && TOOLS[2].name == names[2];
      }
    }
  }

  /** Only the first tool call of a decision is acted on. */
  lemma FirstCallOnly(t: Table, msg: Message, other: Message, emb: Embedding, conv: int, now: Time, d: Decider, defaults: Memory)
    requires t.Valid()
    requires msg.toolCalls.Some? && other.toolCalls.Some? && |msg.toolCalls.value| > 0 && |other.toolCalls.value| > 0
    requires msg.toolCalls.value[0] == other.toolCalls.value[0]
    ensures ApplyDecision(t, msg, emb, conv, now, d, defaults) == ApplyDecision(t, other, emb, conv, now, d, defaults)
  {
  }

  /** Every action keeps the link graph well formed, provided new records start without links. */
  lemma ApplyKeepsGraph(t: Table, name: Option<string>, args: Json, emb: Embedding, conv: int, now: Time, defaults: Memory)
    requires GraphOk(t) && LinksOf(defaults).bubbleIds == []
    ensures var r := Apply(t, name, args, emb, conv, now, defaults);
      r.Ok? ==> GraphOk(r.value)
  {
    var r := Apply(t, name, args, emb, conv, now, defaults);
    if r.Ok? && r.value != t {
      if name == Some("add_memory") {
        var m := NewFact(defaults, conv, StringArg(args, "text").value, emb, now);
        assert m.metadata == defaults.metadata;
        InsertKeepsGraph(t, m);
      } else if name == Some("update_memory") {
        var id := IntArg(args, "memory_id").value;
        ReplaceKeepsGraph(t, id, Revised(t.rows[id], StringArg(args, "text").value, emb, now));
      } else {
        RemoveKeepsGraph(t, IntArg(args, "memory_id").value);
      }
    }
  }

  /** The whole batch keeps the link graph well formed. */
  lemma {:induction false} RunKeepsGraph(t: Table, facts: seq<string>, conv: int, now: Time, orc: Oracles, d: Decider, defaults: Memory)
    requires GraphOk(t) && LinksOf(defaults).bubbleIds == []
    ensures GraphOk(Run(t, facts, conv, now, orc, d, defaults).table)
    decreases |facts|
  {
    if facts != [] {
      var msg := Decision(t, conv, facts[0], orc, d);
      var step := Step(t, conv, facts[0], now, orc, d, defaults);
      if step.Ok? {
        var f := msg.toolCalls.value[0].func;
        ApplyKeepsGraph(t, f.name, d.parseJson(f.arguments.value), orc.embed(facts[0]), conv, now, defaults);
        RunKeepsGraph(step.value, facts[1..], conv, now, orc, d, defaults);
      }
    }
  }

  /**
   * Facts are handled one after another: running `a + b` runs `a`, and
   * unless that stopped with an error, runs `b` on the rows `a` left.
   */
  lemma {:induction false} RunAppend(t: Table, a: seq<string>, b: seq<string>, conv: int, now: Time, orc: Oracles, d: Decider, defaults: Memory)
    requires t.Valid()
    ensures var ra := Run(t, a, conv, now, orc, d, defaults);
      Run(t, a + b, conv, now, orc, d, defaults) ==
        if ra.error.Some? then ra else Run(ra.table, b, conv, now, orc, d, defaults)
    decreases |a|
  {
    if a == [] {
      assert a + b == b;
    } else {
      assert (a + b)[0] == a[0] && (a + b)[1..] == a[1..] + b;
      var step := Step(t, conv, a[0], now, orc, d, defaults);
      if step.Ok? {
        RunAppend(step.value, a[1..], b, conv, now, orc, d, defaults);
      }
    }
  }
}
