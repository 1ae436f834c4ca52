/**
 * The text protocol for read-only tool use, its bounded loop, and the retry loop around it
 * (model_executor.py, tools/base.py). Providers, parsers and tools answer arbitrarily.
 */
module ToolLoop {
  import opened Wrappers
  import Text
  import opened Values
  import opened JsonText

  /** What is left of the outside: fence stripping, json.loads (None when it raises) and json.dumps. */
  datatype Codec = Codec(strip: string -> string, loads: string -> Option<Value>, dumps: Value -> string)

  datatype Turn = Tool(name: string, params: map<string, Value>) | Final(result: Value) | Malformed

  /** The discriminator on a decoded response. */
  function ReadTurn(obj: Option<Value>): Turn {
    if obj == None || !obj.value.Dict? || "action" !in obj.value.fields then Malformed
    else
      var f := obj.value.fields;
      if f["action"] == Str("tool") then
        if "tool" !in f || !f["tool"].Str? || Text.Strip(f["tool"].text) == "" then Malformed
        else Tool(Text.Strip(f["tool"].text), if "params" in f && f["params"].Dict? then f["params"].fields else map[])
      else if f["action"] == Str("final") && "result" in f then Final(f["result"])
      else Malformed
  }

  /** The decoded reply is a final answer with this result. */
  predicate FinalWith(obj: Option<Value>, x: Value) {
    && obj.Some? && obj.value.Dict?
    && var f := obj.value.fields;
       "action" in f && f["action"] == Str("final") && "result" in f && f["result"] == x
  }

  /** The decoded reply asks for a tool: the name is text and not blank, and params that are no object count as none. */
  predicate AsksFor(obj: Option<Value>, name: string, params: map<string, Value>) {
    && obj.Some? && obj.value.Dict?
    && var f := obj.value.fields;
       && "action" in f && f["action"] == Str("tool")
       && "tool" in f && f["tool"].Str? && Text.Strip(f["tool"].text) == name != ""
       && params == (if "params" in f && f["params"].Dict? then f["params"].fields else map[])
  }

  /** What a turn says about the decoded reply, in both directions; a malformed turn is thus every other reply. */
  ghost predicate Means(obj: Option<Value>, t: Turn) {
    && (forall x :: FinalWith(obj, x) <==> t == Final(x))
    && (forall name, params :: AsksFor(obj, name, params) <==> t == Tool(name, params))
  }

  lemma ReadTurnMeans(obj: Option<Value>)
    ensures Means(obj, ReadTurn(obj))
  {
  }

  lemma BlankMeans()
    ensures Means(None, Malformed)
  {
  }

  /** How one response is decoded: whole, or else through the first balanced object in it. */
  ghost predicate DecodesTo(c: Codec, content: string, obj: Option<Value>) {
    if Text.Strip(content) == "" then obj == None
    else if c.loads(c.strip(content)).Some? then obj == c.loads(c.strip(content))
    else
      exists candidate, fallback ::
        && Extracts(c.strip(content), candidate) && Extracts(content, fallback)
        && var found := if candidate.Some? then candidate else fallback;
           obj == if found.Some? then c.loads(found.value) else None
  }

  ghost predicate ReadsAs(c: Codec, content: string, t: Turn) {
    exists obj :: DecodesTo(c, content, obj) && Means(obj, t)
  }

  lemma DecodesOnce(c: Codec, content: string, a: Option<Value>, b: Option<Value>)
    requires DecodesTo(c, content, a) && DecodesTo(c, content, b)
    ensures a == b
  {
    var _ := ExtractsSomething(c.strip(content));
    var _ := ExtractsSomething(content);
  }

  method ParseToolProtocol(c: Codec, content: string) returns (t: Turn)
    ensures ReadsAs(c, content, t)
  {
    hide Means, ReadTurn;
    if Text.Strip(content) == "" {
      BlankMeans();
      assert DecodesTo(c, content, None);
      return Malformed;
    }
    var stripped := c.strip(content);
    var obj := c.loads(stripped);
    if obj == None {
      var candidate := ExtractFirstJsonObject(stripped);
      var fallback := ExtractFirstJsonObject(content);
      var found := if candidate.Some? then candidate else fallback;
      if found.Some? {
        obj := c.loads(found.value);
      }
    }
    ReadTurnMeans(obj);
    assert DecodesTo(c, content, obj);
    return ReadTurn(obj);
  }

  /** Prose around an object does not change how a turn is read. */
  lemma ProseTolerant(c: Codec, content: string, before: string, v: Json, after: string, t: Turn)
    requires Text.Strip(content) != "" && c.loads(c.strip(content)) == None
    requires c.strip(content) == before + Show(v) + after
    requires WellFormed(v) && v.Object? && '{' !in before
    ensures ReadsAs(c, content, t) <==> Means(c.loads(Show(v)), t)
  {
    hide Means;
    forall r { ExtractInvertsPrinting(before, v, after, r); }
    var fallback := ExtractsSomething(content);
    assert Extracts(c.strip(content), Some(Show(v)));
    assert DecodesTo(c, content, c.loads(Show(v)));
    forall obj | DecodesTo(c, content, obj)
      ensures obj == c.loads(Show(v))
    {
      DecodesOnce(c, content, obj, c.loads(Show(v)));
    }
  }

  predicate SameAlias(m: map<string, string>, n: map<string, string>, a: string) {
    (a in m <==> a in n) && (a in m ==> m[a] == n[a])
  }

  /** Tools by canonical name with their aliases, and the alias index. */
  class ToolRegistry {
    var tools: map<string, seq<string>>
    var aliasMap: map<string, string>

    /** Every alias leads to a registered tool that lists it. */
    predicate Valid()
      reads this
    {
      forall a | a in aliasMap :: aliasMap[a] in tools && a in tools[aliasMap[a]]
    }

    constructor ()
      ensures Valid() && tools == map[]
    {
      tools, aliasMap := map[], map[];
    }

    /** Registers a tool; false where the source raises because the name is taken. */
    method Register(name: string, aliases: seq<string>) returns (ok: bool)
      requires Valid()
      modifies this
      ensures Valid()
      ensures ok <==> name !in old(tools)
      ensures tools == if ok then old(tools)[name := aliases] else old(tools)
      ensures ok ==> forall a :: a in aliases ==> a in aliasMap && aliasMap[a] == name
      ensures forall a | a !in aliases || !ok :: SameAlias(aliasMap, old(aliasMap), a)
      ensures ok ==> forall a | a in aliases :: Get(a) == Some(name)
      ensures ok && name !in old(aliasMap) && name !in aliases ==> Get(name) == Some(name)
      ensures forall a | !ok || (a !in aliases && a != name) :: Get(a) == old(Get(a))
    {
      if name in tools {
        return false;
      }
      tools := tools[name := aliases];
      for i := 0 to |aliases|
        invariant Valid() && tools == old(tools)[name := aliases]
        invariant forall j | 0 <= j < i :: aliases[j] in aliasMap && aliasMap[aliases[j]] == name
        invariant forall a | a !in aliases :: SameAlias(aliasMap, old(aliasMap), a)
      {
        aliasMap := aliasMap[aliases[i] := name];
      }
      return true;
    }

    /** The canonical name a request resolves to. */
    function Get(name: string): Option<string>
      reads this
    {
      var canonical := if name in aliasMap then aliasMap[name] else name;
      if canonical in tools then Some(canonical) else None
    }

    predicate IsAllowed(name: string, allowed: set<string>)
      reads this
    {
      || name in allowed
      || (name in tools && exists a | a in tools[name] :: a in allowed)
      || (name in aliasMap && aliasMap[name] != "" && aliasMap[name] in allowed)
    }

    /** What a name resolves to is a registered tool: the one that took it as an alias, else the one of that name. */
    lemma GetFinds(name: string)
      requires Valid()
      ensures name in aliasMap ==> Get(name) == Some(aliasMap[name])
      ensures name !in aliasMap ==> Get(name) == if name in tools then Some(name) else None
      ensures Get(name).Some? ==> Get(name).value in tools
    {
    }

    /**
     * Whom the check lets through: a request under a granted name, a request by alias for a tool granted under its
     * canonical name (unless that name is empty), and a request by canonical name for a tool granted under an alias.
     */
    lemma AllowedExactly(name: string, allowed: set<string>)
      requires Valid()
      ensures name in allowed ==> IsAllowed(name, allowed)
      ensures Get(name).Some? && Get(name).value in allowed && Get(name).value != "" ==> IsAllowed(name, allowed)
      ensures name !in aliasMap ==> (IsAllowed(name, allowed) <==> Granted(name, allowed))
      ensures name !in tools && Get(name).Some? && Get(name).value != "" ==>
        (IsAllowed(name, allowed) <==> name in allowed || Get(name).value in allowed)
      ensures name !in tools && Get(name) == None ==> (IsAllowed(name, allowed) <==> name in allowed)
    {
    }

    /** A role was granted a tool under its canonical name or one of its aliases. */
    predicate Granted(canonical: string, allowed: set<string>)
      reads this
    {
      canonical in allowed || (canonical in tools && exists a | a in tools[canonical] :: a in allowed)
    }

    /**
     * The request is the canonical name of one tool and an alias of another, and the first has a name the second
     * lacks.
     */
    predicate Confusable(name: string)
      requires Valid()
      reads this
    {
      && name in tools && name in aliasMap
      && exists a | a in tools[name] :: a != aliasMap[name] && a !in tools[aliasMap[name]]
    }

    /**
     * The check looks at the requested name, the call at the tool it resolves to: the check speaks for that
     * tool, whatever a role was granted, exactly when the two readings of the name cannot be confused.
     */
    lemma AllowedMeansGranted(name: string)
      requires Valid() && Get(name).Some?
      ensures (forall allowed :: IsAllowed(name, allowed) ==> Granted(Get(name).value, allowed)) <==> !Confusable(name)
    {
      if Confusable(name) {
        var a :| a in tools[name] && a != aliasMap[name] && a !in tools[aliasMap[name]];
        assert IsAllowed(name, {a}) && !Granted(aliasMap[name], {a});
      }
    }
  }

  /** Registering "a" with an alias "x", then "b" with the alias "a", makes "a" a name that can be confused. */
  method ConfusableRegistry() returns (registry: ToolRegistry)
    ensures fresh(registry) && registry.Valid() && registry.Confusable("a")
    ensures registry.IsAllowed("a", {"x"}) && registry.Get("a") == Some("b") && !registry.Granted("b", {"x"})
  {
    registry := new ToolRegistry();
    var first := registry.Register("a", ["x"]);
    var second := registry.Register("b", ["a"]);
    assert "x" in registry.tools["a"] && "a" in ["a"];
  }

  const TOOL_LOOP_MAX_ROUNDS: nat := 5
  const JSON_RETRY_MAX: nat := 2

  datatype Speaker = User | Assistant

  datatype Body =
    | Prompt(text: string) | Reply(text: string) | ProtocolError
    | NotPermitted(tool: string) | UnknownTool(tool: string) | NotAvailable(tool: string)
    | ToolOutput(tool: string, text: string)

  datatype Message = Message(role: Speaker, body: Body)

  /** What the provider makes of one call; total_tokens is the sum of the other two. */
  datatype Response = Raised | Answer(content: string, promptTokens: nat, completionTokens: nat, finishReason: string)

  datatype Usage = Usage(promptTokens: nat, completionTokens: nat, totalTokens: nat, finishReason: Option<string>)

  datatype Ended = EndedFinal | EndedExhausted | EndedError

  /** The audit record: canonical names of the executed tools, with the path each was asked for. */
  datatype Stats = Stats(rounds: nat, toolCalls: nat, requests: seq<(string, Option<string>)>, ended: Ended)

  /** The provider's answer at each round, and what a tool run at that round returns (None: it raises). */
  datatype World = World(provider: nat -> Response, toolRun: nat -> Option<string>)

  /** Strict alternation, opened and closed by the user. */
  ghost predicate Conversation(ms: seq<Message>, n: nat) {
    && |ms| == 2 * n + 1
    && forall k | 0 <= k < |ms| :: ms[k].role == if k % 2 == 0 then User else Assistant
  }

  function SumPrompt(provider: nat -> Response, n: nat): nat {
    if n == 0 then 0
    else SumPrompt(provider, n - 1) + (if provider(n - 1).Answer? then provider(n - 1).promptTokens else 0)
  }

  function SumCompletion(provider: nat -> Response, n: nat): nat {
    if n == 0 then 0
    else SumCompletion(provider, n - 1) + (if provider(n - 1).Answer? then provider(n - 1).completionTokens else 0)
  }

  /** The usage row of a loop sums what every answered round reported. */
  ghost predicate Tallies(provider: nat -> Response, n: nat, usage: Usage) {
    && usage.promptTokens == SumPrompt(provider, n)
    && usage.completionTokens == SumCompletion(provider, n)
    && usage.totalTokens == usage.promptTokens + usage.completionTokens
    && usage.finishReason == if n == 0 || !provider(n - 1).Answer? then None else Some(provider(n - 1).finishReason)
  }

  function AddUsage(usage: Usage, r: Response): Usage
    requires r.Answer?
  {
    Usage(usage.promptTokens + r.promptTokens, usage.completionTokens + r.completionTokens,
          usage.totalTokens + (r.promptTokens + r.completionTokens), Some(r.finishReason))
  }

  lemma TalliesNothing(provider: nat -> Response)
    ensures Tallies(provider, 0, Usage(0, 0, 0, None))
  {
  }

  lemma TalliesNext(provider: nat -> Response, n: nat, usage: Usage)
    requires Tallies(provider, n, usage) && provider(n).Answer?
    ensures Tallies(provider, n + 1, AddUsage(usage, provider(n)))
  {
  }

  /** The conversation sent at round i carries the earlier replies verbatim, each answered by the loop. */
  ghost predicate SentAt(w: World, userMsg: string, sent: seq<Message>, i: nat) {
    && Conversation(sent, i)
    && sent[0] == Message(User, Prompt(userMsg))
    && forall k | 0 <= k < i ::
          w.provider(k).Answer? && sent[2 * k + 1] == Message(Assistant, Reply(w.provider(k).content))
  }

  lemma SentNext(w: World, userMsg: string, sent: seq<Message>, i: nat, answer: Body)
    requires SentAt(w, userMsg, sent, i) && w.provider(i).Answer?
    ensures SentAt(w, userMsg, sent + [Message(Assistant, Reply(w.provider(i).content)), Message(User, answer)], i + 1)
  {
  }

  /** A tool ran: it was requested under a name this role may use, and it is one the loop offers. */
  ghost predicate Sanctioned(registry: ToolRegistry, allowed: set<string>, advertised: set<string>, requested: string,
                             canonical: string)
    reads registry
  {
    registry.IsAllowed(requested, allowed) && registry.Get(requested) == Some(canonical) && canonical in advertised
  }

  /** The reply of a round is a final answer with this result. */
  ghost predicate FinalReply(c: Codec, w: World, k: nat, x: Value) {
    w.provider(k).Answer? && exists obj :: DecodesTo(c, w.provider(k).content, obj) && FinalWith(obj, x)
  }

  /** The reply of a round makes the loop run a tool. */
  ghost predicate RunsTool(c: Codec, registry: ToolRegistry, allowed: set<string>, advertised: set<string>, w: World,
                           k: nat)
    reads registry
  {
    w.provider(k).Answer? && exists obj, name, params, canonical ::
      && DecodesTo(c, w.provider(k).content, obj) && AsksFor(obj, name, params)
      && Sanctioned(registry, allowed, advertised, name, canonical)
  }

  /** A round that is followed by another: the provider answers, nothing final, and no tool run raises. */
  ghost predicate GoesOn(c: Codec, registry: ToolRegistry, allowed: set<string>, advertised: set<string>, w: World,
                         k: nat)
    reads registry
  {
    && w.provider(k).Answer?
    && (forall x :: !FinalReply(c, w, k, x))
    && (w.toolRun(k) == None ==> !RunsTool(c, registry, allowed, advertised, w, k))
  }

  /** How a loop ends, in terms of the replies alone: the first round that does not go on decides. */
  ghost predicate EndsAs(c: Codec, registry: ToolRegistry, allowed: set<string>, advertised: set<string>, w: World,
                         maxRounds: nat, content: string, rounds: nat, ended: Ended)
    reads registry
  {
    && rounds <= maxRounds
    && (forall k: nat | k < rounds && (k < rounds - 1 || ended.EndedExhausted?) ::
          GoesOn(c, registry, allowed, advertised, w, k))
    && match ended
       case EndedFinal =>
         rounds > 0 && exists x :: FinalReply(c, w, rounds - 1, x) && content == c.dumps(x)
       case EndedExhausted =>
         && rounds == maxRounds
         && (if rounds == 0 then content == ""
             else w.provider(rounds - 1).Answer? && content == w.provider(rounds - 1).content)
       case EndedError =>
         && rounds > 0
         && (if w.provider(rounds - 1).Raised? then
               if rounds == 1 then content == ""
               else w.provider(rounds - 2).Answer? && content == w.provider(rounds - 2).content
             else
               && RunsTool(c, registry, allowed, advertised, w, rounds - 1) && w.toolRun(rounds - 1) == None
               && content == w.provider(rounds - 1).content)
  }

  lemma RepliesOnce(c: Codec, registry: ToolRegistry, allowed: set<string>, advertised: set<string>, w: World, k: nat,
                    x: Value)
    requires FinalReply(c, w, k, x)
    ensures forall y :: FinalReply(c, w, k, y) ==> x == y
    ensures !RunsTool(c, registry, allowed, advertised, w, k)
  {
    hide DecodesTo, Sanctioned;
    var content := w.provider(k).content;
    forall a, b | DecodesTo(c, content, a) && DecodesTo(c, content, b)
      ensures a == b
    {
      DecodesOnce(c, content, a, b);
    }
  }

  /** The first final reply that is reached ends the loop, at its own round and with its own result. */
  lemma FirstFinalDecides(c: Codec, registry: ToolRegistry, allowed: set<string>, advertised: set<string>, w: World,
                          maxRounds: nat, content: string, rounds: nat, ended: Ended, i: nat, x: Value)
    requires EndsAs(c, registry, allowed, advertised, w, maxRounds, content, rounds, ended)
    requires i < maxRounds && FinalReply(c, w, i, x)
    requires forall k: nat | k < i :: GoesOn(c, registry, allowed, advertised, w, k)
    ensures ended == EndedFinal && rounds == i + 1 && content == c.dumps(x)
  {
    hide RunsTool, FinalReply;
    FinalAnswers(c, w, i, x);
    RepliesOnce(c, registry, allowed, advertised, w, i, x);
    LastRoundStops(c, registry, allowed, advertised, w, maxRounds, content, rounds, ended);
    assert !GoesOn(c, registry, allowed, advertised, w, i);
  }

  lemma LastRoundStops(c: Codec, registry: ToolRegistry, allowed: set<string>, advertised: set<string>, w: World,
                       maxRounds: nat, content: string, rounds: nat, ended: Ended)
    requires EndsAs(c, registry, allowed, advertised, w, maxRounds, content, rounds, ended)
    ensures !ended.EndedExhausted? ==> rounds > 0 && !GoesOn(c, registry, allowed, advertised, w, rounds - 1)
  {
    hide RunsTool, FinalReply;
  }

  lemma FinalAnswers(c: Codec, w: World, i: nat, x: Value)
    requires FinalReply(c, w, i, x)
    ensures w.provider(i).Answer?
  {
  }

  /** A turn read from a round's reply says what that reply does to the loop. */
  lemma TurnDecides(c: Codec, registry: ToolRegistry, allowed: set<string>, advertised: set<string>, w: World, k: nat,
                    turn: Turn)
    requires w.provider(k).Answer? && ReadsAs(c, w.provider(k).content, turn)
    ensures forall x :: FinalReply(c, w, k, x) <==> turn == Final(x)
    ensures RunsTool(c, registry, allowed, advertised, w, k) <==>
      turn.Tool? && exists canonical :: Sanctioned(registry, allowed, advertised, turn.name, canonical)
  {
    hide DecodesTo, Sanctioned, FinalWith, AsksFor;
    var content := w.provider(k).content;
    var obj :| DecodesTo(c, content, obj) && Means(obj, turn);
    forall other | DecodesTo(c, content, other)
      ensures other == obj
    {
      DecodesOnce(c, content, other, obj);
    }
    if turn.Tool? {
      assert AsksFor(obj, turn.name, turn.params);
    }
  }

  lemma TurnGoesOn(c: Codec, registry: ToolRegistry, allowed: set<string>, advertised: set<string>, w: World, k: nat,
                   turn: Turn)
    requires w.provider(k).Answer? && ReadsAs(c, w.provider(k).content, turn) && !turn.Final?
    requires w.toolRun(k) == None && turn.Tool? ==>
      forall canonical :: !Sanctioned(registry, allowed, advertised, turn.name, canonical)
    ensures GoesOn(c, registry, allowed, advertised, w, k)
  {
    hide ReadsAs, FinalReply, RunsTool, Sanctioned;
    TurnDecides(c, registry, allowed, advertised, w, k, turn);
  }

  lemma TurnEnds(c: Codec, registry: ToolRegistry, allowed: set<string>, advertised: set<string>, w: World,
                 maxRounds: nat, round: nat, turn: Turn)
    requires forall k: nat | k < round :: GoesOn(c, registry, allowed, advertised, w, k)
    requires round < maxRounds && w.provider(round).Answer? && ReadsAs(c, w.provider(round).content, turn)
    ensures turn.Final? ==>
      EndsAs(c, registry, allowed, advertised, w, maxRounds, c.dumps(turn.result), round + 1, EndedFinal)
    ensures turn.Tool? && w.toolRun(round) == None
            && (exists canonical :: Sanctioned(registry, allowed, advertised, turn.name, canonical)) ==>
      EndsAs(c, registry, allowed, advertised, w, maxRounds, w.provider(round).content, round + 1, EndedError)
  {
    hide GoesOn, ReadsAs, FinalReply, RunsTool, Sanctioned;
    TurnDecides(c, registry, allowed, advertised, w, round, turn);
    if turn.Final? {
      assert FinalReply(c, w, round, turn.result);
    }
  }

  lemma LoopEnds(c: Codec, registry: ToolRegistry, allowed: set<string>, advertised: set<string>, w: World,
                 maxRounds: nat, round: nat, content: string)
    requires forall k: nat | k < round :: GoesOn(c, registry, allowed, advertised, w, k)
    requires round <= maxRounds
    requires if round == 0 then content == ""
      else w.provider(round - 1).Answer? && content == w.provider(round - 1).content
    ensures round < maxRounds && w.provider(round).Raised? ==>
      EndsAs(c, registry, allowed, advertised, w, maxRounds, content, round + 1, EndedError)
    ensures round == maxRounds ==>
      EndsAs(c, registry, allowed, advertised, w, maxRounds, content, round, EndedExhausted)
  {
    hide GoesOn, FinalReply, RunsTool;
  }

  /** What the loop says to a turn that is not final, and the tool it runs for it; no answer where running it raises. */
  function Reaction(registry: ToolRegistry, allowed: set<string>, advertised: set<string>,
                    turn: Turn, output: Option<string>): (Option<Body>, Option<string>)
    reads registry
  {
    if !turn.Tool? then (Some(ProtocolError), None)
    else if !registry.IsAllowed(turn.name, allowed) then (Some(NotPermitted(turn.name)), None)
    else if registry.Get(turn.name) == None then (Some(UnknownTool(turn.name)), None)
    else
      var tool := registry.Get(turn.name).value;
      if tool !in advertised then (Some(NotAvailable(turn.name)), None)
      else if output == None then (None, None)
      else (Some(ToolOutput(tool, output.value)), Some(tool))
  }

  /** Every earlier turn was answered with what the loop says to it. */
  ghost predicate Answered(registry: ToolRegistry, allowed: set<string>, advertised: set<string>, w: World,
                           turns: seq<Turn>, sent: seq<Message>, i: nat)
    reads registry
  {
    && i <= |turns| && |sent| == 2 * i + 1
    && forall k | 0 <= k < i ::
         var answer := Reaction(registry, allowed, advertised, turns[k], w.toolRun(k)).0;
         answer.Some? && sent[2 * k + 2] == Message(User, answer.value)
  }

  /** The tools run for the first n turns, with the names they were asked for under. */
  function RanFor(registry: ToolRegistry, allowed: set<string>, advertised: set<string>, w: World,
                  turns: seq<Turn>, n: nat): seq<(string, string)>
    requires n <= |turns|
    reads registry
  {
    if n == 0 then []
    else
      var ran := Reaction(registry, allowed, advertised, turns[n - 1], w.toolRun(n - 1)).1;
      RanFor(registry, allowed, advertised, w, turns, n - 1)
      + if turns[n - 1].Tool? && ran.Some? then [(turns[n - 1].name, ran.value)] else []
  }

  lemma {:induction false} RanForPrefix(registry: ToolRegistry, allowed: set<string>, advertised: set<string>, w: World,
                                        turns: seq<Turn>, more: seq<Turn>, n: nat)
    requires n <= |turns| && turns <= more
    ensures RanFor(registry, allowed, advertised, w, turns, n) == RanFor(registry, allowed, advertised, w, more, n)
  {
    hide Reaction;
    if n > 0 {
      RanForPrefix(registry, allowed, advertised, w, turns, more, n - 1);
    }
  }

  lemma RanForNext(registry: ToolRegistry, allowed: set<string>, advertised: set<string>, w: World,
                   turns: seq<Turn>, turn: Turn)
    ensures var ran := Reaction(registry, allowed, advertised, turn, w.toolRun(|turns|)).1;
      RanFor(registry, allowed, advertised, w, turns + [turn], |turns| + 1) ==
        RanFor(registry, allowed, advertised, w, turns, |turns|)
        + if turn.Tool? && ran.Some? then [(turn.name, ran.value)] else []
  {
    hide Reaction;
    RanForPrefix(registry, allowed, advertised, w, turns, turns + [turn], |turns|);
  }

  lemma AnsweredNext(registry: ToolRegistry, allowed: set<string>, advertised: set<string>, w: World,
                     turns: seq<Turn>, turn: Turn, sent: seq<Message>, i: nat, reply: Message, answer: Body)
    requires |turns| == i && Answered(registry, allowed, advertised, w, turns, sent, i)
    requires Reaction(registry, allowed, advertised, turn, w.toolRun(i)).0 == Some(answer)
    ensures Answered(registry, allowed, advertised, w, turns + [turn], sent + [reply, Message(User, answer)], i + 1)
  {
    hide Reaction;
    var next := sent + [reply, Message(User, answer)];
    assert next[2 * i + 2] == Message(User, answer);
  }

  lemma AnsweredStays(registry: ToolRegistry, allowed: set<string>, advertised: set<string>, w: World,
                      turns: seq<Turn>, turn: Turn, sent: seq<Message>, i: nat)
    requires Answered(registry, allowed, advertised, w, turns, sent, i)
    ensures Answered(registry, allowed, advertised, w, turns + [turn], sent, i)
  {
    hide Reaction;
  }

  /** Answers a turn that is not final; None where running the tool raises. */
  method AnswerTurn(registry: ToolRegistry, allowed: set<string>, advertised: set<string>, turn: Turn,
                    output: Option<string>)
    returns (answer: Option<Body>, ran: Option<string>)
    ensures (answer, ran) == Reaction(registry, allowed, advertised, turn, output)
    ensures ran.Some? ==> turn.Tool? && answer.Some? && Sanctioned(registry, allowed, advertised, turn.name, ran.value)
    ensures answer == None ==>
      turn.Tool? && output == None && exists tool :: Sanctioned(registry, allowed, advertised, turn.name, tool)
    ensures turn.Tool? && output.Some? ==>
      forall tool :: Sanctioned(registry, allowed, advertised, turn.name, tool) ==> ran == Some(tool)
    ensures turn.Tool? && output == None ==>
      (answer == None <==> exists tool :: Sanctioned(registry, allowed, advertised, turn.name, tool))
    ensures !turn.Tool? ==> answer == Some(ProtocolError)
    ensures turn.Tool? && !registry.IsAllowed(turn.name, allowed) ==> answer == Some(NotPermitted(turn.name))
    ensures turn.Tool? && registry.IsAllowed(turn.name, allowed) ==>
      match registry.Get(turn.name)
      case None => answer == Some(UnknownTool(turn.name))
      case Some(tool) => tool !in advertised ==> answer == Some(NotAvailable(turn.name))
    ensures ran.Some? ==> output.Some? && answer == Some(ToolOutput(ran.value, output.value))
  {
    if !turn.Tool? {
      return Some(ProtocolError), None;
    }
    if !registry.IsAllowed(turn.name, allowed) {
      return Some(NotPermitted(turn.name)), None;
    }
    var tool := registry.Get(turn.name);
    if tool == None {
      return Some(UnknownTool(turn.name)), None;
    }
    if tool.value !in advertised {
      return Some(NotAvailable(turn.name)), None;
    }
    if output == None {
      assert Sanctioned(registry, allowed, advertised, turn.name, tool.value);
      return None, None;
    }
    return Some(ToolOutput(tool.value, output.value)), tool;
  }

  function RequestedPath(t: Turn): Option<string>
    requires t.Tool?
  {
    if "path" in t.params && t.params["path"].Str? then Some(t.params["path"].text) else None
  }

  /**
   * The bounded loop. `sent` is what the provider was given at each round, `executed` the requested and
   * canonical name of every tool that ran, and `turns` how each reply was read.
   */
  method CallModelWithTools(c: Codec, registry: ToolRegistry, allowed: set<string>, advertised: set<string>,
                            userMsg: string, w: World, maxRounds: nat := TOOL_LOOP_MAX_ROUNDS)
    returns (content: string, usage: Usage, stats: Stats,
             sent: seq<seq<Message>>, executed: seq<(string, string)>, turns: seq<Turn>)
    ensures |sent| == stats.rounds <= maxRounds
    ensures forall i | 0 <= i < |sent| :: SentAt(w, userMsg, sent[i], i)
    ensures forall i | 0 <= i < |turns| :: w.provider(i).Answer? && ReadsAs(c, w.provider(i).content, turns[i])
    ensures forall i | 0 <= i < |turns| :: turns[i].Final? <==> i == |turns| - 1 && stats.ended == EndedFinal
    ensures match stats.ended
      case EndedFinal => |turns| == stats.rounds > 0 && content == c.dumps(turns[|turns| - 1].result)
      case EndedExhausted => |turns| == stats.rounds == maxRounds
      case EndedError =>
        if |turns| == stats.rounds then turns != [] && turns[|turns| - 1].Tool? && w.toolRun(|turns| - 1) == None
        else |turns| == stats.rounds - 1 && w.provider(|turns|).Raised?
    ensures stats.ended != EndedFinal ==> content == if turns == [] then "" else w.provider(|turns| - 1).content
    ensures forall i | 0 <= i < |sent| :: Answered(registry, allowed, advertised, w, turns, sent[i], i)
    ensures executed == RanFor(registry, allowed, advertised, w, turns, |turns|)
    ensures |executed| == |stats.requests| == stats.toolCalls <= |turns|
    ensures forall k | 0 <= k < |executed| ::
      stats.requests[k].0 == executed[k].1 && Sanctioned(registry, allowed, advertised, executed[k].0, executed[k].1)
    ensures Tallies(w.provider, |turns|, usage)
    ensures EndsAs(c, registry, allowed, advertised, w, maxRounds, content, stats.rounds, stats.ended)
  {
    hide GoesOn, FinalReply, RunsTool, EndsAs, ReadsAs, Sanctioned, SentAt, Tallies, AddUsage, Answered, Reaction;
    hide RanFor;
    var messages := [Message(User, Prompt(userMsg))];
    SentFirst(w, userMsg);
    NothingAnswered(registry, allowed, advertised, w, userMsg);
    TalliesNothing(w.provider);
    content, usage, sent, executed, turns := "", Usage(0, 0, 0, None), [], [], [];
    var toolCalls: nat, requests: seq<(string, Option<string>)> := 0, [];
    for round := 0 to maxRounds
      invariant |sent| == |turns| == round
      invariant SentAt(w, userMsg, messages, round)
      invariant forall i | 0 <= i < round :: SentAt(w, userMsg, sent[i], i)
      invariant Answered(registry, allowed, advertised, w, turns, messages, round)
      invariant forall i | 0 <= i < round :: Answered(registry, allowed, advertised, w, turns, sent[i], i)
      invariant executed == RanFor(registry, allowed, advertised, w, turns, round)
      invariant forall i | 0 <= i < round ::
        w.provider(i).Answer? && ReadsAs(c, w.provider(i).content, turns[i]) && !turns[i].Final?
      invariant content == if round == 0 then "" else w.provider(round - 1).content
      invariant |executed| == |requests| == toolCalls <= round
      invariant forall k | 0 <= k < |executed| ::
        requests[k].0 == executed[k].1 && Sanctioned(registry, allowed, advertised, executed[k].0, executed[k].1)
      invariant Tallies(w.provider, round, usage)
      invariant forall k: nat | k < round :: GoesOn(c, registry, allowed, advertised, w, k)
    {
      sent := sent + [messages];
      var response := w.provider(round);
      if response.Raised? {
        LoopEnds(c, registry, allowed, advertised, w, maxRounds, round, content);
        stats := Stats(round + 1, toolCalls, requests, EndedError);
        return;
      }
      content := response.content;
      TalliesNext(w.provider, round, usage);
      usage := AddUsage(usage, response);
      var turn := ParseToolProtocol(c, content);
      TurnEnds(c, registry, allowed, advertised, w, maxRounds, round, turn);
      forall i | 0 <= i <= round {
        AnsweredStays(registry, allowed, advertised, w, turns, turn, sent[i], i);
      }
      RanForNext(registry, allowed, advertised, w, turns, turn);
      ghost var before := turns;
      turns := turns + [turn];
      if turn.Final? {
        content := c.dumps(turn.result);
        stats := Stats(round + 1, toolCalls, requests, EndedFinal);
        return;
      }
      var answer, ran := AnswerTurn(registry, allowed, advertised, turn, w.toolRun(round));
      if answer == None {
        stats := Stats(round + 1, toolCalls, requests, EndedError);
        return;
      }
      if ran.Some? {
        toolCalls := toolCalls + 1;
        requests := requests + [(ran.value, RequestedPath(turn))];
        executed := executed + [(turn.name, ran.value)];
      }
      TurnGoesOn(c, registry, allowed, advertised, w, round, turn);
      SentNext(w, userMsg, messages, round, answer.value);
      AnsweredNext(registry, allowed, advertised, w, before, turn, messages, round,
                   Message(Assistant, Reply(content)), answer.value);
      messages := messages + [Message(Assistant, Reply(content)), Message(User, answer.value)];
    }
    LoopEnds(c, registry, allowed, advertised, w, maxRounds, maxRounds, content);
    stats := Stats(maxRounds, toolCalls, requests, EndedExhausted);
  }

  lemma NothingAnswered(registry: ToolRegistry, allowed: set<string>, advertised: set<string>, w: World,
                        userMsg: string)
    ensures Answered(registry, allowed, advertised, w, [], [Message(User, Prompt(userMsg))], 0)
    ensures RanFor(registry, allowed, advertised, w, [], 0) == []
  {
  }

  lemma SentFirst(w: World, userMsg: string)
    ensures SentAt(w, userMsg, [Message(User, Prompt(userMsg))], 0)
  {
  }

  /** What parsing and validating a reply gives. */
  datatype Verdict = Accepted | BadJson | BadSchema

  /** One attempt of the blocking role's step: a fresh tool loop with its own provider answers. */
  datatype Attempt = Attempt(prompt: string, content: string, verdict: Verdict, usage: Usage, stats: Stats)

  /** An attempt holds what a loop over these replies ends with, and the sum of their usage. */
  ghost predicate LoopGave(c: Codec, registry: ToolRegistry, allowed: set<string>, advertised: set<string>,
                           maxRounds: nat, w: World, a: Attempt)
    reads registry
  {
    && EndsAs(c, registry, allowed, advertised, w, maxRounds, a.content, a.stats.rounds, a.stats.ended)
    && a.stats.rounds <= maxRounds
    && exists n: nat :: n <= a.stats.rounds <= n + 1 && Tallies(w.provider, n, a.usage)
  }

  method RunAttempt(c: Codec, registry: ToolRegistry, allowed: set<string>, advertised: set<string>,
                    userMsg: string, maxRounds: nat, w: World, validate: string -> Verdict)
    returns (attempt: Attempt)
    ensures attempt.prompt == userMsg && attempt.verdict == validate(attempt.content)
    ensures LoopGave(c, registry, allowed, advertised, maxRounds, w, attempt)
  {
    hide EndsAs, Tallies;
    var content, usage, stats, _, _, _ := CallModelWithTools(c, registry, allowed, advertised, userMsg, w, maxRounds);
    return Attempt(userMsg, content, validate(content), usage, stats);
  }

  predicate Retries(a: Attempt) {
    a.verdict == BadJson && a.usage.finishReason != Some("length")
  }

  /**
   * The retry core around the loop: at most three attempts, another one only after a syntactic failure
   * that was not a truncation, and the last attempt decides.
   */
  method ParseRetry(c: Codec, registry: ToolRegistry, allowed: set<string>, advertised: set<string>,
                    userMsg: string, feedback: nat -> string, maxRounds: nat, worlds: nat -> World,
                    validate: string -> Verdict)
    returns (attempts: seq<Attempt>, accepted: bool, providerCalls: nat)
    ensures 1 <= |attempts| <= 1 + JSON_RETRY_MAX
    ensures forall k | 0 <= k < |attempts| :: attempts[k].verdict == validate(attempts[k].content)
    ensures forall k | 0 <= k < |attempts| ::
      && attempts[k].prompt == (if k == 0 then userMsg else userMsg + feedback(k - 1))
      && LoopGave(c, registry, allowed, advertised, maxRounds, worlds(k), attempts[k])
    ensures forall k | 0 <= k < |attempts| - 1 :: Retries(attempts[k])
    ensures |attempts| < 1 + JSON_RETRY_MAX ==> !Retries(attempts[|attempts| - 1])
    ensures accepted <==> attempts[|attempts| - 1].verdict == Accepted
    ensures providerCalls == SumRounds(attempts) <= (1 + JSON_RETRY_MAX) * maxRounds
  {
    hide SumRounds, EndsAs, Tallies;
    attempts, providerCalls := [], 0;
    NoRounds(maxRounds);
    for n := 0 to 1 + JSON_RETRY_MAX
      invariant |attempts| == n
      invariant forall k | 0 <= k < n :: Retries(attempts[k]) && attempts[k].verdict == validate(attempts[k].content)
      invariant forall k | 0 <= k < n ::
        && attempts[k].prompt == (if k == 0 then userMsg else userMsg + feedback(k - 1))
        && LoopGave(c, registry, allowed, advertised, maxRounds, worlds(k), attempts[k])
      invariant providerCalls == SumRounds(attempts) <= n * maxRounds
    {
      var text := if n == 0 then userMsg else userMsg + feedback(n - 1);
      var attempt := RunAttempt(c, registry, allowed, advertised, text, maxRounds, worlds(n), validate);
      RoundsAdd(attempts, attempt, n, maxRounds);
      attempts := attempts + [attempt];
      providerCalls := providerCalls + attempt.stats.rounds;
      if attempt.verdict == Accepted {
        return attempts, true, providerCalls;
      }
      if attempt.verdict != BadJson || attempt.usage.finishReason == Some("length") || n >= JSON_RETRY_MAX {
        return attempts, false, providerCalls;
      }
    }
    accepted := false;
  }

  function SumRounds(attempts: seq<Attempt>): nat {
    if attempts == [] then 0
    else SumRounds(attempts[..|attempts| - 1]) + attempts[|attempts| - 1].stats.rounds
  }

  lemma NoRounds(maxRounds: nat)
    ensures SumRounds([]) == 0 <= 0 * maxRounds
  {
  }

  lemma RoundsAdd(attempts: seq<Attempt>, attempt: Attempt, n: nat, maxRounds: nat)
    requires SumRounds(attempts) <= n * maxRounds && attempt.stats.rounds <= maxRounds
    ensures SumRounds(attempts + [attempt]) == SumRounds(attempts) + attempt.stats.rounds <= (n + 1) * maxRounds
    ensures n < 1 + JSON_RETRY_MAX ==> (n + 1) * maxRounds <= (1 + JSON_RETRY_MAX) * maxRounds
  {
    assert (attempts + [attempt])[..|attempts|] == attempts;
    assert (n + 1) * maxRounds == n * maxRounds + maxRounds;
    if n < 1 + JSON_RETRY_MAX {
      assert n == 0 || n == 1 || n == 2;
    }
  }
}
