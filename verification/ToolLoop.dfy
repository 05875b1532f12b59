/**
  The turn and tool-call loop of modules/agent/runtime.go, the wait for an approval, and the message
  history of modules/agent/session.go. What the model, the policy, the polls and the tools answer
  is given by an environment, by turn and by position of the call within the turn.
 */
module ToolLoop {
  import opened Common
  import Approval

  // ---- Waiting for an approval ----

  /** What the select of the waiting loop picks next: the five minutes are over, or a poll, whose
      answer may be missing (an error, a time-out, no text). */
  datatype Tick = Deadline | Poll(reply: Option<string>)

  predicate IsVerdict(reply: Option<string>) {
    reply.Some? && (reply.value == "approved" || reply.value == "denied" || reply.value == "expired")
  }

  predicate Decides(tick: Tick) {
    tick.Deadline? || IsVerdict(tick.reply)
  }

  function WaitResult(ticks: seq<Tick>): string
    requires Deadline in ticks
  {
    if ticks[0].Deadline? then "timeout"
    else if IsVerdict(ticks[0].reply) then ticks[0].reply.value
    else WaitResult(ticks[1..])
  }

  method WaitForApproval(ticks: seq<Tick>) returns (status: string)
    requires Deadline in ticks
    ensures status == WaitResult(ticks)
  {
    var i := 0;
    while true
      invariant i <= |ticks| && Deadline in ticks[i..] && WaitResult(ticks) == WaitResult(ticks[i..])
      decreases |ticks| - i
    {
      assert ticks[i..][0] == ticks[i] && ticks[i..][1..] == ticks[i + 1..];
      if ticks[i].Deadline? {
        return "timeout";
      }
      if IsVerdict(ticks[i].reply) {
        return ticks[i].reply.value;
      }
      i := i + 1;
    }
  }

  /** The first tick that decides gives the result. */
  lemma {:induction false} FirstDecides(ticks: seq<Tick>, i: nat)
    requires Deadline in ticks && i < |ticks| && Decides(ticks[i]) && forall j :: 0 <= j < i ==> !Decides(ticks[j])
    ensures WaitResult(ticks) == if ticks[i].Deadline? then "timeout" else ticks[i].reply.value
    decreases |ticks|
  {
    if i > 0 {
      assert !Decides(ticks[0]);
      assert Deadline in ticks[1..];
      FirstDecides(ticks[1..], i - 1);
    }
  }

  lemma {:induction false} SomeTickDecides(ticks: seq<Tick>) returns (i: nat)
    requires Deadline in ticks
    ensures i < |ticks| && Decides(ticks[i]) && forall j :: 0 <= j < i ==> !Decides(ticks[j])
    decreases |ticks|
  {
    if Decides(ticks[0]) {
      i := 0;
    } else {
      assert Deadline in ticks[1..];
      var k := SomeTickDecides(ticks[1..]);
      i := k + 1;
      assert forall j :: 1 <= j < i ==> ticks[j] == ticks[1..][j - 1];
    }
  }

  /** The polls that were answered read the status of request `id` from states of one run. */
  ghost predicate PolledFrom(ticks: seq<Tick>, states: seq<Approval.State>, id: string) {
    && |states| == |ticks|
    && (forall i :: 0 <= i < |ticks| && ticks[i].Poll? && ticks[i].reply.Some? ==> AnsweredBy(ticks[i], states[i], id))
    && (forall i, j :: 0 <= i < j < |states| ==> LeadsTo(states[i], states[j]))
  }

  ghost predicate AnsweredBy(tick: Tick, s: Approval.State, id: string) {
    tick.Poll? && Approval.Reachable(s) && id in s.deadline && tick.reply == Approval.StatusReply(s.requests, id)
  }

  ghost predicate LeadsTo(s: Approval.State, t: Approval.State) {
    exists actions :: Approval.IsRun(s, actions, t)
  }

  /** A verdict that a poll reads is the way in which the request ended. */
  lemma VerdictIsEnd(tick: Tick, s: Approval.State, id: string)
    requires AnsweredBy(tick, s, id) && IsVerdict(tick.reply)
    ensures id in s.ends && tick.reply == Some(Approval.StatusName(s.ends[id].status))
    ensures tick.reply == Some("approved") <==> s.ends[id].status == Approval.Approved
  {
    Approval.LeavesPendingOnce(s, id);
    assert Approval.StatusName(Approval.Pending) == "pending";
    assert "pending"[0] == 'p' && "approved"[0] == 'a' && "denied"[0] == 'd' && "expired"[0] == 'e';
    if id in s.ends {
      Approval.DecisionIsReadable(s, id);
    }
  }

  ghost predicate ApprovedInTime(s: Approval.State, id: string) {
    && id in s.ends && id in s.deadline
    && s.ends[id].status == Approval.Approved && s.ends[id].checkedAt <= s.deadline[id]
  }

  /** The wait ends in "approved" only when the request was approved, no later than its deadline. */
  lemma WaitApprovedMeansApproved(ticks: seq<Tick>, states: seq<Approval.State>, id: string)
    requires Deadline in ticks && PolledFrom(ticks, states, id) && WaitResult(ticks) == "approved"
    ensures exists i :: 0 <= i < |states| && ApprovedInTime(states[i], id)
  {
    var i := SomeTickDecides(ticks);
    FirstDecides(ticks, i);
    assert "timeout"[0] == 't' && "approved"[0] == 'a';
    assert AnsweredBy(ticks[i], states[i], id);
    VerdictIsEnd(ticks[i], states[i], id);
    Approval.ApprovedInTime(states[i], id);
  }

  /** A decision cannot be lost: once the request has ended, the first answered poll within the
      waiting time returns how it ended. */
  lemma DecisionReachesWaiter(ticks: seq<Tick>, states: seq<Approval.State>, id: string, p: nat)
    requires Deadline in ticks && PolledFrom(ticks, states, id)
    requires p < |ticks| && (forall j :: 0 <= j <= p ==> ticks[j].Poll?) && ticks[p].reply.Some?
    requires id in states[p].ends && states[p].retain == Approval.RETAIN
    requires states[p].clock <= states[p].deadline[id] - states[p].ttl + Approval.WAIT
    ensures WaitResult(ticks) == Approval.StatusName(states[p].ends[id].status)
  {
    var s := states[p];
    assert AnsweredBy(ticks[p], s, id);
    Approval.PollSeesDecision(s, id);
    Approval.ApprovedInTime(s, id);
    assert Decides(ticks[p]);
    var i := SomeTickDecides(ticks);
    FirstDecides(ticks, i);
    assert AnsweredBy(ticks[i], states[i], id);
    VerdictIsEnd(ticks[i], states[i], id);
    if i < p {
      assert LeadsTo(states[i], s);
      var actions :| Approval.IsRun(states[i], actions, s);
      Approval.ReachableIsInv(states[i]);
      Approval.DecisionIsFinal(states[i], actions, s, id);
    }
  }

  // ---- The environment of a chat ----

  datatype ToolCall = ToolCall(id: string, name: string)

  datatype Response = Response(content: string, calls: seq<ToolCall>)

  datatype ToolOutcome = ToolOutcome(content: string, failed: bool)

  datatype Message = User(content: string) | System(content: string) | Assistant(response: Response) | ToolResult(callId: string, content: string, isError: bool)

  /** `chat` has no value where the model call fails. */
  datatype Env = Env(
    chat: nat -> Option<Response>, policy: (nat, nat) -> string, polls: (nat, nat) -> seq<Tick>,
    hasRegistry: bool, execute: (nat, nat) -> ToolOutcome, sanitize: string -> string)

  /** Every wait is over after five minutes. */
  ghost predicate WaitsEnd(env: Env) {
    forall t: nat, k: nat :: Deadline in env.polls(t, k)
  }

  // ---- What one call does ----

  /** The tool may run: not denied, and approved if an approval is required. */
  ghost predicate MayRun(env: Env, t: nat, k: nat)
    requires WaitsEnd(env)
  {
    env.policy(t, k) != "deny" && (env.policy(t, k) == "require_approval" ==> WaitResult(env.polls(t, k)) == "approved")
  }

  function Upper(s: string): string {
    if s == [] then [] else [if 'a' <= s[0] <= 'z' then s[0] - 'a' + 'A' else s[0]] + Upper(s[1..])
  }

  ghost function ResultOf(env: Env, t: nat, k: nat, call: ToolCall): Message
    requires WaitsEnd(env)
  {
    if env.policy(t, k) == "deny" then ToolResult(call.id, "DENIED: Policy does not allow " + call.name, true)
    else if !MayRun(env, t, k) then ToolResult(call.id, "APPROVAL " + Upper(WaitResult(env.polls(t, k))) + ": " + call.name, true)
    else if !env.hasRegistry then ToolResult(call.id, "tool registry not available", true)
    else ToolResult(call.id, env.execute(t, k).content, env.execute(t, k).failed)
  }

  ghost function UsedName(env: Env, t: nat, k: nat, call: ToolCall): string
    requires WaitsEnd(env)
  {
    if env.policy(t, k) == "deny" then call.name + "(denied)"
    else if !MayRun(env, t, k) then call.name + "(" + WaitResult(env.polls(t, k)) + ")"
    else call.name
  }

  /** The results, reported names and executions of the first `n` calls of turn `t`. */
  ghost function Results(env: Env, t: nat, calls: seq<ToolCall>, n: nat): seq<Message>
    requires WaitsEnd(env) && n <= |calls|
  {
    if n == 0 then [] else Results(env, t, calls, n - 1) + [ResultOf(env, t, n - 1, calls[n - 1])]
  }

  ghost function UsedIn(env: Env, t: nat, calls: seq<ToolCall>, n: nat): seq<string>
    requires WaitsEnd(env) && n <= |calls|
  {
    if n == 0 then [] else UsedIn(env, t, calls, n - 1) + [UsedName(env, t, n - 1, calls[n - 1])]
  }

  ghost function ExecutedIn(env: Env, t: nat, n: nat): seq<(nat, nat)>
    requires WaitsEnd(env)
  {
    if n == 0 then []
    else ExecutedIn(env, t, n - 1) + if env.hasRegistry && MayRun(env, t, n - 1) then [(t, n - 1)] else []
  }

  // ---- What whole turns do ----

  const WRAP_UP: string := "IMPORTANT: You have 2 tool-use turns remaining. Please wrap up your response and provide a final answer."

  ghost function WrapUp(maxTurns: int, t: nat): seq<Message> {
    if maxTurns > 3 && t == maxTurns - 2 then [System(WRAP_UP)] else []
  }

  ghost function TurnLog(env: Env, maxTurns: int, t: nat): seq<Message>
    requires WaitsEnd(env)
  {
    WrapUp(maxTurns, t)
    + match env.chat(t)
      case None => []
      case Some(r) => [Assistant(r)] + Results(env, t, r.calls, |r.calls|)
  }

  ghost function Log(env: Env, maxTurns: int, n: nat): seq<Message>
    requires WaitsEnd(env)
  {
    if n == 0 then [] else Log(env, maxTurns, n - 1) + TurnLog(env, maxTurns, n - 1)
  }

  ghost function CallsOf(env: Env, t: nat): seq<ToolCall> {
    if env.chat(t).Some? then env.chat(t).value.calls else []
  }

  ghost function Used(env: Env, n: nat): seq<string>
    requires WaitsEnd(env)
  {
    if n == 0 then [] else Used(env, n - 1) + UsedIn(env, n - 1, CallsOf(env, n - 1), |CallsOf(env, n - 1)|)
  }

  ghost function Executed(env: Env, n: nat): seq<(nat, nat)>
    requires WaitsEnd(env)
  {
    if n == 0 then [] else Executed(env, n - 1) + ExecutedIn(env, n - 1, |CallsOf(env, n - 1)|)
  }

  ghost function CallCount(env: Env, n: nat): nat {
    if n == 0 then 0 else CallCount(env, n - 1) + |CallsOf(env, n - 1)|
  }

  /** The turn asks for tools, so another turn follows. */
  ghost predicate Continues(env: Env, t: nat) {
    env.chat(t).Some? && env.chat(t).value.calls != []
  }

  ghost predicate AllContinue(env: Env, n: nat) {
    forall t: nat :: t < n ==> Continues(env, t)
  }

  datatype ChatResult = Reply(content: string, toolsUsed: seq<string>, turns: nat, toolCalls: nat) | ModelFailed | MaxTurnsExceeded

  /** The chat ends after `n` turns: all turns but the last asked for tools, and the last one did
      not unless there are no more. */
  ghost predicate EndsAfter(env: Env, maxTurns: int, n: nat) {
    && n <= Max(maxTurns, 0) && AllContinue(env, Max(n - 1, 0))
    && (n < maxTurns ==> n > 0 && !Continues(env, n - 1))
  }

  /** The result of a chat that ends after `n` turns. */
  ghost function ResultAfter(env: Env, n: nat): ChatResult
    requires WaitsEnd(env)
  {
    if n == 0 || Continues(env, n - 1) then MaxTurnsExceeded
    else if env.chat(n - 1).None? then ModelFailed
    else Reply(env.sanitize(env.chat(n - 1).value.content), Used(env, n), n, CallCount(env, n))
  }

  // ---- The loop ----

  function Kept(log: seq<Message>, maxHistory: int): seq<Message> {
    if maxHistory > 0 && |log| > maxHistory then log[|log| - maxHistory..] else log
  }

  class Session {
    const maxHistory: int
    var history: seq<Message>
    /** All messages that were ever added. */
    ghost var log: seq<Message>

    ghost predicate Valid()
      reads this
    {
      history == Kept(log, maxHistory)
    }

    constructor (maxHistory: int)
      ensures Valid() && log == [] && this.maxHistory == maxHistory
    {
      this.maxHistory := maxHistory;
      history, log := [], [];
    }

    method AddMessage(msg: Message)
      requires Valid()
      modifies this
      ensures Valid() && log == old(log) + [msg]
      ensures maxHistory > 0 ==> |history| <= maxHistory
    {
      history := history + [msg];
      if maxHistory > 0 && |history| > maxHistory {
        history := history[|history| - maxHistory..];
      }
      log := log + [msg];
    }
  }

  /** The registry, which records what it executes. */
  class Registry {
    var executed: seq<(nat, nat)>

    constructor ()
      ensures executed == []
    {
      executed := [];
    }

    method Execute(env: Env, t: nat, k: nat) returns (o: ToolOutcome)
      modifies this
      ensures o == env.execute(t, k) && executed == old(executed) + [(t, k)]
    {
      executed := executed + [(t, k)];
      o := env.execute(t, k);
    }
  }

  /** One pass of the tool-call loop. */
  method RunCall(session: Session, registry: Registry, env: Env, t: nat, k: nat, call: ToolCall) returns (used: string)
    requires session.Valid() && WaitsEnd(env)
    modifies session, registry
    ensures session.Valid() && session.log == old(session.log) + [ResultOf(env, t, k, call)]
    ensures var m := session.log[|session.log| - 1];
      && m.ToolResult? && m.callId == call.id
      && if registry.executed == old(registry.executed) then m.isError
         else m.content == env.execute(t, k).content && m.isError == env.execute(t, k).failed
    ensures used == UsedName(env, t, k, call)
    ensures registry.executed == old(registry.executed) + if env.hasRegistry && MayRun(env, t, k) then [(t, k)] else []
  {
    var decision := env.policy(t, k);
    if decision == "deny" {
      session.AddMessage(ToolResult(call.id, "DENIED: Policy does not allow " + call.name, true));
      return call.name + "(denied)";
    }
    if decision == "require_approval" {
      var status := WaitForApproval(env.polls(t, k));
      if status != "approved" {
        session.AddMessage(ToolResult(call.id, "APPROVAL " + Upper(status) + ": " + call.name, true));
        return call.name + "(" + status + ")";
      }
    }
    var result := ToolOutcome("tool registry not available", true);
    if env.hasRegistry {
      result := registry.Execute(env, t, k);
    }
    session.AddMessage(ToolResult(call.id, result.content, result.failed));
    return call.name;
  }

  method RunCalls(session: Session, registry: Registry, env: Env, t: nat, calls: seq<ToolCall>) returns (used: seq<string>)
    requires session.Valid() && WaitsEnd(env)
    modifies session, registry
    ensures session.Valid() && session.log == old(session.log) + Results(env, t, calls, |calls|)
    ensures used == UsedIn(env, t, calls, |calls|)
    ensures registry.executed == old(registry.executed) + ExecutedIn(env, t, |calls|)
  {
    used := [];
    for k := 0 to |calls|
      invariant session.Valid() && session.log == old(session.log) + Results(env, t, calls, k)
      invariant used == UsedIn(env, t, calls, k)
      invariant registry.executed == old(registry.executed) + ExecutedIn(env, t, k)
    {
      var name := RunCall(session, registry, env, t, k, calls[k]);
      used := used + [name];
    }
  }

  /** After `n` turns that all asked for tools. */
  ghost predicate Progress(env: Env, maxTurns: int, n: nat, start: seq<Message>, log: seq<Message>,
                           executed0: seq<(nat, nat)>, executed: seq<(nat, nat)>, used: seq<string>, count: nat)
    requires WaitsEnd(env)
  {
    && AllContinue(env, n) && log == start + Log(env, maxTurns, n) && executed == executed0 + Executed(env, n)
    && used == Used(env, n) && count == CallCount(env, n)
  }

  /** What turn `n` did: the model's answer, the tools reported, the log and the executions. */
  ghost predicate TurnRan(env: Env, maxTurns: int, n: nat, response: Option<Response>, used: seq<string>,
                          before: seq<Message>, log: seq<Message>, executedBefore: seq<(nat, nat)>, executed: seq<(nat, nat)>)
    requires WaitsEnd(env)
  {
    && response == env.chat(n) && used == UsedIn(env, n, CallsOf(env, n), |CallsOf(env, n)|)
    && log == before + TurnLog(env, maxTurns, n) && executed == executedBefore + ExecutedIn(env, n, |CallsOf(env, n)|)
  }

  lemma TurnMakesProgress(env: Env, maxTurns: int, n: nat, start: seq<Message>, before: seq<Message>, log: seq<Message>,
                          executed0: seq<(nat, nat)>, executedBefore: seq<(nat, nat)>, executed: seq<(nat, nat)>,
                          used: seq<string>, count: nat, response: Option<Response>, more: seq<string>)
    requires WaitsEnd(env) && Progress(env, maxTurns, n, start, before, executed0, executedBefore, used, count)
    requires TurnRan(env, maxTurns, n, response, more, before, log, executedBefore, executed)
    requires response.Some? && response.value.calls != []
    ensures Progress(env, maxTurns, n + 1, start, log, executed0, executed, used + more, count + |response.value.calls|)
  {
    LogGrows(env, maxTurns, n, start);
    ListsGrow(env, n, executed0);
  }

  lemma LogGrows(env: Env, maxTurns: int, n: nat, start: seq<Message>)
    requires WaitsEnd(env)
    ensures start + Log(env, maxTurns, n + 1) == start + Log(env, maxTurns, n) + TurnLog(env, maxTurns, n)
  {
  }

  lemma ListsGrow(env: Env, n: nat, executed0: seq<(nat, nat)>)
    requires WaitsEnd(env)
    ensures var calls := CallsOf(env, n);
      && executed0 + Executed(env, n + 1) == executed0 + Executed(env, n) + ExecutedIn(env, n, |calls|)
      && Used(env, n + 1) == Used(env, n) + UsedIn(env, n, calls, |calls|)
      && CallCount(env, n + 1) == CallCount(env, n) + |calls|
  {
  }

  /** One turn: the reminder, the model, and the tools that it asks for. */
  method RunTurn(session: Session, registry: Registry, env: Env, maxTurns: int, turn: nat)
    returns (response: Option<Response>, used: seq<string>)
    requires session.Valid() && WaitsEnd(env)
    modifies session, registry
    ensures session.Valid()
    ensures TurnRan(env, maxTurns, turn, response, used, old(session.log), session.log, old(registry.executed), registry.executed)
  {
    if maxTurns > 3 && turn == maxTurns - 2 {
      session.AddMessage(System(WRAP_UP));
    }
    assert session.log == old(session.log) + WrapUp(maxTurns, turn);
    response := env.chat(turn);
    if response.None? {
      return response, [];
    }
    session.AddMessage(Assistant(response.value));
    used := RunCalls(session, registry, env, turn, response.value.calls);
  }

  /** The chat that started with `start` and `executed0` ends after `n` turns, with this result, log and executions. */
  ghost predicate Ended(env: Env, maxTurns: int, n: nat, start: seq<Message>, executed0: seq<(nat, nat)>,
                        result: ChatResult, log: seq<Message>, executed: seq<(nat, nat)>)
    requires WaitsEnd(env)
  {
    && EndsAfter(env, maxTurns, n)
    && result == ResultAfter(env, n) && log == start + Log(env, maxTurns, n) && executed == executed0 + Executed(env, n)
  }

  /** What a last turn returns. */
  function Concluded(env: Env, response: Option<Response>, used: seq<string>, turns: nat, count: nat): ChatResult {
    if response.None? then ModelFailed else Reply(env.sanitize(response.value.content), used, turns, count)
  }

  lemma LastTurn(env: Env, maxTurns: int, n: nat, start: seq<Message>, before: seq<Message>, log: seq<Message>,
                 executed0: seq<(nat, nat)>, executedBefore: seq<(nat, nat)>, executed: seq<(nat, nat)>,
                 used: seq<string>, count: nat, response: Option<Response>, more: seq<string>)
    requires WaitsEnd(env) && Progress(env, maxTurns, n, start, before, executed0, executedBefore, used, count)
    requires TurnRan(env, maxTurns, n, response, more, before, log, executedBefore, executed)
    requires n < maxTurns && (response.None? || response.value.calls == [])
    ensures Ended(env, maxTurns, n + 1, start, executed0, Concluded(env, response, used, n + 1, count), log, executed)
  {
    LogGrows(env, maxTurns, n, start);
    ListsGrow(env, n, executed0);
    LastResult(env, n);
  }

  lemma LastResult(env: Env, n: nat)
    requires WaitsEnd(env) && !Continues(env, n)
    ensures CallsOf(env, n) == [] && Concluded(env, env.chat(n), Used(env, n), n + 1, CallCount(env, n)) == ResultAfter(env, n + 1)
  {
    assert Used(env, n + 1) == Used(env, n) && CallCount(env, n + 1) == CallCount(env, n);
  }

  lemma NoTurnYet(env: Env, maxTurns: int, start: seq<Message>, executed0: seq<(nat, nat)>)
    requires WaitsEnd(env)
    ensures Progress(env, maxTurns, 0, start, start, executed0, executed0, [], 0)
  {
  }

  lemma OutOfTurns(env: Env, maxTurns: int, n: nat, start: seq<Message>, log: seq<Message>,
                   executed0: seq<(nat, nat)>, executed: seq<(nat, nat)>, used: seq<string>, count: nat)
    requires WaitsEnd(env) && Progress(env, maxTurns, n, start, log, executed0, executed, used, count) && n == Max(maxTurns, 0)
    ensures Ended(env, maxTurns, n, start, executed0, MaxTurnsExceeded, log, executed)
  {
  }

  /** A chat: the user's message is added, and the loop runs. */
  method HandleChat(session: Session, registry: Registry, env: Env, maxTurns: int, message: string) returns (r: ChatResult, ghost n: nat)
    requires session.Valid() && WaitsEnd(env)
    modifies session, registry
    ensures session.Valid()
    ensures Ended(env, maxTurns, n, old(session.log) + [User(message)], old(registry.executed), r, session.log, registry.executed)
  {
    session.AddMessage(User(message));
    r, n := RunTurns(session, registry, env, maxTurns);
  }

  /** The body of the loop: one turn, and the chat's result if it is the last. */
  method Advance(session: Session, registry: Registry, env: Env, maxTurns: int, turn: nat, toolsUsed: seq<string>, toolCallCount: nat,
                 ghost start: seq<Message>, ghost executed0: seq<(nat, nat)>)
    returns (stop: Option<ChatResult>, used: seq<string>, calls: nat)
    requires session.Valid() && WaitsEnd(env) && turn < maxTurns
    requires Progress(env, maxTurns, turn, start, session.log, executed0, registry.executed, toolsUsed, toolCallCount)
    modifies session, registry
    ensures session.Valid()
    ensures stop.Some? ==> Ended(env, maxTurns, turn + 1, start, executed0, stop.value, session.log, registry.executed)
    ensures stop.None? ==> Progress(env, maxTurns, turn + 1, start, session.log, executed0, registry.executed, toolsUsed + used, toolCallCount + calls)
  {
    ghost var before, executedBefore := session.log, registry.executed;
    var response;
    response, used := RunTurn(session, registry, env, maxTurns, turn);
    if response.None? || response.value.calls == [] {
      LastTurn(env, maxTurns, turn, start, before, session.log, executed0, executedBefore, registry.executed,
               toolsUsed, toolCallCount, response, used);
      return Some(Concluded(env, response, toolsUsed, turn + 1, toolCallCount)), used, 0;
    }
    TurnMakesProgress(env, maxTurns, turn, start, before, session.log, executed0, executedBefore, registry.executed,
                      toolsUsed, toolCallCount, response, used);
    return None, used, |response.value.calls|;
  }

  /** The agentic loop: `n` counts the turns that were begun. */
  method RunTurns(session: Session, registry: Registry, env: Env, maxTurns: int) returns (r: ChatResult, ghost n: nat)
    requires session.Valid() && WaitsEnd(env)
    modifies session, registry
    ensures session.Valid()
    ensures Ended(env, maxTurns, n, old(session.log), old(registry.executed), r, session.log, registry.executed)
  {
    var toolsUsed: seq<string> := [];
    var toolCallCount: nat := 0;
    var turn := 0;
    NoTurnYet(env, maxTurns, session.log, registry.executed);
    while turn < maxTurns
      invariant 0 <= turn <= Max(maxTurns, 0) && session.Valid()
      invariant Progress(env, maxTurns, turn, old(session.log), session.log, old(registry.executed), registry.executed, toolsUsed, toolCallCount)
    {
      var stop, used, calls := Advance(session, registry, env, maxTurns, turn, toolsUsed, toolCallCount, old(session.log), old(registry.executed));
      if stop.Some? {
        return stop.value, turn + 1;
      }
      toolCallCount := toolCallCount + calls;
      toolsUsed := toolsUsed + used;
      turn := turn + 1;
    }
    OutOfTurns(env, maxTurns, turn, old(session.log), session.log, old(registry.executed), registry.executed, toolsUsed, toolCallCount);
    return MaxTurnsExceeded, turn;
  }

  // ---- Every call is answered once, in order ----

  /** Reads a log from the left with the calls that still wait for an answer; none if a message
      comes out of turn. */
  function Outstanding(log: seq<Message>, waiting: seq<string>): Option<seq<string>> {
    if log == [] then Some(waiting)
    else
      match log[0]
      case Assistant(r) => if waiting == [] then Outstanding(log[1..], Ids(r.calls)) else None
      case ToolResult(id, _, _) => if waiting != [] && waiting[0] == id then Outstanding(log[1..], waiting[1..]) else None
      case _ => if waiting == [] then Outstanding(log[1..], []) else None
  }

  function Ids(calls: seq<ToolCall>): (ids: seq<string>)
    ensures |ids| == |calls| && forall i :: 0 <= i < |calls| ==> ids[i] == calls[i].id
  {
    seq(|calls|, i requires 0 <= i < |calls| => calls[i].id)
  }

  lemma {:induction false} OutstandingOfJoin(a: seq<Message>, b: seq<Message>, waiting: seq<string>)
    ensures Outstanding(a + b, waiting) ==
      match Outstanding(a, waiting)
      case None => None
      case Some(w) => Outstanding(b, w)
    decreases |a|
  {
    if a == [] {
      assert a + b == b;
    } else {
      assert (a + b)[0] == a[0] && (a + b)[1..] == a[1..] + b;
      match a[0]
      case Assistant(r) => OutstandingOfJoin(a[1..], b, Ids(r.calls));
      case ToolResult(_, _, _) =>
        if waiting != [] {
          OutstandingOfJoin(a[1..], b, waiting[1..]);
        }
      case _ => OutstandingOfJoin(a[1..], b, []);
    }
  }

  lemma {:induction false} ResultsAnswer(env: Env, t: nat, calls: seq<ToolCall>, n: nat)
    requires WaitsEnd(env) && n <= |calls|
    ensures Outstanding(Results(env, t, calls, n), Ids(calls)) == Some(Ids(calls)[n..])
  {
    if n > 0 {
      ResultsAnswer(env, t, calls, n - 1);
      var last := ResultOf(env, t, n - 1, calls[n - 1]);
      OutstandingOfJoin(Results(env, t, calls, n - 1), [last], Ids(calls));
      var waiting := Ids(calls)[n - 1..];
      assert waiting[0] == calls[n - 1].id && waiting[1..] == Ids(calls)[n..];
      assert [last][1..] == [] && Outstanding([last], waiting) == Outstanding([], waiting[1..]);
    }
  }

  lemma TurnAnswers(env: Env, maxTurns: int, t: nat)
    requires WaitsEnd(env)
    ensures Outstanding(TurnLog(env, maxTurns, t), []) == Some([])
  {
    var w := WrapUp(maxTurns, t);
    assert Outstanding(w, []) == Some([]);
    if env.chat(t).Some? {
      var r := env.chat(t).value;
      var results := Results(env, t, r.calls, |r.calls|);
      OutstandingOfJoin(w, [Assistant(r)] + results, []);
      assert ([Assistant(r)] + results)[1..] == results;
      ResultsAnswer(env, t, r.calls, |r.calls|);
      assert Ids(r.calls)[|r.calls|..] == [];
    } else {
      assert TurnLog(env, maxTurns, t) == w;
    }
  }

  /** In the log of any number of turns, every call of every response is answered by exactly one
      result with its id, in order, before anything else is said. */
  lemma {:induction false} CallsAreAnswered(env: Env, maxTurns: int, n: nat)
    requires WaitsEnd(env)
    ensures Outstanding(Log(env, maxTurns, n), []) == Some([])
  {
    if n > 0 {
      CallsAreAnswered(env, maxTurns, n - 1);
      TurnAnswers(env, maxTurns, n - 1);
      OutstandingOfJoin(Log(env, maxTurns, n - 1), TurnLog(env, maxTurns, n - 1), []);
    }
  }

  /** The history that is sent to the model is a suffix of the log. It answers its calls exactly
      when the cut does not fall between a response and the last of its results: otherwise it
      starts with results whose call is gone. */
  lemma HistoryIsAnsweredExactly(log: seq<Message>, maxHistory: int)
    requires Outstanding(log, []) == Some([])
    ensures var m := |log| - |Kept(log, maxHistory)|;
      Outstanding(Kept(log, maxHistory), []) == Some([]) <==> Outstanding(log[..m], []) == Some([])
  {
    var m := |log| - |Kept(log, maxHistory)|;
    assert log == log[..m] + Kept(log, maxHistory);
    OutstandingOfJoin(log[..m], Kept(log, maxHistory), []);
    var w := Outstanding(log[..m], []).value;
    if w != [] && Kept(log, maxHistory) != [] {
      assert Kept(log, maxHistory)[0].ToolResult?;
    }
  }

  /** A limit of one message cuts between a call and its result. */
  lemma CutLeavesOrphan()
    ensures var log := [Assistant(Response("", [ToolCall("c", "t")])), ToolResult("c", "", false)];
      Outstanding(log, []) == Some([]) && Kept(log, 1) == [ToolResult("c", "", false)] && Outstanding(Kept(log, 1), []).None?
  {
    var calls, result := [ToolCall("c", "t")], ToolResult("c", "", false);
    var log := [Assistant(Response("", calls)), result];
    assert log[1..] == [result] && [result][1..] == [] && Ids(calls) == ["c"] && ["c"][1..] == [];
    assert Outstanding([result], ["c"]) == Outstanding([], []);
  }

  // ---- Only what may run is executed, and once ----

  ghost predicate InOrder(s: seq<(nat, nat)>) {
    forall i, j :: 0 <= i < j < |s| ==> s[i].0 < s[j].0 || (s[i].0 == s[j].0 && s[i].1 < s[j].1)
  }

  lemma {:induction false} ExecutedInTurn(env: Env, t: nat, n: nat)
    requires WaitsEnd(env)
    ensures forall x :: x in ExecutedIn(env, t, n) <==> x.0 == t && x.1 < n && env.hasRegistry && MayRun(env, t, x.1)
    ensures InOrder(ExecutedIn(env, t, n))
  {
    if n > 0 {
      ExecutedInTurn(env, t, n - 1);
    }
  }

  /** The tools that were executed are exactly the calls that may run, each once and in order: a
      denied call never runs, and one that needs an approval runs only after "approved". */
  lemma {:induction false} ExecutedExactly(env: Env, n: nat)
    requires WaitsEnd(env)
    ensures forall x :: x in Executed(env, n) <==> x.0 < n && x.1 < |CallsOf(env, x.0)| && env.hasRegistry && MayRun(env, x.0, x.1)
    ensures InOrder(Executed(env, n))
  {
    if n > 0 {
      ExecutedExactly(env, n - 1);
      ExecutedInTurn(env, n - 1, |CallsOf(env, n - 1)|);
      var a, b := Executed(env, n - 1), ExecutedIn(env, n - 1, |CallsOf(env, n - 1)|);
      assert forall x :: x in Executed(env, n) <==> x in a || x in b;
      forall i, j | 0 <= i < j < |a + b|
        ensures (a + b)[i].0 < (a + b)[j].0 || ((a + b)[i].0 == (a + b)[j].0 && (a + b)[i].1 < (a + b)[j].1)
      {
        if i < |a| <= j {
          assert (a + b)[i] in a && (a + b)[j] in b;
        }
      }
    }
  }

  /** A tool that needs an approval is executed only if its request was approved in time. */
  lemma ExecutedWasApproved(env: Env, n: nat, t: nat, k: nat, states: seq<Approval.State>, id: string)
    requires WaitsEnd(env) && (t, k) in Executed(env, n) && env.policy(t, k) == "require_approval"
    requires PolledFrom(env.polls(t, k), states, id)
    ensures exists i :: 0 <= i < |states| && ApprovedInTime(states[i], id)
  {
    ExecutedExactly(env, n);
    assert MayRun(env, (t, k).0, (t, k).1);
    WaitApprovedMeansApproved(env.polls(t, k), states, id);
  }

  // ---- The reminder ----

  ghost function Reminders(log: seq<Message>): nat {
    |set i: nat | i < |log| && log[i].System?|
  }

  lemma RemindersOfJoin(a: seq<Message>, b: seq<Message>)
    ensures Reminders(a + b) == Reminders(a) + Reminders(b)
  {
    var left := set i: nat | i < |a| && a[i].System?;
    var right := set i: nat | i < |b| && b[i].System?;
    var both := set i: nat | i < |a + b| && (a + b)[i].System?;
    var moved := set i: nat | |a| <= i < |a + b| && (a + b)[i].System?;
    assert both == left + moved;
    Shifted(right, moved, |a|);
  }

  lemma {:induction false} Shifted(s: set<nat>, t: set<nat>, d: nat)
    requires forall i: nat :: i in s <==> i + d in t
    requires forall j :: j in t ==> j >= d
    ensures |s| == |t|
    decreases |s|
  {
    if s == {} {
      assert forall j :: j in t ==> j - d in s;
    } else {
      var i :| i in s;
      Shifted(s - {i}, t - {i + d}, d);
      assert t == t - {i + d} + {i + d};
    }
  }

  lemma {:induction false} ResultsRemindNothing(env: Env, t: nat, calls: seq<ToolCall>, n: nat)
    requires WaitsEnd(env) && n <= |calls|
    ensures forall i :: 0 <= i < |Results(env, t, calls, n)| ==> !Results(env, t, calls, n)[i].System?
  {
    if n > 0 {
      ResultsRemindNothing(env, t, calls, n - 1);
    }
  }

  lemma NoReminder(log: seq<Message>)
    requires forall i :: 0 <= i < |log| ==> !log[i].System?
    ensures Reminders(log) == 0
  {
    assert (set i: nat | i < |log| && log[i].System?) == {};
  }

  lemma TurnReminders(env: Env, maxTurns: int, t: nat)
    requires WaitsEnd(env)
    ensures Reminders(TurnLog(env, maxTurns, t)) == if maxTurns > 3 && t == maxTurns - 2 then 1 else 0
  {
    var w := WrapUp(maxTurns, t);
    var rest := TurnLog(env, maxTurns, t)[|w|..];
    assert TurnLog(env, maxTurns, t) == w + rest;
    RemindersOfJoin(w, rest);
    if env.chat(t).Some? {
      var r := env.chat(t).value;
      ResultsRemindNothing(env, t, r.calls, |r.calls|);
      assert rest == [Assistant(r)] + Results(env, t, r.calls, |r.calls|);
    }
    NoReminder(rest);
    assert (set i: nat | i < |w| && w[i].System?) == if w == [] then {} else {0};
  }

  function RemindersDue(maxTurns: int, n: nat): nat {
    if n == 0 then 0 else RemindersDue(maxTurns, n - 1) + if maxTurns > 3 && n - 1 == maxTurns - 2 then 1 else 0
  }

  lemma {:induction false} RemindersOfLog(env: Env, maxTurns: int, n: nat)
    requires WaitsEnd(env)
    ensures Reminders(Log(env, maxTurns, n)) == RemindersDue(maxTurns, n)
  {
    if n == 0 {
      NoReminder([]);
    } else {
      RemindersOfLog(env, maxTurns, n - 1);
      TurnReminders(env, maxTurns, n - 1);
      RemindersOfJoin(Log(env, maxTurns, n - 1), TurnLog(env, maxTurns, n - 1));
    }
  }

  lemma {:induction false} RemindersAddUp(maxTurns: int, n: nat)
    ensures RemindersDue(maxTurns, n) == if maxTurns > 3 && n >= maxTurns - 1 then 1 else 0
  {
    if n > 0 {
      RemindersAddUp(maxTurns, n - 1);
    }
  }

  /** The model is told once that turns are running out, and only in a chat that is allowed more than
      three turns and gets to the last but one. */
  lemma RemindedOnce(env: Env, maxTurns: int, n: nat)
    requires WaitsEnd(env)
    ensures Reminders(Log(env, maxTurns, n)) == if maxTurns > 3 && n >= maxTurns - 1 then 1 else 0
  {
    RemindersOfLog(env, maxTurns, n);
    RemindersAddUp(maxTurns, n);
  }
}
