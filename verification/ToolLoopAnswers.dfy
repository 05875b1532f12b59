/**
  What the model and the user get out of a chat (modules/agent/runtime.go:736-747, 752-906): the output
  of each tool, the reply, and the list of tools used. The functions that the loop is specified with
  occur here as the log, the executions and the result of a chat only.
 */
module ToolLoopAnswers {
  import opened Common
  import opened ToolLoop

  // ---- Tool output reaches the log ----

  /** Where the log of a chat has the message of the model in turn `t`; the answers to its calls follow. */
  ghost function ResponseAt(env: Env, maxTurns: int, t: nat): nat
    requires WaitsEnd(env)
  {
    |Log(env, maxTurns, t)| + |WrapUp(maxTurns, t)|
  }

  lemma {:induction false} ResultAt(env: Env, t: nat, calls: seq<ToolCall>, n: nat, k: nat)
    requires WaitsEnd(env) && k < n <= |calls|
    ensures |Results(env, t, calls, n)| == n && Results(env, t, calls, n)[k] == ResultOf(env, t, k, calls[k])
  {
    if n > 1 {
      ResultAt(env, t, calls, n - 1, if k < n - 1 then k else 0);
    } else {
      assert Results(env, t, calls, 0) == [];
    }
  }

  lemma InTurnLog(env: Env, maxTurns: int, t: nat, k: nat)
    requires WaitsEnd(env) && k < |CallsOf(env, t)|
    ensures var w := |WrapUp(maxTurns, t)|;
      && |TurnLog(env, maxTurns, t)| == w + 1 + |CallsOf(env, t)| && TurnLog(env, maxTurns, t)[w] == Assistant(env.chat(t).value)
      && TurnLog(env, maxTurns, t)[w + 1 + k] == ResultOf(env, t, k, CallsOf(env, t)[k])
  {
    ResultAt(env, t, CallsOf(env, t), |CallsOf(env, t)|, k);
  }

  lemma StartsJoin<T>(a: seq<T>, b: seq<T>, more: seq<T>)
    requires a <= b
    ensures a <= b + more
  {
  }

  lemma {:induction false} LogStarts(env: Env, maxTurns: int, t: nat, n: nat)
    requires WaitsEnd(env) && t <= n
    ensures Log(env, maxTurns, t) <= Log(env, maxTurns, n)
    decreases n
  {
    if t < n {
      LogStarts(env, maxTurns, t, n - 1);
      StartsJoin(Log(env, maxTurns, t), Log(env, maxTurns, n - 1), TurnLog(env, maxTurns, n - 1));
    }
  }

  lemma LogHasTurn(env: Env, maxTurns: int, n: nat, t: nat)
    requires WaitsEnd(env) && t < n
    ensures Log(env, maxTurns, t) + TurnLog(env, maxTurns, t) <= Log(env, maxTurns, n)
  {
    LogStarts(env, maxTurns, t + 1, n);
  }

  lemma Located<T>(whole: seq<T>, before: seq<T>, part: seq<T>, i: nat)
    requires before + part <= whole && i < |part|
    ensures |before| + i < |whole| && whole[|before| + i] == part[i]
  {
    assert whole[|before| + i] == (before + part)[|before| + i];
  }

  /** What the tool gave, if it ran, and an error if it did not. */
  ghost predicate Carries(m: Message, env: Env, t: nat, k: nat, executed: bool) {
    m.ToolResult? && if executed then m.content == env.execute(t, k).content && m.isError == env.execute(t, k).failed else m.isError
  }

  /** Why a call was turned away, if it was, as the model and the user are told. */
  ghost function TurnedAway(env: Env, t: nat, k: nat): Option<string>
    requires WaitsEnd(env)
  {
    if env.policy(t, k) == "deny" then Some("denied")
    else if env.policy(t, k) == "require_approval" && WaitResult(env.polls(t, k)) != "approved" then Some(WaitResult(env.polls(t, k)))
    else None
  }

  /** The texts for calls that are turned away by the policy or by the wait for an approval. */
  ghost predicate Explains(m: Message, env: Env, t: nat, k: nat, name: string)
    requires WaitsEnd(env)
  {
    && m.ToolResult?
    && (env.policy(t, k) == "deny" ==> m.content == "DENIED: Policy does not allow " + name)
    && (env.policy(t, k) == "require_approval" && WaitResult(env.polls(t, k)) != "approved" ==>
          m.content == "APPROVAL " + Upper(WaitResult(env.polls(t, k))) + ": " + name)
  }

  lemma ResultExplains(env: Env, t: nat, k: nat, call: ToolCall)
    requires WaitsEnd(env)
    ensures Explains(ResultOf(env, t, k, call), env, t, k, call.name)
  {
    assert "deny"[0] == 'd' && "require_approval"[0] == 'r';
  }

  lemma ResultCarries(env: Env, t: nat, k: nat, call: ToolCall)
    requires WaitsEnd(env)
    ensures ResultOf(env, t, k, call).ToolResult? && ResultOf(env, t, k, call).callId == call.id
    ensures Carries(ResultOf(env, t, k, call), env, t, k, env.hasRegistry && MayRun(env, t, k))
  {
  }

  lemma AnswerInLog(env: Env, maxTurns: int, n: nat, t: nat, k: nat)
    requires WaitsEnd(env) && t < n && k < |CallsOf(env, t)|
    ensures var log, at := Log(env, maxTurns, n), ResponseAt(env, maxTurns, t);
      at + 1 + k < |log| && log[at] == Assistant(env.chat(t).value) && log[at + 1 + k] == ResultOf(env, t, k, CallsOf(env, t)[k])
  {
    var w := |WrapUp(maxTurns, t)|;
    InTurnLog(env, maxTurns, t, k);
    LogHasTurn(env, maxTurns, n, t);
    Located(Log(env, maxTurns, n), Log(env, maxTurns, t), TurnLog(env, maxTurns, t), w);
    Located(Log(env, maxTurns, n), Log(env, maxTurns, t), TurnLog(env, maxTurns, t), w + 1 + k);
  }

  lemma ExecutedMeansMayRun(env: Env, n: nat, t: nat, k: nat)
    requires WaitsEnd(env) && t < n && k < |CallsOf(env, t)|
    ensures (t, k) in Executed(env, n) <==> env.hasRegistry && MayRun(env, t, k)
  {
    ExecutedExactly(env, n);
    assert (t, k).0 == t && (t, k).1 == k;
  }

  /** In the log of a chat the answer to each call carries the id of the call, and the output and error flag
      of its execution if it was executed; a call that was not executed is answered with an error. */
  lemma LogCarriesOutput(env: Env, maxTurns: int, n: nat, t: nat, k: nat)
    requires WaitsEnd(env) && t < n && k < |CallsOf(env, t)|
    ensures var log, at := Log(env, maxTurns, n), ResponseAt(env, maxTurns, t);
      && at + 1 + k < |log| && log[at] == Assistant(env.chat(t).value)
      && Carries(log[at + 1 + k], env, t, k, (t, k) in Executed(env, n)) && log[at + 1 + k].callId == env.chat(t).value.calls[k].id
      && Explains(log[at + 1 + k], env, t, k, env.chat(t).value.calls[k].name)
  {
    AnswerInLog(env, maxTurns, n, t, k);
    ExecutedMeansMayRun(env, n, t, k);
    ResultCarries(env, t, k, CallsOf(env, t)[k]);
    ResultExplains(env, t, k, CallsOf(env, t)[k]);
  }

  // ---- Policy decides what runs ----

  /** A denied tool never runs, one that needs an approval runs exactly if the wait ends in "approved", and any
      other tool runs; without a registry none does. */
  lemma PolicyDecides(env: Env, n: nat, t: nat, k: nat)
    requires WaitsEnd(env) && t < n && k < |CallsOf(env, t)|
    ensures !env.hasRegistry || env.policy(t, k) == "deny" ==> (t, k) !in Executed(env, n)
    ensures env.hasRegistry && env.policy(t, k) == "require_approval" ==>
      ((t, k) in Executed(env, n) <==> WaitResult(env.polls(t, k)) == "approved")
    ensures env.hasRegistry && env.policy(t, k) != "deny" && env.policy(t, k) != "require_approval" ==> (t, k) in Executed(env, n)
  {
    ExecutedMeansMayRun(env, n, t, k);
    assert "deny"[0] == 'd' && "require_approval"[0] == 'r';
  }

  // ---- The list of tools used ----

  lemma {:induction false} NameAt(env: Env, t: nat, calls: seq<ToolCall>, n: nat, k: nat)
    requires WaitsEnd(env) && k < n <= |calls|
    ensures |UsedIn(env, t, calls, n)| == n && UsedIn(env, t, calls, n)[k] == UsedName(env, t, k, calls[k])
  {
    if n > 1 {
      NameAt(env, t, calls, n - 1, if k < n - 1 then k else 0);
    } else {
      assert UsedIn(env, t, calls, 0) == [];
    }
  }

  lemma TurnUses(env: Env, t: nat)
    requires WaitsEnd(env)
    ensures var calls := CallsOf(env, t); |UsedIn(env, t, calls, |calls|)| == |calls|
  {
    if CallsOf(env, t) != [] {
      NameAt(env, t, CallsOf(env, t), |CallsOf(env, t)|, 0);
    }
  }

  lemma {:induction false} UsedCounts(env: Env, n: nat)
    requires WaitsEnd(env)
    ensures |Used(env, n)| == CallCount(env, n)
  {
    if n > 0 {
      UsedCounts(env, n - 1);
      TurnUses(env, n - 1);
    }
  }

  lemma {:induction false} UsedStarts(env: Env, t: nat, n: nat)
    requires WaitsEnd(env) && t <= n
    ensures Used(env, t) <= Used(env, n)
    decreases n
  {
    if t < n {
      UsedStarts(env, t, n - 1);
      StartsJoin(Used(env, t), Used(env, n - 1), UsedIn(env, n - 1, CallsOf(env, n - 1), |CallsOf(env, n - 1)|));
    }
  }

  lemma UsedHasTurn(env: Env, n: nat, t: nat)
    requires WaitsEnd(env) && t < n
    ensures Used(env, t) + UsedIn(env, t, CallsOf(env, t), |CallsOf(env, t)|) <= Used(env, n)
  {
    UsedStarts(env, t + 1, n);
  }

  lemma UsedAt(env: Env, n: nat, t: nat, k: nat)
    requires WaitsEnd(env) && t < n && k < |CallsOf(env, t)|
    ensures CallCount(env, t) + k < |Used(env, n)| && Used(env, n)[CallCount(env, t) + k] == UsedName(env, t, k, CallsOf(env, t)[k])
  {
    UsedCounts(env, t);
    UsedHasTurn(env, n, t);
    NameAt(env, t, CallsOf(env, t), |CallsOf(env, t)|, k);
    Located(Used(env, n), Used(env, t), UsedIn(env, t, CallsOf(env, t), |CallsOf(env, t)|), k);
  }

  lemma NameTells(env: Env, t: nat, k: nat, call: ToolCall)
    requires WaitsEnd(env)
    ensures UsedName(env, t, k, call) == Listed(call.name, TurnedAway(env, t, k))
    ensures TurnedAway(env, t, k).None? <==> MayRun(env, t, k)
  {
    assert call.name + "(denied)" == call.name + "(" + "denied" + ")";
    assert "deny"[0] == 'd' && "require_approval"[0] == 'r';
  }

  function Listed(name: string, reason: Option<string>): string {
    if reason.None? then name else name + "(" + reason.value + ")"
  }

  /** How a chat ends: with the sanitized text of its last response, if that asked for no tools; it then counts
      the calls that it lists. */
  lemma ReplyIsRight(env: Env, maxTurns: int, n: nat, start: seq<Message>, executed0: seq<(nat, nat)>,
                     result: ChatResult, log: seq<Message>, executed: seq<(nat, nat)>)
    requires WaitsEnd(env) && Ended(env, maxTurns, n, start, executed0, result, log, executed)
    ensures result.Reply? <==> n > 0 && env.chat(n - 1).Some? && env.chat(n - 1).value.calls == []
    ensures result.ModelFailed? <==> n > 0 && env.chat(n - 1).None?
    ensures result.MaxTurnsExceeded? ==> n == Max(maxTurns, 0)
    ensures result.Reply? ==> result.content == env.sanitize(env.chat(n - 1).value.content) && result.turns == n
    ensures result.Reply? ==> result.toolCalls == |result.toolsUsed| && result.toolsUsed == Used(env, n)
  {
    UsedCounts(env, n);
  }

  /** The list has all calls in order, each under its name, with the reason after it if it was turned away, which
      is exactly if it was not executed. */
  lemma ToolsUsedList(env: Env, n: nat, t: nat, k: nat)
    requires WaitsEnd(env) && t < n && k < |CallsOf(env, t)|
    ensures var call, at := CallsOf(env, t)[k], CallCount(env, t) + k;
      && at < |Used(env, n)| && Used(env, n)[at] == Listed(call.name, TurnedAway(env, t, k))
      && (env.hasRegistry ==> (TurnedAway(env, t, k).None? <==> (t, k) in Executed(env, n)))
  {
    UsedAt(env, n, t, k);
    NameTells(env, t, k, CallsOf(env, t)[k]);
    ExecutedMeansMayRun(env, n, t, k);
  }
}
