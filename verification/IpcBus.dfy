/**
  The message bus of kernel/ipc/bus.go as a transition system: registration and re-registration
  of handlers, requests over bounded inboxes, one goroutine for each consumed request, replies on
  a channel of their own, time-outs, and close.
 */
module IpcBus {
  import opened Common

  datatype Key = Key(target: string, topic: string)

  datatype Message = Message(id: string, source: string, target: string, topic: string, trace: string, payload: string)

  /** Names the reply channel that a request makes for itself. */
  type Token = nat
  type BoxId = nat

  datatype Envelope = Envelope(token: Token, msg: Message)

  datatype Inbox = Inbox(queue: seq<Envelope>, closed: bool)

  datatype Reply = Answer(msg: Message) | Failure(error: string)

  /** What a handler function does: return a message, return an error, or panic. */
  datatype Outcome = Respond(resp: Message) | Fail(error: string) | Panic(cause: string)

  datatype Caller = Waiting | Returned(reply: Reply) | TimedOut

  datatype SendError = BusClosed | NoHandler | Overloaded

  /** `running` are the goroutines inside a handler; `channels` the reply channels, which buffer
      one reply. `accepted` and `answers` are history: requests taken in, and replies sent. */
  datatype Bus = Bus(
    bufferSize: nat,
    handlers: map<Key, BoxId>,
    inboxes: map<BoxId, Inbox>,
    closed: bool,
    running: map<Token, Message>,
    channels: map<Token, seq<Reply>>,
    callers: map<Token, Caller>,
    accepted: map<Token, Message>,
    answers: map<Token, Reply>)

  datatype Action =
    | Handle(key: Key, box: BoxId)
    | Send(token: Token, msg: Message)
    | HandOver(token: Token, msg: Message)
    | Consume(box: BoxId)
    | Finish(token: Token, outcome: Outcome)
    | Receive(token: Token)
    | TimeOut(token: Token)
    | Close

  // ---- The critical sections, shared with the class below ----

  function KeyOf(msg: Message): Key {
    Key(msg.target, msg.topic)
  }

  /** Close the replaced inbox, if any, and open a new one. */
  function Reregistered(handlers: map<Key, BoxId>, inboxes: map<BoxId, Inbox>, key: Key, box: BoxId): map<BoxId, Inbox> {
    (if key in handlers && handlers[key] in inboxes then
       inboxes[handlers[key] := inboxes[handlers[key]].(closed := true)]
     else inboxes)[box := Inbox([], false)]
  }

  function AllClosed(handlers: map<Key, BoxId>, inboxes: map<BoxId, Inbox>): map<BoxId, Inbox> {
    map b | b in inboxes :: if b in handlers.Values then inboxes[b].(closed := true) else inboxes[b]
  }

  /** Why a request is turned away, if it is; a send on a closed inbox panics and is recovered. */
  function Refusal(bufferSize: nat, handlers: map<Key, BoxId>, inboxes: map<BoxId, Inbox>, closed: bool, msg: Message): Option<SendError> {
    if closed then Some(BusClosed)
    else if KeyOf(msg) !in handlers || handlers[KeyOf(msg)] !in inboxes then Some(NoHandler)
    else
      var inbox := inboxes[handlers[KeyOf(msg)]];
      if inbox.closed then Some(BusClosed)
      else if |inbox.queue| >= bufferSize then Some(Overloaded)
      else None
  }

  function Delivered(handlers: map<Key, BoxId>, inboxes: map<BoxId, Inbox>, token: Token, msg: Message): map<BoxId, Inbox>
    requires KeyOf(msg) in handlers && handlers[KeyOf(msg)] in inboxes
  {
    var b := handlers[KeyOf(msg)];
    inboxes[b := inboxes[b].(queue := inboxes[b].queue + [Envelope(token, msg)])]
  }

  /** The reply that the goroutine of request `req` sends. */
  function ReplyTo(req: Message, outcome: Outcome): Reply {
    match outcome
    case Respond(resp) => Answer(resp.(id := req.id, source := req.target, target := req.source, trace := req.trace))
    case Fail(e) => Failure(e)
    case Panic(cause) => Failure("ipc: handler panicked: " + cause)
  }

  // ---- The transition relation ----

  /** To register a handler for `key` would mean to close an inbox for the second time. */
  ghost predicate Panics(s: Bus, key: Key) {
    key in s.handlers && s.handlers[key] in s.inboxes && s.inboxes[s.handlers[key]].closed
  }

  ghost predicate Enabled(s: Bus, a: Action) {
    match a
    // Not over an inbox that is closed: closing it for the second time would panic.
    case Handle(key, box) => box !in s.inboxes && !Panics(s, key)
    case Send(token, _) => token !in s.channels
    // A consumer that waits on an empty inbox takes the request from the sender's hand.
    case HandOver(token, msg) =>
      && token !in s.channels && !s.closed && KeyOf(msg) in s.handlers && s.handlers[KeyOf(msg)] in s.inboxes
      && var inbox := s.inboxes[s.handlers[KeyOf(msg)]];
         !inbox.closed && inbox.queue == []
    case Consume(b) => b in s.inboxes && s.inboxes[b].queue != []
    case Finish(token, _) => token in s.running && token in s.channels
    case Receive(token) => token in s.callers && s.callers[token].Waiting? && token in s.channels && s.channels[token] != []
    case TimeOut(token) => token in s.callers && s.callers[token].Waiting?
    case Close => true
  }

  ghost function Apply(s: Bus, a: Action): Bus
    requires Enabled(s, a)
  {
    match a
    case Handle(key, box) =>
      s.(handlers := s.handlers[key := box], inboxes := Reregistered(s.handlers, s.inboxes, key, box))
    case Send(token, msg) =>
      if Refusal(s.bufferSize, s.handlers, s.inboxes, s.closed, msg).Some? then s
      else
        s.(inboxes := Delivered(s.handlers, s.inboxes, token, msg),
           channels := s.channels[token := []], callers := s.callers[token := Waiting], accepted := s.accepted[token := msg])
    case HandOver(token, msg) =>
      s.(running := s.running[token := msg],
         channels := s.channels[token := []], callers := s.callers[token := Waiting], accepted := s.accepted[token := msg])
    case Consume(b) =>
      var e := s.inboxes[b].queue[0];
      s.(inboxes := s.inboxes[b := s.inboxes[b].(queue := s.inboxes[b].queue[1..])], running := s.running[e.token := e.msg])
    case Finish(token, outcome) =>
      var reply := ReplyTo(s.running[token], outcome);
      s.(running := s.running - {token}, channels := s.channels[token := s.channels[token] + [reply]],
         answers := s.answers[token := reply])
    case Receive(token) =>
      s.(channels := s.channels[token := s.channels[token][1..]], callers := s.callers[token := Returned(s.channels[token][0])])
    case TimeOut(token) => s.(callers := s.callers[token := TimedOut])
    case Close => if s.closed then s else s.(closed := true, inboxes := AllClosed(s.handlers, s.inboxes))
  }

  function NewBus(bufferSize: nat): Bus {
    Bus(bufferSize, map[], map[], false, map[], map[], map[], map[], map[])
  }

  ghost predicate IsRun(run: seq<Bus>, acts: seq<Action>) {
    && |run| == |acts| + 1
    && run[0] == NewBus(run[0].bufferSize)
    && forall i {:trigger acts[i]} :: 0 <= i < |acts| ==> Enabled(run[i], acts[i]) && run[i + 1] == Apply(run[i], acts[i])
  }

  // ---- What every step keeps ----

  /** An inbox that is not registered any more is closed, and a registered one only if the bus is. */
  ghost predicate Registration(s: Bus) {
    && (forall k :: k in s.handlers ==> s.handlers[k] in s.inboxes)
    && (forall k, l :: k in s.handlers && l in s.handlers && s.handlers[k] == s.handlers[l] ==> k == l)
    && (forall b :: b in s.inboxes && b !in s.handlers.Values ==> s.inboxes[b].closed)
    && (forall b :: b in s.inboxes && s.inboxes[b].closed && b in s.handlers.Values ==> s.closed)
    && (forall b :: b in s.inboxes ==> |s.inboxes[b].queue| <= s.bufferSize)
  }

  ghost predicate Slot(inboxes: map<BoxId, Inbox>, b: BoxId, i: int) {
    b in inboxes && 0 <= i < |inboxes[b].queue|
  }

  ghost function Queued(inboxes: map<BoxId, Inbox>): set<Token> {
    set b, i | b in inboxes && 0 <= i < |inboxes[b].queue| :: inboxes[b].queue[i].token
  }

  /** No request is queued twice, and what is queued or running is what was accepted. */
  ghost predicate SingleFile(s: Bus) {
    && (forall b, i, c, j :: Slot(s.inboxes, b, i) && Slot(s.inboxes, c, j) && (b != c || i != j) ==>
          s.inboxes[b].queue[i].token != s.inboxes[c].queue[j].token)
    && (forall b, i :: Slot(s.inboxes, b, i) ==>
          var e := s.inboxes[b].queue[i];
          e.token in s.accepted && s.accepted[e.token] == e.msg)
    && (forall t :: t in s.running ==> t in s.accepted && s.accepted[t] == s.running[t])
  }

  /** Accepted requests are queued, running or replied to, and in one of these places only. */
  ghost predicate Conserved(s: Bus) {
    && s.accepted.Keys == Queued(s.inboxes) + s.running.Keys + s.answers.Keys
    && Queued(s.inboxes) !! s.running.Keys && Queued(s.inboxes) !! s.answers.Keys && s.running.Keys !! s.answers.Keys
  }

  /** The one reply of a request, on its channel until its own caller takes it. */
  ghost predicate Channels(s: Bus) {
    && s.channels.Keys == s.callers.Keys == s.accepted.Keys
    && (forall t :: t in s.channels ==>
          s.channels[t] == if t in s.answers && !s.callers[t].Returned? then [s.answers[t]] else [])
    && (forall t :: t in s.callers && s.callers[t].Returned? ==> t in s.answers && s.callers[t].reply == s.answers[t])
  }

  ghost predicate Correlated(s: Bus) {
    forall t :: t in s.answers && s.answers[t].Answer? ==>
      && t in s.accepted
      && s.answers[t].msg.id == s.accepted[t].id && s.answers[t].msg.trace == s.accepted[t].trace
      && s.answers[t].msg.source == s.accepted[t].target && s.answers[t].msg.target == s.accepted[t].source
  }

  ghost predicate Inv(s: Bus) {
    Registration(s) && SingleFile(s) && Conserved(s) && Channels(s) && Correlated(s)
  }

  lemma StepKeepsRegistration(s: Bus, a: Action)
    requires Registration(s) && Enabled(s, a)
    ensures Registration(Apply(s, a))
  {
    var s' := Apply(s, a);
    match a
    case Handle(key, box) => HandleKeepsRegistration(s, key, box);
    case Send(token, msg) =>
    case HandOver(token, msg) =>
    case Consume(b) =>
    case Finish(token, outcome) =>
    case Receive(token) =>
    case TimeOut(token) =>
    case Close =>
  }

  lemma HandleKeepsRegistration(s: Bus, key: Key, box: BoxId)
    requires Registration(s) && Enabled(s, Handle(key, box))
    ensures Registration(Apply(s, Handle(key, box)))
  {
    var s' := Apply(s, Handle(key, box));
    assert s'.handlers[key] == box;
    forall b | b in s'.inboxes
      ensures b !in s'.handlers.Values ==> s'.inboxes[b].closed
      ensures s'.inboxes[b].closed && b in s'.handlers.Values ==> s'.closed
    {
      if b in s.handlers.Values {
        var k :| k in s.handlers && s.handlers[k] == b;
        assert k != key ==> s'.handlers[k] == b;
      }
      if b in s'.handlers.Values && b != box {
        var k :| k in s'.handlers && s'.handlers[k] == b;
        assert k != key && s.handlers[k] == b;
      }
    }
  }

  /** Closing inboxes and adding an empty one leaves every queued request where it is. */
  lemma SameQueues(before: map<BoxId, Inbox>, after: map<BoxId, Inbox>)
    requires before.Keys <= after.Keys
    requires forall b :: b in after ==> after[b].queue == if b in before then before[b].queue else []
    ensures Queued(after) == Queued(before)
    ensures forall b, i :: Slot(after, b, i) <==> Slot(before, b, i)
  {
    forall t | t in Queued(before) ensures t in Queued(after) {
      var b, i :| b in before && 0 <= i < |before[b].queue| && before[b].queue[i].token == t;
      assert Slot(after, b, i) && after[b].queue[i].token == t;
    }
    forall t | t in Queued(after) ensures t in Queued(before) {
      var b, i :| b in after && 0 <= i < |after[b].queue| && after[b].queue[i].token == t;
      assert Slot(before, b, i) && before[b].queue[i].token == t;
    }
  }

  lemma QueueAppend(before: map<BoxId, Inbox>, b: BoxId, e: Envelope)
    requires b in before
    ensures Queued(before[b := before[b].(queue := before[b].queue + [e])]) == Queued(before) + {e.token}
  {
    var after := before[b := before[b].(queue := before[b].queue + [e])];
    assert after[b].queue[|before[b].queue|] == e;
    forall t | t in Queued(before) ensures t in Queued(after) {
      var c, i :| c in before && 0 <= i < |before[c].queue| && before[c].queue[i].token == t;
      assert c in after && 0 <= i < |after[c].queue| && after[c].queue[i].token == t;
    }
    forall t | t in Queued(after) ensures t in Queued(before) + {e.token} {
      var c, i :| c in after && 0 <= i < |after[c].queue| && after[c].queue[i].token == t;
      if c != b || i < |before[c].queue| {
        assert c in before && 0 <= i < |before[c].queue| && before[c].queue[i].token == t;
      }
    }
  }

  lemma QueuePop(s: Bus, b: BoxId)
    requires SingleFile(s) && b in s.inboxes && s.inboxes[b].queue != []
    ensures Queued(s.inboxes[b := s.inboxes[b].(queue := s.inboxes[b].queue[1..])]) == Queued(s.inboxes) - {s.inboxes[b].queue[0].token}
  {
    var before, e := s.inboxes, s.inboxes[b].queue[0];
    var after := before[b := before[b].(queue := before[b].queue[1..])];
    assert Slot(before, b, 0);
    forall t | t in Queued(before) && t != e.token ensures t in Queued(after) {
      var c, i :| c in before && 0 <= i < |before[c].queue| && before[c].queue[i].token == t;
      if c == b {
        assert c in after && 0 <= i - 1 < |after[c].queue| && after[c].queue[i - 1].token == t;
      } else {
        assert c in after && 0 <= i < |after[c].queue| && after[c].queue[i].token == t;
      }
    }
    forall t | t in Queued(after) ensures t in Queued(before) && t != e.token {
      var c, i :| c in after && 0 <= i < |after[c].queue| && after[c].queue[i].token == t;
      var j := if c == b then i + 1 else i;
      assert Slot(before, c, j) && before[c].queue[j].token == t;
    }
  }

  lemma QuietStep(s: Bus, s': Bus)
    requires SingleFile(s) && Conserved(s)
    requires s.inboxes.Keys <= s'.inboxes.Keys
    requires forall b :: b in s'.inboxes ==> s'.inboxes[b].queue == if b in s.inboxes then s.inboxes[b].queue else []
    requires s'.running == s.running && s'.accepted == s.accepted && s'.answers == s.answers
    ensures SingleFile(s') && Conserved(s')
  {
    SameQueues(s.inboxes, s'.inboxes);
  }

  lemma DeliverKeepsSingleFile(s: Bus, token: Token, msg: Message)
    requires SingleFile(s) && token !in s.accepted && KeyOf(msg) in s.handlers && s.handlers[KeyOf(msg)] in s.inboxes
    ensures SingleFile(s.(inboxes := Delivered(s.handlers, s.inboxes, token, msg), accepted := s.accepted[token := msg]))
  {
    var b := s.handlers[KeyOf(msg)];
    var after := Delivered(s.handlers, s.inboxes, token, msg);
    forall c, i | Slot(after, c, i)
      ensures Slot(s.inboxes, c, i) || (c == b && i == |s.inboxes[b].queue|)
      ensures after[c].queue[i] == if Slot(s.inboxes, c, i) then s.inboxes[c].queue[i] else Envelope(token, msg)
    {
    }
    forall c, i | Slot(s.inboxes, c, i) ensures s.inboxes[c].queue[i].token != token {
      assert s.inboxes[c].queue[i].token in s.accepted;
    }
  }

  lemma SendKeepsConserved(s: Bus, token: Token, msg: Message)
    requires SingleFile(s) && Conserved(s) && token !in s.accepted && Enabled(s, Send(token, msg))
    requires Refusal(s.bufferSize, s.handlers, s.inboxes, s.closed, msg).None?
    ensures SingleFile(Apply(s, Send(token, msg))) && Conserved(Apply(s, Send(token, msg)))
  {
    DeliverKeepsSingleFile(s, token, msg);
    SameSingleFile(s.(inboxes := Delivered(s.handlers, s.inboxes, token, msg), accepted := s.accepted[token := msg]), Apply(s, Send(token, msg)));
    QueueAppend(s.inboxes, s.handlers[KeyOf(msg)], Envelope(token, msg));
    MoreQueued(s, Apply(s, Send(token, msg)), token, msg);
  }

  lemma MoreQueued(s: Bus, s': Bus, token: Token, msg: Message)
    requires Conserved(s) && token !in s.accepted && s'.accepted == s.accepted[token := msg]
    requires Queued(s'.inboxes) == Queued(s.inboxes) + {token} && s'.running == s.running && s'.answers == s.answers
    ensures Conserved(s')
  {
    assert s'.accepted.Keys == s.accepted.Keys + {token};
  }

  lemma SameSingleFile(s: Bus, s': Bus)
    requires SingleFile(s) && s'.inboxes == s.inboxes && s'.accepted == s.accepted && s'.running == s.running
    ensures SingleFile(s')
  {
  }

  lemma HandOverKeepsConserved(s: Bus, token: Token, msg: Message)
    requires SingleFile(s) && Conserved(s) && token !in s.accepted && Enabled(s, HandOver(token, msg))
    ensures SingleFile(Apply(s, HandOver(token, msg))) && Conserved(Apply(s, HandOver(token, msg)))
  {
    var s' := Apply(s, HandOver(token, msg));
    forall c, i | Slot(s.inboxes, c, i) ensures s.inboxes[c].queue[i].token != token {
      assert s.inboxes[c].queue[i].token in s.accepted;
    }
    assert s'.running.Keys == s.running.Keys + {token};
    assert s'.accepted.Keys == s.accepted.Keys + {token};
  }

  lemma ConsumeKeepsConserved(s: Bus, b: BoxId)
    requires SingleFile(s) && Conserved(s) && Enabled(s, Consume(b))
    ensures SingleFile(Apply(s, Consume(b))) && Conserved(Apply(s, Consume(b)))
  {
    assert Slot(s.inboxes, b, 0);
    QueuePop(s, b);
    ConsumeKeepsSingleFile(s, b);
    assert s.inboxes[b].queue[0].token in Queued(s.inboxes);
  }

  lemma ConsumeKeepsSingleFile(s: Bus, b: BoxId)
    requires SingleFile(s) && Enabled(s, Consume(b))
    ensures SingleFile(Apply(s, Consume(b)))
  {
    var s' := Apply(s, Consume(b));
    assert Slot(s.inboxes, b, 0);
    forall c, i | Slot(s'.inboxes, c, i)
      ensures Slot(s.inboxes, c, if c == b then i + 1 else i)
      ensures s'.inboxes[c].queue[i] == s.inboxes[c].queue[if c == b then i + 1 else i]
    {
    }
  }

  lemma FinishKeepsConserved(s: Bus, token: Token, outcome: Outcome)
    requires SingleFile(s) && Conserved(s) && Enabled(s, Finish(token, outcome))
    ensures SingleFile(Apply(s, Finish(token, outcome))) && Conserved(Apply(s, Finish(token, outcome)))
  {
  }

  lemma StepKeepsConserved(s: Bus, a: Action)
    requires Inv(s) && Enabled(s, a)
    ensures SingleFile(Apply(s, a)) && Conserved(Apply(s, a))
  {
    if a.HandOver? {
      HandOverKeepsConserved(s, a.token, a.msg);
    } else if a.Consume? {
      ConsumeKeepsConserved(s, a.box);
    } else if a.Finish? {
      FinishKeepsConserved(s, a.token, a.outcome);
    } else if a.Send? && Refusal(s.bufferSize, s.handlers, s.inboxes, s.closed, a.msg).None? {
      SendKeepsConserved(s, a.token, a.msg);
    } else {
      QuietStep(s, Apply(s, a));
    }
  }

  lemma FinishKeepsChannels(s: Bus, token: Token, outcome: Outcome)
    requires Conserved(s) && Channels(s) && Enabled(s, Finish(token, outcome))
    ensures Channels(Apply(s, Finish(token, outcome)))
  {
    AnsweredKeepsChannels(s, Apply(s, Finish(token, outcome)), token, ReplyTo(s.running[token], outcome));
  }

  lemma AnsweredKeepsChannels(s: Bus, s': Bus, token: Token, reply: Reply)
    requires Channels(s) && token in s.channels && token !in s.answers
    requires s'.channels == s.channels[token := s.channels[token] + [reply]] && s'.answers == s.answers[token := reply]
    requires s'.callers == s.callers && s'.accepted == s.accepted
    ensures Channels(s')
  {
  }

  lemma ReceiveKeepsChannels(s: Bus, token: Token)
    requires Channels(s) && Enabled(s, Receive(token))
    ensures Channels(Apply(s, Receive(token)))
  {
    assert s.channels[token] == [s.answers[token]];
  }

  lemma TimeOutKeepsChannels(s: Bus, token: Token)
    requires Channels(s) && Enabled(s, TimeOut(token))
    ensures Channels(Apply(s, TimeOut(token)))
  {
  }

  lemma NewChannelKeepsChannels(s: Bus, s': Bus, token: Token, msg: Message)
    requires Conserved(s) && Channels(s) && token !in s.channels && s'.answers == s.answers
    requires s'.channels == s.channels[token := []] && s'.callers == s.callers[token := Waiting]
    requires s'.accepted == s.accepted[token := msg]
    ensures Channels(s')
  {
    assert token !in s.answers;
  }

  lemma StepKeepsChannels(s: Bus, a: Action)
    requires Conserved(s) && Channels(s) && Enabled(s, a)
    ensures Channels(Apply(s, a))
  {
    if a.Finish? {
      FinishKeepsChannels(s, a.token, a.outcome);
    } else if a.Receive? {
      ReceiveKeepsChannels(s, a.token);
    } else if a.TimeOut? {
      TimeOutKeepsChannels(s, a.token);
    } else if a.HandOver? || (a.Send? && Refusal(s.bufferSize, s.handlers, s.inboxes, s.closed, a.msg).None?) {
      NewChannelKeepsChannels(s, Apply(s, a), a.token, a.msg);
    } else {
      assert Apply(s, a).channels == s.channels;
    }
  }

  lemma StepKeepsCorrelated(s: Bus, a: Action)
    requires SingleFile(s) && Channels(s) && Correlated(s) && Enabled(s, a)
    ensures Correlated(Apply(s, a))
  {
    if a.Finish? {
      FinishKeepsCorrelated(s, a.token, a.outcome);
    } else {
      assert Apply(s, a).answers == s.answers;
    }
  }

  lemma FinishKeepsCorrelated(s: Bus, token: Token, outcome: Outcome)
    requires SingleFile(s) && Correlated(s) && Enabled(s, Finish(token, outcome))
    ensures Correlated(Apply(s, Finish(token, outcome)))
  {
  }

  lemma StepKeepsInv(s: Bus, a: Action)
    requires Inv(s) && Enabled(s, a)
    ensures Inv(Apply(s, a)) && Apply(s, a).bufferSize == s.bufferSize
  {
    StepKeepsRegistration(s, a);
    StepKeepsConserved(s, a);
    StepKeepsChannels(s, a);
    StepKeepsCorrelated(s, a);
  }

  /** The invariant holds at every point of every run, through re-registration, time-outs,
      handler panics and close. */
  lemma {:induction false} RunKeepsInv(run: seq<Bus>, acts: seq<Action>, n: nat)
    requires IsRun(run, acts) && n < |run|
    ensures Inv(run[n]) && run[n].bufferSize == run[0].bufferSize
  {
    if n > 0 {
      RunKeepsInv(run, acts, n - 1);
      StepKeepsInv(run[n - 1], acts[n - 1]);
    }
  }

  // ---- What callers can rely on ----

  /** Every accepted request is in one place, and the places count up to the requests accepted. */
  lemma AcceptedIsConserved(run: seq<Bus>, acts: seq<Action>, n: nat)
    requires IsRun(run, acts) && n < |run|
    ensures |run[n].accepted| == |Queued(run[n].inboxes)| + |run[n].running| + |run[n].answers|
    ensures forall t :: t in run[n].accepted <==> t in Queued(run[n].inboxes) || t in run[n].running || t in run[n].answers
  {
    RunKeepsInv(run, acts, n);
    var s := run[n];
    assert |s.accepted.Keys| == |Queued(s.inboxes) + s.running.Keys + s.answers.Keys|;
    assert |s.running.Keys| == |s.running| && |s.answers.Keys| == |s.answers|;
  }

  /** A send, which an open bus alone lets through, never meets a closed inbox, so the recovery around
      it is never needed, a registration on an open bus never closes an inbox twice, and no inbox
      outgrows its buffer. */
  lemma NoSendOnClosedInbox(run: seq<Bus>, acts: seq<Action>, n: nat, key: Key)
    requires IsRun(run, acts) && n < |run| && key in run[n].handlers
    ensures run[n].handlers[key] in run[n].inboxes
    ensures run[n].inboxes[run[n].handlers[key]].closed ==> run[n].closed
    ensures forall b :: b in run[n].inboxes ==> |run[n].inboxes[b].queue| <= run[0].bufferSize
  {
    RunKeepsInv(run, acts, n);
    assert run[n].handlers[key] in run[n].handlers.Values;
  }

  /** Request `t` stays accepted as it was, and its reply, if it has one, is the same. */
  ghost predicate SameReply(s: Bus, s': Bus, t: Token) {
    && (t in s.accepted ==> t in s'.accepted && s'.accepted[t] == s.accepted[t])
    && (t in s.answers ==> t in s'.answers && s'.answers[t] == s.answers[t])
  }

  lemma StepKeepsReply(s: Bus, a: Action, t: Token)
    requires Conserved(s) && Channels(s) && Enabled(s, a)
    ensures SameReply(s, Apply(s, a), t)
  {
    if a.Finish? {
      assert a.token !in s.answers;
    } else {
      assert Apply(s, a).answers == s.answers;
    }
  }

  lemma PointKeepsReply(run: seq<Bus>, acts: seq<Action>, n: nat, t: Token)
    requires IsRun(run, acts) && n < |acts|
    ensures SameReply(run[n], run[n + 1], t)
  {
    RunKeepsInv(run, acts, n);
    StepKeepsReply(run[n], acts[n], t);
  }

  lemma SameReplyTwice(s: Bus, m: Bus, s': Bus, t: Token)
    requires SameReply(s, m, t) && SameReply(m, s', t)
    ensures SameReply(s, s', t)
  {
  }

  /** A request that is accepted stays so, and a reply once sent is never replaced by another one. */
  lemma {:induction false} OneReplyEach(run: seq<Bus>, acts: seq<Action>, i: nat, n: nat, t: Token)
    requires IsRun(run, acts) && i <= n < |run|
    ensures SameReply(run[i], run[n], t)
    decreases n - i
  {
    if i < n {
      OneReplyEach(run, acts, i, n - 1, t);
      PointKeepsReply(run, acts, n - 1, t);
      SameReplyTwice(run[i], run[n - 1], run[n], t);
    }
  }

  /** What a caller gets back is the reply to its own request: an answer carries the request's id
      and trace, with source and target exchanged. */
  lemma ReplyBelongsToCaller(run: seq<Bus>, acts: seq<Action>, n: nat, t: Token)
    requires IsRun(run, acts) && n < |run| && t in run[n].callers && run[n].callers[t].Returned?
    ensures t in run[n].accepted && t in run[n].answers && run[n].callers[t].reply == run[n].answers[t]
    ensures run[n].callers[t].reply.Answer? ==>
      var request, reply := run[n].accepted[t], run[n].callers[t].reply.msg;
      reply.id == request.id && reply.trace == request.trace && reply.source == request.target && reply.target == request.source
  {
    RunKeepsInv(run, acts, n);
  }

  lemma CloseShuts(s: Bus, key: Key)
    requires Registration(s) && !s.closed
    ensures Apply(s, Close).closed && (Panics(Apply(s, Close), key) <==> key in s.handlers)
  {
    assert key in s.handlers ==> s.handlers[key] in s.handlers.Values;
  }

  /** On a closed bus a step neither opens an inbox again nor closes one that was opened since. */
  lemma StepKeepsShut(s: Bus, a: Action, key: Key)
    requires Registration(s) && s.closed && Enabled(s, a)
    ensures Apply(s, a).closed && (Panics(Apply(s, a), key) <==> Panics(s, key))
  {
    if a.Handle? {
      assert key in s.handlers && key != a.key && a.key in s.handlers ==> s.handlers[key] != s.handlers[a.key];
    }
  }

  lemma PointKeepsShut(run: seq<Bus>, acts: seq<Action>, n: nat, key: Key)
    requires IsRun(run, acts) && n < |acts| && run[n].closed
    ensures run[n + 1].closed && (Panics(run[n + 1], key) <==> Panics(run[n], key))
  {
    RunKeepsInv(run, acts, n);
    StepKeepsShut(run[n], acts[n], key);
  }

  lemma PointShuts(run: seq<Bus>, acts: seq<Action>, n: nat, key: Key)
    requires IsRun(run, acts) && n < |acts| && acts[n].Close? && !run[n].closed
    ensures run[n + 1].closed && (Panics(run[n + 1], key) <==> key in run[n].handlers)
  {
    RunKeepsInv(run, acts, n);
    CloseShuts(run[n], key);
  }

  /** After close, registering a handler would close an inbox for the second time, which panics, exactly
      for the keys that had a handler when the bus was closed. A key that is new is accepted. */
  lemma {:induction false} RegistrationAfterClose(run: seq<Bus>, acts: seq<Action>, i: nat, n: nat, key: Key)
    requires IsRun(run, acts) && i < n < |run| && acts[i].Close? && !run[i].closed
    ensures run[n].closed && (Panics(run[n], key) <==> key in run[i].handlers)
    decreases n
  {
    if n == i + 1 {
      PointShuts(run, acts, i, key);
    } else {
      RegistrationAfterClose(run, acts, i, n - 1, key);
      PointKeepsShut(run, acts, n - 1, key);
    }
  }

  // ---- Replies say what handlers did ----

  /** The reply says what the handler did: its response, its error, or that it panicked and why. */
  ghost predicate Reports(outcome: Outcome, reply: Reply) {
    match outcome
    case Respond(resp) => reply.Answer? && reply.msg.payload == resp.payload && reply.msg.topic == resp.topic
    case Fail(e) => reply == Failure(e)
    case Panic(cause) => reply.Failure? && exists prefix: string :: reply.error == prefix + cause
  }

  /** Step `i` is the end of the goroutine that handles request `t`. */
  predicate FinishesAt(acts: seq<Action>, i: nat, t: Token) {
    i < |acts| && acts[i].Finish? && acts[i].token == t
  }

  /** The reply so far to request `t` reports the one end of its handler, or there is none of either. */
  ghost predicate Reported(run: seq<Bus>, acts: seq<Action>, n: nat, t: Token)
    requires n < |run|
  {
    if t in run[n].answers then
      exists i: nat :: i < n && FinishesAt(acts, i, t) && Reports(acts[i].outcome, run[n].answers[t]) && OnlyFinish(acts, i, n, t)
    else
      forall i: nat :: i < n ==> !FinishesAt(acts, i, t)
  }

  ghost predicate OnlyFinish(acts: seq<Action>, i: nat, n: nat, t: Token) {
    forall j: nat :: j < n && FinishesAt(acts, j, t) ==> j == i
  }

  lemma StepReports(s: Bus, a: Action, t: Token)
    requires Conserved(s) && Enabled(s, a)
    ensures var s' := Apply(s, a);
      if a.Finish? && a.token == t then t !in s.answers && t in s'.answers && Reports(a.outcome, s'.answers[t])
      else (t in s'.answers <==> t in s.answers) && (t in s.answers ==> s'.answers[t] == s.answers[t])
  {
    if a.Finish? && a.token == t && a.outcome.Panic? {
      assert Apply(s, a).answers[t].error == "ipc: handler panicked: " + a.outcome.cause;
    }
  }

  lemma PointReports(run: seq<Bus>, acts: seq<Action>, n: nat, t: Token)
    requires IsRun(run, acts) && n < |acts|
    ensures if FinishesAt(acts, n, t) then t !in run[n].answers && t in run[n + 1].answers && Reports(acts[n].outcome, run[n + 1].answers[t])
      else (t in run[n + 1].answers <==> t in run[n].answers) && (t in run[n].answers ==> run[n + 1].answers[t] == run[n].answers[t])
  {
    RunKeepsInv(run, acts, n);
    StepReports(run[n], acts[n], t);
  }

  lemma ReportedNext(run: seq<Bus>, acts: seq<Action>, n: nat, t: Token)
    requires |run| == |acts| + 1 && n < |acts| && Reported(run, acts, n, t)
    requires if FinishesAt(acts, n, t) then t !in run[n].answers && t in run[n + 1].answers && Reports(acts[n].outcome, run[n + 1].answers[t])
      else (t in run[n + 1].answers <==> t in run[n].answers) && (t in run[n].answers ==> run[n + 1].answers[t] == run[n].answers[t])
    ensures Reported(run, acts, n + 1, t)
  {
    if FinishesAt(acts, n, t) {
      assert OnlyFinish(acts, n, n + 1, t);
    } else if t in run[n].answers {
      var i: nat :| i < n && FinishesAt(acts, i, t) && Reports(acts[i].outcome, run[n].answers[t]) && OnlyFinish(acts, i, n, t);
      assert OnlyFinish(acts, i, n + 1, t);
    }
  }

  lemma PointKeepsReported(run: seq<Bus>, acts: seq<Action>, n: nat, t: Token)
    requires IsRun(run, acts) && n < |acts| && Reported(run, acts, n, t)
    ensures Reported(run, acts, n + 1, t)
  {
    PointReports(run, acts, n, t);
    ReportedNext(run, acts, n, t);
  }

  lemma {:induction false} RunReports(run: seq<Bus>, acts: seq<Action>, n: nat, t: Token)
    requires IsRun(run, acts) && n < |run|
    ensures Reported(run, acts, n, t)
  {
    if n > 0 {
      RunReports(run, acts, n - 1, t);
      PointKeepsReported(run, acts, n - 1, t);
    }
  }

  /** What a caller gets back is what the handler of its request did, and the handler ran to its end once:
      an answer exactly if it responded, with the payload and topic of its response, and otherwise its
      error, or the cause of its panic. */
  lemma CallerLearnsOutcome(run: seq<Bus>, acts: seq<Action>, n: nat, t: Token) returns (i: nat)
    requires IsRun(run, acts) && n < |run| && t in run[n].callers && run[n].callers[t].Returned?
    ensures i < n && FinishesAt(acts, i, t) && OnlyFinish(acts, i, n, t) && Reports(acts[i].outcome, run[n].callers[t].reply)
    ensures run[n].callers[t].reply.Answer? <==> acts[i].outcome.Respond?
    ensures t in run[n].accepted && (run[n].callers[t].reply.Answer? ==>
      var request, reply := run[n].accepted[t], run[n].callers[t].reply.msg;
      reply.id == request.id && reply.trace == request.trace && reply.source == request.target && reply.target == request.source)
  {
    ReplyBelongsToCaller(run, acts, n, t);
    RunReports(run, acts, n, t);
    i :| i < n && FinishesAt(acts, i, t) && Reports(acts[i].outcome, run[n].answers[t]) && OnlyFinish(acts, i, n, t);
  }

  // ---- Each handler gets its own requests, in order ----

  function Tokens(queue: seq<Envelope>): seq<Token> {
    if queue == [] then [] else Tokens(queue[..|queue| - 1]) + [queue[|queue| - 1].token]
  }

  ghost function QueueOf(s: Bus, b: BoxId): seq<Envelope> {
    if b in s.inboxes then s.inboxes[b].queue else []
  }

  /** The request that a step accepts for the handler of inbox `b`: it is that of the key at that moment. */
  ghost function Accepts(s: Bus, a: Action, b: BoxId): seq<Token> {
    if a.Send? && Refusal(s.bufferSize, s.handlers, s.inboxes, s.closed, a.msg).None? && s.handlers[KeyOf(a.msg)] == b then [a.token]
    else if a.HandOver? && KeyOf(a.msg) in s.handlers && s.handlers[KeyOf(a.msg)] == b then [a.token]
    else []
  }

  /** The request that a step hands to the handler of inbox `b`. */
  ghost function Runs(s: Bus, a: Action, b: BoxId): seq<Token> {
    if a.Consume? && a.box == b && QueueOf(s, b) != [] then [QueueOf(s, b)[0].token]
    else if a.HandOver? && KeyOf(a.msg) in s.handlers && s.handlers[KeyOf(a.msg)] == b then [a.token]
    else []
  }

  /** The requests accepted for the handler of inbox `b`, and those it was given, in the first `n` steps. */
  ghost function Accepted(run: seq<Bus>, acts: seq<Action>, n: nat, b: BoxId): seq<Token>
    requires |run| == |acts| + 1 && n <= |acts|
  {
    if n == 0 then [] else Accepted(run, acts, n - 1, b) + Accepts(run[n - 1], acts[n - 1], b)
  }

  ghost function Given(run: seq<Bus>, acts: seq<Action>, n: nat, b: BoxId): seq<Token>
    requires |run| == |acts| + 1 && n <= |acts|
  {
    if n == 0 then [] else Given(run, acts, n - 1, b) + Runs(run[n - 1], acts[n - 1], b)
  }

  lemma TokensAppend(queue: seq<Envelope>, e: Envelope)
    ensures Tokens(queue + [e]) == Tokens(queue) + [e.token]
  {
    assert (queue + [e])[..|queue|] == queue;
  }

  lemma {:induction false} TokensHead(queue: seq<Envelope>)
    requires queue != []
    ensures Tokens(queue) == [queue[0].token] + Tokens(queue[1..])
    decreases |queue|
  {
    if |queue| > 1 {
      var front := queue[..|queue| - 1];
      TokensHead(front);
      assert front[1..] == queue[1..][..|queue| - 2];
    }
  }

  lemma OthersKeepQueue(s: Bus, a: Action, b: BoxId)
    requires Enabled(s, a) && Accepts(s, a, b) == [] && Runs(s, a, b) == []
    ensures QueueOf(Apply(s, a), b) == QueueOf(s, b)
  {
  }

  /** What one step does to the queue of inbox `b`. */
  lemma StepMovesQueue(s: Bus, a: Action, b: BoxId)
    requires Enabled(s, a)
    ensures Tokens(QueueOf(s, b)) + Accepts(s, a, b) == Runs(s, a, b) + Tokens(QueueOf(Apply(s, a), b))
  {
    var q := QueueOf(s, b);
    if Accepts(s, a, b) == [] && Runs(s, a, b) == [] {
      OthersKeepQueue(s, a, b);
    } else if a.Consume? {
      TokensHead(q);
    } else if a.Send? {
      TokensAppend(q, Envelope(a.token, a.msg));
    }
  }

  lemma PointMovesQueue(run: seq<Bus>, acts: seq<Action>, n: nat, b: BoxId)
    requires IsRun(run, acts) && n < |acts|
    ensures Tokens(QueueOf(run[n], b)) + Accepts(run[n], acts[n], b) == Runs(run[n], acts[n], b) + Tokens(QueueOf(run[n + 1], b))
  {
    StepMovesQueue(run[n], acts[n], b);
  }

  lemma Rebalance(given: seq<Token>, waiting: seq<Token>, accepts: seq<Token>, runs: seq<Token>, waitingNext: seq<Token>)
    requires waiting + accepts == runs + waitingNext
    ensures given + waiting + accepts == given + runs + waitingNext
  {
    assert given + waiting + accepts == given + (waiting + accepts);
    assert given + runs + waitingNext == given + (runs + waitingNext);
  }

  /** Everything accepted for inbox `b` has been given to its handler or waits, in the order of acceptance. */
  ghost predicate InOrder(run: seq<Bus>, acts: seq<Action>, n: nat, b: BoxId)
    requires |run| == |acts| + 1 && n <= |acts|
  {
    Accepted(run, acts, n, b) == Given(run, acts, n, b) + Tokens(QueueOf(run[n], b))
  }

  lemma InOrderNext(run: seq<Bus>, acts: seq<Action>, n: nat, b: BoxId)
    requires |run| == |acts| + 1 && n < |acts| && InOrder(run, acts, n, b)
    requires Tokens(QueueOf(run[n], b)) + Accepts(run[n], acts[n], b) == Runs(run[n], acts[n], b) + Tokens(QueueOf(run[n + 1], b))
    ensures InOrder(run, acts, n + 1, b)
  {
    Rebalance(Given(run, acts, n, b), Tokens(QueueOf(run[n], b)), Accepts(run[n], acts[n], b), Runs(run[n], acts[n], b),
              Tokens(QueueOf(run[n + 1], b)));
  }

  lemma PointInOrder(run: seq<Bus>, acts: seq<Action>, n: nat, b: BoxId)
    requires IsRun(run, acts) && n < |acts| && InOrder(run, acts, n, b)
    ensures InOrder(run, acts, n + 1, b)
  {
    PointMovesQueue(run, acts, n, b);
    InOrderNext(run, acts, n, b);
  }

  /** A handler is given exactly the requests that were accepted while it was the one registered, in the
      order in which they were accepted; what it has not been given yet waits in its inbox, through
      re-registration and close. */
  lemma {:induction false} FirstInFirstOut(run: seq<Bus>, acts: seq<Action>, n: nat, b: BoxId)
    requires IsRun(run, acts) && n < |run|
    ensures InOrder(run, acts, n, b)
  {
    if n > 0 {
      FirstInFirstOut(run, acts, n - 1, b);
      PointInOrder(run, acts, n - 1, b);
    }
  }
}

/** The bus object of kernel/ipc/bus.go: its critical sections as methods. */
module IpcBusObject {
  import opened Common
  import opened IpcBus

  class MessageBus {
    const bufferSize: nat
    var handlers: map<Key, BoxId>
    var inboxes: map<BoxId, Inbox>
    var closed: bool
    var nextBox: BoxId

    ghost function View(): Bus
      reads this
    {
      NewBus(bufferSize).(handlers := handlers, inboxes := inboxes, closed := closed)
    }

    ghost predicate Valid()
      reads this
    {
      Registration(View()) && forall b :: b in inboxes ==> b < nextBox
    }

    constructor (bufferSize: nat)
      ensures Valid() && this.bufferSize == bufferSize && handlers == map[] && inboxes == map[] && !closed
    {
      this.bufferSize := bufferSize;
      handlers, inboxes, closed, nextBox := map[], map[], false, 0;
    }

    /** Register a handler; the inbox of the one it replaces is closed. */
    method Handle(key: Key)
      requires Valid() && !Panics(View(), key)
      modifies this`handlers, this`inboxes, this`nextBox
      ensures Valid()
      ensures handlers == old(handlers)[key := old(nextBox)]
      ensures inboxes == Reregistered(old(handlers), old(inboxes), key, old(nextBox))
    {
      HandleKeepsRegistration(View(), key, nextBox);
      if key in handlers {
        var prev := handlers[key];
        inboxes := inboxes[prev := inboxes[prev].(closed := true)];
      }
      inboxes := inboxes[nextBox := Inbox([], false)];
      handlers := handlers[key := nextBox];
      nextBox := nextBox + 1;
    }

    /** The first half of a request: find the inbox and try to put the request in. */
    method Send(token: Token, msg: Message) returns (err: Option<SendError>)
      requires Valid()
      modifies this`inboxes
      ensures Valid()
      ensures err == Refusal(bufferSize, handlers, old(inboxes), closed, msg)
      ensures err == Some(BusClosed) <==> closed
      ensures err == Some(NoHandler) <==> !closed && KeyOf(msg) !in handlers
      ensures err == Some(Overloaded) <==>
        !closed && KeyOf(msg) in handlers && handlers[KeyOf(msg)] in old(inboxes) && |old(inboxes)[handlers[KeyOf(msg)]].queue| == bufferSize
      ensures err.Some? ==> inboxes == old(inboxes)
      ensures err.None? ==> KeyOf(msg) in handlers && handlers[KeyOf(msg)] in old(inboxes)
      ensures err.None? ==> inboxes == Delivered(handlers, old(inboxes), token, msg)
    {
      if closed {
        return Some(BusClosed);
      }
      if KeyOf(msg) !in handlers {
        return Some(NoHandler);
      }
      var b := handlers[KeyOf(msg)];
      assert b in handlers.Values;
      if |inboxes[b].queue| >= bufferSize {
        return Some(Overloaded);
      }
      inboxes := inboxes[b := inboxes[b].(queue := inboxes[b].queue + [Envelope(token, msg)])];
      return None;
    }

    /** Close every registered inbox, once, and with it every inbox; a second close does nothing. */
    method Close()
      requires Valid()
      modifies this`inboxes, this`closed
      ensures Valid() && closed
      ensures inboxes == if old(closed) then old(inboxes) else AllClosed(handlers, old(inboxes))
      ensures !old(closed) ==> forall b :: b in inboxes ==> inboxes[b].closed && inboxes[b].queue == old(inboxes)[b].queue
    {
      if closed {
        return;
      }
      closed := true;
      var rest := handlers.Keys;
      while rest != {}
        invariant closed && rest <= handlers.Keys && PartlyClosed(handlers, rest, old(inboxes), inboxes)
        decreases rest
      {
        var k :| k in rest;
        CloseOne(handlers, rest, old(inboxes), inboxes, k);
        inboxes := inboxes[handlers[k] := inboxes[handlers[k]].(closed := true)];
        rest := rest - {k};
      }
      CloseLast(handlers, old(inboxes), inboxes);
    }
  }

  /** The closing loop, with the keys of `rest` still to visit. */
  ghost predicate PartlyClosed(handlers: map<Key, BoxId>, rest: set<Key>, before: map<BoxId, Inbox>, inboxes: map<BoxId, Inbox>) {
    && inboxes.Keys == before.Keys
    && forall b :: b in inboxes ==> inboxes[b] == if ClosedSoFar(handlers, rest, b) then before[b].(closed := true) else before[b]
  }

  lemma CloseOne(handlers: map<Key, BoxId>, rest: set<Key>, before: map<BoxId, Inbox>, inboxes: map<BoxId, Inbox>, k: Key)
    requires PartlyClosed(handlers, rest, before, inboxes) && k in rest && rest <= handlers.Keys && handlers[k] in inboxes
    ensures PartlyClosed(handlers, rest - {k}, before, inboxes[handlers[k] := inboxes[handlers[k]].(closed := true)])
  {
    assert forall c :: ClosedSoFar(handlers, rest - {k}, c) <==> ClosedSoFar(handlers, rest, c) || c == handlers[k];
  }

  lemma CloseLast(handlers: map<Key, BoxId>, before: map<BoxId, Inbox>, inboxes: map<BoxId, Inbox>)
    requires PartlyClosed(handlers, {}, before, inboxes)
    ensures inboxes == AllClosed(handlers, before)
  {
    assert forall b :: ClosedSoFar(handlers, {}, b) <==> b in handlers.Values;
  }

  ghost predicate ClosedSoFar(handlers: map<Key, BoxId>, rest: set<Key>, b: BoxId) {
    exists k :: k in handlers && k !in rest && handlers[k] == b
  }
}
