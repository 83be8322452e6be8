/**
 * The pending-request table shared by init, confirm, select and status
 * (src/services/job_apply.rs, src/services/select.rs, src/services/status.rs), as a state
 * machine: every access to the table, to a one-shot channel and every wake-up of a waiting
 * request is one step, and the steps of all requests and callbacks interleave freely.
 */
module Callbacks {
  import opened JoinedKeys
  import opened JsonValue

  // ------------------------------------------------------------------------ state

  /** How a call removes its entry: init and confirm by the joined key, select and status by the bare transaction id. */
  datatype Kind = Apply | Lookup

  /** A callback's payload with the two ids of its context. */
  datatype Answer = Answer(txn: string, msg: string, body: Json)

  datatype Failure = PostError | TimedOut

  datatype Result = Payload(answer: Answer) | ChannelClosed | Failed(reason: Failure)

  /**
   * GivingUp: the request has failed and is about to remove its entry. Gone: its client has left while it
   * was waiting, and it runs no further.
   */
  datatype Phase = Posting | Awaiting | GivingUp(reason: Failure) | Done(result: Result) | Gone

  /** A one-shot channel: its sender is still around, or was used, or was dropped. */
  datatype Channel = Open | Sent(answer: Answer) | Closed

  datatype Call = Call(kind: Kind, txn: string, msg: string, phase: Phase, channel: Channel)

  datatype Flight = Flight(owner: nat, answer: Answer)

  datatype Delivery = Delivery(call: nat, answer: Answer)

  /**
   * pending maps joined keys to the call whose sender is stored there; flights are callbacks
   * between the removal of an entry and the send; log lists the successful sends.
   */
  datatype State = State(calls: map<nat, Call>, pending: map<string, nat>,
                         flights: map<nat, Flight>, log: seq<Delivery>)

  const INITIAL := State(map[], map[], map[], [])

  datatype Step =
    | Begin(c: nat, kind: Kind, txn: string, msg: string)
    | PostSucceeds(c: nat)
    | PostFails(c: nat)
    | Arrive(b: nat, answer: Answer)
    | Deliver(b: nat, serializes: bool)
    | Receive(c: nat)
    | TimeOut(c: nat)
    | Return(c: nat)
    | Disconnect(c: nat)

  function Key(call: Call): string {
    Join(call.txn, call.msg)
  }

  function RemovedKey(call: Call): string {
    if call.kind.Apply? then Key(call) else call.txn
  }

  /** The receiving half is dropped when the wait ends. */
  predicate Listening(call: Call) {
    !call.phase.Done? && !call.phase.Gone? && call.phase != GivingUp(TimedOut)
  }

  function WithPhase(s: State, c: nat, phase: Phase): State
    requires c in s.calls
  {
    s.(calls := s.calls[c := s.calls[c].(phase := phase)])
  }

  /** Dropping a sender closes its channel. */
  function Dropped(calls: map<nat, Call>, c: nat): map<nat, Call> {
    if c in calls && calls[c].channel.Open? then calls[c := calls[c].(channel := Closed)] else calls
  }

  function Removed(s: State, key: string): State {
    if key in s.pending then
      s.(pending := s.pending - {key}, calls := Dropped(s.calls, s.pending[key]))
    else s
  }

  function Registered(s: State, c: nat, call: Call): State {
    s.(calls := s.calls[c := call], pending := s.pending[Key(call) := c])
  }

  /** Inserting under an occupied key drops the sender that was there. */
  function OnBegin(s: State, c: nat, kind: Kind, txn: string, msg: string): State {
    if c in s.calls then s
    else Registered(Removed(s, Join(txn, msg)), c, Call(kind, txn, msg, Posting, Open))
  }

  function OnArrive(s: State, b: nat, answer: Answer): State {
    var key := Join(answer.txn, answer.msg);
    if b in s.flights || key !in s.pending then s
    else s.(pending := s.pending - {key}, flights := s.flights[b := Flight(s.pending[key], answer)])
  }

  function OnDeliver(s: State, b: nat, serializes: bool): State {
    if b !in s.flights then s
    else
      var f, landed := s.flights[b], s.(flights := s.flights - {b});
      if f.owner in s.calls && serializes && Listening(s.calls[f.owner]) then
        landed.(calls := s.calls[f.owner := s.calls[f.owner].(channel := Sent(f.answer))],
                log := s.log + [Delivery(f.owner, f.answer)])
      else landed.(calls := Dropped(s.calls, f.owner))
  }

  function OnReceive(s: State, c: nat): State {
    if c !in s.calls || !s.calls[c].phase.Awaiting? then s
    else
      match s.calls[c].channel
      case Open => s
      case Sent(answer) => WithPhase(s, c, Done(Payload(answer)))
      case Closed => WithPhase(s, c, Done(ChannelClosed))
  }

  function OnReturn(s: State, c: nat): State {
    if c in s.calls && s.calls[c].phase.GivingUp? then
      WithPhase(Removed(s, RemovedKey(s.calls[c])), c, Done(Failed(s.calls[c].phase.reason)))
    else s
  }

  /** A step that is not enabled changes nothing, so every list of steps is a run. */
  function Next(s: State, step: Step): State {
    match step
    case Begin(c, kind, txn, msg) => OnBegin(s, c, kind, txn, msg)
    case PostSucceeds(c) => if c in s.calls && s.calls[c].phase.Posting? then WithPhase(s, c, Awaiting) else s
    case PostFails(c) => if c in s.calls && s.calls[c].phase.Posting? then WithPhase(s, c, GivingUp(PostError)) else s
    case Arrive(b, answer) => OnArrive(s, b, answer)
    case Deliver(b, serializes) => OnDeliver(s, b, serializes)
    case Receive(c) => OnReceive(s, c)
    case TimeOut(c) =>
      if c in s.calls && s.calls[c].phase.Awaiting? && s.calls[c].channel.Open?
      then WithPhase(s, c, GivingUp(TimedOut)) else s
    case Return(c) => OnReturn(s, c)
    case Disconnect(c) =>
      if c in s.calls && (s.calls[c].phase.Posting? || s.calls[c].phase.Awaiting?) then WithPhase(s, c, Gone) else s
  }

  function Exec(s: State, steps: seq<Step>): State
    decreases |steps|
  {
    if steps == [] then s else Exec(Next(s, steps[0]), steps[1..])
  }

  // -------------------------------------------------------------------- invariant

  predicate Stored(s: State, c: nat) {
    c in s.calls && Key(s.calls[c]) in s.pending && s.pending[Key(s.calls[c])] == c
  }

  /** An entry belongs to an open call under its own key; no init or confirm call returns before it is gone. */
  ghost predicate EntriesOwned(s: State) {
    forall k :: k in s.pending ==>
      var c := s.pending[k];
      c in s.calls && Key(s.calls[c]) == k && s.calls[c].channel.Open? &&
      !(s.calls[c].kind.Apply? && s.calls[c].phase.Done?)
  }

  /** A sender in flight is no longer in the table, and in no other flight. */
  ghost predicate FlightsOwned(s: State) {
    (forall b :: b in s.flights ==>
      var f := s.flights[b];
      f.owner in s.calls && s.calls[f.owner].channel.Open? && !Stored(s, f.owner) &&
      Join(f.answer.txn, f.answer.msg) == Key(s.calls[f.owner])) &&
    (forall b, b' :: b in s.flights && b' in s.flights && b != b' ==> s.flights[b].owner != s.flights[b'].owner)
  }

  /** What a channel carries, and what a call returned, was addressed to the call. */
  ghost predicate AnswersAddressed(s: State) {
    forall c :: c in s.calls ==>
      var call := s.calls[c];
      (call.channel.Sent? ==> Join(call.channel.answer.txn, call.channel.answer.msg) == Key(call)) &&
      (call.phase.Done? && call.phase.result.Payload? ==> call.channel == Sent(call.phase.result.answer)) &&
      (call.phase == Done(ChannelClosed) ==> call.channel.Closed?)
  }

  ghost predicate Logged(s: State) {
    (forall i :: 0 <= i < |s.log| ==>
      s.log[i].call in s.calls && s.calls[s.log[i].call].channel == Sent(s.log[i].answer)) &&
    (forall i, j :: 0 <= i < j < |s.log| ==> s.log[i].call != s.log[j].call) &&
    (forall c :: c in s.calls && s.calls[c].channel.Sent? ==> Delivery(c, s.calls[c].channel.answer) in s.log)
  }

  ghost predicate Inv(s: State) {
    EntriesOwned(s) && FlightsOwned(s) && AnswersAddressed(s) && Logged(s)
  }

  lemma RemoveKeepsInv(s: State, key: string)
    requires Inv(s)
    ensures Inv(Removed(s, key))
  {}

  lemma RegisterKeepsInv(s: State, c: nat, call: Call)
    requires Inv(s) && c !in s.calls && Key(call) !in s.pending && call.channel.Open? && !call.phase.Done?
    ensures Inv(Registered(s, c, call))
  {
    hide Join;
  }

  lemma BeginKeepsInv(s: State, c: nat, kind: Kind, txn: string, msg: string)
    requires Inv(s)
    ensures Inv(OnBegin(s, c, kind, txn, msg))
  {
    if c !in s.calls {
      RemoveKeepsInv(s, Join(txn, msg));
      RegisterKeepsInv(Removed(s, Join(txn, msg)), c, Call(kind, txn, msg, Posting, Open));
    }
  }

  lemma ArriveKeepsInv(s: State, b: nat, answer: Answer)
    requires Inv(s)
    ensures Inv(OnArrive(s, b, answer))
  {}

  /** The sender of this call was taken out of its flight and is in nobody's hands but the callback's. */
  ghost predicate InHand(s: State, c: nat) {
    c in s.calls && s.calls[c].channel.Open? && !Stored(s, c) && forall b :: b in s.flights ==> s.flights[b].owner != c
  }

  lemma LandKeepsInv(s: State, b: nat)
    requires Inv(s) && b in s.flights
    ensures Inv(s.(flights := s.flights - {b})) && InHand(s.(flights := s.flights - {b}), s.flights[b].owner)
  {
    hide Join;
  }

  lemma CloseKeepsInv(s: State, c: nat)
    requires Inv(s) && InHand(s, c)
    ensures Inv(s.(calls := Dropped(s.calls, c)))
  {
    hide Join;
  }

  lemma SendKeepsInv(s: State, c: nat, answer: Answer)
    requires Inv(s) && InHand(s, c) && Join(answer.txn, answer.msg) == Key(s.calls[c]) && !s.calls[c].phase.Done?
    ensures Inv(s.(calls := s.calls[c := s.calls[c].(channel := Sent(answer))], log := s.log + [Delivery(c, answer)]))
  {
    hide Join;
  }

  lemma DeliverKeepsInv(s: State, b: nat, serializes: bool)
    requires Inv(s)
    ensures Inv(OnDeliver(s, b, serializes))
  {
    hide Inv;
    hide Join;
    if b in s.flights {
      var f, landed := s.flights[b], s.(flights := s.flights - {b});
      LandKeepsInv(s, b);
      if serializes && Listening(s.calls[f.owner]) {
        FlightIsAddressed(s, b);
        SendKeepsInv(landed, f.owner, f.answer);
      } else {
        CloseKeepsInv(landed, f.owner);
      }
    }
  }

  lemma FlightIsAddressed(s: State, b: nat)
    requires Inv(s) && b in s.flights
    ensures var f := s.flights[b];
      f.owner in s.calls && Join(f.answer.txn, f.answer.msg) == Key(s.calls[f.owner])
  {}

  /** A change of phase that does not end a stored init or confirm call, and reports only what was sent. */
  lemma PhaseKeepsInv(s: State, c: nat, phase: Phase)
    requires Inv(s) && c in s.calls
    requires phase.Done? && s.calls[c].kind.Apply? ==> !Stored(s, c)
    requires phase.Done? && phase.result.Payload? ==> s.calls[c].channel == Sent(phase.result.answer)
    requires phase == Done(ChannelClosed) ==> s.calls[c].channel.Closed?
    ensures Inv(WithPhase(s, c, phase))
  {}

  lemma ReturnKeepsInv(s: State, c: nat)
    requires Inv(s)
    ensures Inv(OnReturn(s, c))
  {
    if c in s.calls && s.calls[c].phase.GivingUp? {
      var key := RemovedKey(s.calls[c]);
      RemoveKeepsInv(s, key);
      PhaseKeepsInv(Removed(s, key), c, Done(Failed(s.calls[c].phase.reason)));
    }
  }

  lemma StepKeepsInv(s: State, step: Step)
    requires Inv(s)
    ensures Inv(Next(s, step))
  {
    match step
    case Begin(c, kind, txn, msg) => BeginKeepsInv(s, c, kind, txn, msg);
    case PostSucceeds(c) => if c in s.calls { PhaseKeepsInv(s, c, Awaiting); }
    case PostFails(c) => if c in s.calls { PhaseKeepsInv(s, c, GivingUp(PostError)); }
    case Arrive(b, answer) => ArriveKeepsInv(s, b, answer);
    case Deliver(b, serializes) => DeliverKeepsInv(s, b, serializes);
    case Receive(c) => ReceiveKeepsInv(s, c);
    case TimeOut(c) => if c in s.calls { PhaseKeepsInv(s, c, GivingUp(TimedOut)); }
    case Return(c) => ReturnKeepsInv(s, c);
    case Disconnect(c) => if c in s.calls { PhaseKeepsInv(s, c, Gone); }
  }

  lemma ReceiveKeepsInv(s: State, c: nat)
    requires Inv(s)
    ensures Inv(OnReceive(s, c))
  {
    if c in s.calls && s.calls[c].phase.Awaiting? && !s.calls[c].channel.Open? {
      var result := if s.calls[c].channel.Sent? then Payload(s.calls[c].channel.answer) else ChannelClosed;
      PhaseKeepsInv(s, c, Done(result));
    }
  }

  lemma {:induction false} RunKeepsInv(s: State, steps: seq<Step>)
    requires Inv(s)
    ensures Inv(Exec(s, steps))
    decreases |steps|
  {
    if steps != [] {
      StepKeepsInv(s, steps[0]);
      RunKeepsInv(Next(s, steps[0]), steps[1..]);
    }
  }

  // ---------------------------------------------------------------- what every run keeps

  /**
   * In every interleaving a call returns at most one payload, the one sent to it, addressed to
   * the key it registered: to both its ids when the message ids contain no ':'. No two sends
   * reach the same call.
   */
  lemma EveryCallGetsItsOwnAnswer(steps: seq<Step>, c: nat)
    ensures var s := Exec(INITIAL, steps);
      (c in s.calls && s.calls[c].phase.Done? && s.calls[c].phase.result.Payload? ==>
        var call, answer := s.calls[c], s.calls[c].phase.result.answer;
        Delivery(c, answer) in s.log &&
        Join(answer.txn, answer.msg) == Key(call) &&
        (':' !in call.msg && ':' !in answer.msg ==> answer.txn == call.txn && answer.msg == call.msg)) &&
      (forall i, j :: 0 <= i < j < |s.log| ==> s.log[i].call != s.log[j].call)
  {
    RunKeepsInv(INITIAL, steps);
    var s := Exec(INITIAL, steps);
    if c in s.calls && s.calls[c].phase.Done? && s.calls[c].phase.result.Payload? {
      var call, answer := s.calls[c], s.calls[c].phase.result.answer;
      assert call.channel == Sent(answer);
      if ':' !in call.msg && ':' !in answer.msg {
        JoinIsInjective(answer.txn, answer.msg, call.txn, call.msg);
      }
    }
  }

  /** Every send went to the call that had registered the callback's key. */
  lemma EverySendWasAddressed(steps: seq<Step>, d: Delivery)
    requires d in Exec(INITIAL, steps).log
    ensures var s := Exec(INITIAL, steps);
      d.call in s.calls && Join(d.answer.txn, d.answer.msg) == Key(s.calls[d.call])
  {
    RunKeepsInv(INITIAL, steps);
  }

  /** No init or confirm call that has returned still owns an entry; with a key of its own the key is gone. */
  lemma ReturnedApplyLeavesNoKey(steps: seq<Step>, c: nat)
    requires c in Exec(INITIAL, steps).calls
    requires Exec(INITIAL, steps).calls[c].kind.Apply? && Exec(INITIAL, steps).calls[c].phase.Done?
    ensures var s := Exec(INITIAL, steps);
      !Stored(s, c) &&
      ((forall d :: d in s.calls && d != c ==> Key(s.calls[d]) != Key(s.calls[c])) ==> Key(s.calls[c]) !in s.pending)
  {
    RunKeepsInv(INITIAL, steps);
  }

  /** A callback for a registered key does reach the waiting call, and its entry is gone afterwards. */
  lemma AnswerReachesTheWaitingCall(steps: seq<Step>, c: nat, b: nat, answer: Answer)
    requires var s := Exec(INITIAL, steps);
      Stored(s, c) && s.calls[c].phase.Awaiting? && b !in s.flights && Join(answer.txn, answer.msg) == Key(s.calls[c])
    ensures var s := Exec(Exec(INITIAL, steps), [Arrive(b, answer), Deliver(b, true), Receive(c)]);
      c in s.calls && s.calls[c].phase == Done(Payload(answer)) && Join(answer.txn, answer.msg) !in s.pending
  {
    RunKeepsInv(INITIAL, steps);
    var s0 := Exec(INITIAL, steps);
    var s1 := Next(s0, Arrive(b, answer));
    var s2 := Next(s1, Deliver(b, true));
    ExecThree(s0, Arrive(b, answer), Deliver(b, true), Receive(c));
    assert s2.calls[c].channel == Sent(answer);
  }

  lemma ExecThree(s: State, x: Step, y: Step, z: Step)
    ensures Exec(s, [x, y, z]) == Next(Next(Next(s, x), y), z)
  {
    hide Next;
    assert [x, y, z][1..] == [y, z] && [y, z][1..] == [z] && [z][1..] == [];
    assert Exec(s, [x, y, z]) == Exec(Next(s, x), [y, z]);
    assert Exec(Next(s, x), [y, z]) == Exec(Next(Next(s, x), y), [z]);
  }

  // ---------------------------------------------------------- select and status leak

  /**
   * In every interleaving a call that has returned still owns its entry only if it is a select or
   * status call that failed.
   */
  lemma OnlyFailedLookupsLeaveTheirEntry(steps: seq<Step>, c: nat)
    requires Stored(Exec(INITIAL, steps), c) && Exec(INITIAL, steps).calls[c].phase.Done?
    ensures var call := Exec(INITIAL, steps).calls[c]; call.kind.Lookup? && call.phase.result.Failed?
  {
    RunKeepsInv(INITIAL, steps);
  }

  /** A failing call leaves its entry behind if and only if it is a select or status call whose entry is still there. */
  lemma FailingCallLeavesEntryIff(s: State, c: nat)
    requires c in s.calls && s.calls[c].phase.GivingUp?
    ensures var s' := Next(s, Return(c));
      c in s'.calls && s'.calls[c].phase.Done? && (Stored(s', c) <==> Stored(s, c) && s.calls[c].kind.Lookup?)
  {
    assert |s.calls[c].txn| < |Key(s.calls[c])|;
    ReturnEffect(s, c);
  }

  lemma ReturnEffect(s: State, c: nat)
    requires c in s.calls && s.calls[c].phase.GivingUp?
    ensures var s' := Next(s, Return(c));
      s'.pending == s.pending - {RemovedKey(s.calls[c])} && s'.calls.Keys == s.calls.Keys &&
      s'.calls[c].phase.Done? && (forall d :: d in s.calls ==> Key(s'.calls[d]) == Key(s.calls[d]))
  {}

  /** A call of any kind whose client leaves before an answer has come leaves its entry behind. */
  lemma DisconnectLeavesEntry(s: State, c: nat)
    requires Stored(s, c) && (s.calls[c].phase.Posting? || s.calls[c].phase.Awaiting?)
    ensures Stored(Next(s, Disconnect(c)), c) && Over(Next(s, Disconnect(c)).calls[c])
  {}

  /**
   * A failing call takes the entry of another waiting call away, and closes its channel, if and
   * only if the key it removes is the other's key: for select and status, if the bare
   * transaction id reads like a joined key.
   */
  lemma FailingCallEvictsIff(steps: seq<Step>, c: nat, d: nat)
    requires var s := Exec(INITIAL, steps);
      c in s.calls && s.calls[c].phase.GivingUp? && d != c && Stored(s, d)
    ensures var s := Exec(INITIAL, steps);
      var s' := Next(s, Return(c));
      (!Stored(s', d) <==> RemovedKey(s.calls[c]) == Key(s.calls[d])) &&
      (s'.calls[d].channel.Closed? <==> RemovedKey(s.calls[c]) == Key(s.calls[d]))
    ensures var s := Exec(INITIAL, steps);
      s.calls[c].kind.Lookup? && ':' !in s.calls[c].txn ==> Stored(Next(s, Return(c)), d)
  {
    RunKeepsInv(INITIAL, steps);
    var s := Exec(INITIAL, steps);
    var key := Key(s.calls[d]);
    assert key[|s.calls[d].txn|] == ':';
    hide Join;
  }

  function Eviction(txn: string, msg: string, other: string): seq<Step> {
    [Begin(0, Apply, txn, msg), Begin(1, Lookup, Join(txn, msg), other), PostFails(1), Return(1)]
  }

  /** Such a pair: a select or status call fails and an init or confirm call loses its entry. */
  lemma LookupCanEvict(txn: string, msg: string, other: string)
    requires other != msg
    ensures var s := Exec(INITIAL, Eviction(txn, msg, other));
      0 in s.calls && s.calls[0].phase.Posting? && s.calls[0].channel.Closed? && !Stored(s, 0)
  {
    var begin, rest := Begin(0, Apply, txn, msg), [Begin(1, Lookup, Join(txn, msg), other), PostFails(1), Return(1)];
    var s1 := Next(INITIAL, begin);
    assert ([begin] + rest)[1..] == rest && Exec(INITIAL, [begin] + rest) == Exec(s1, rest);
    ExecThree(s1, rest[0], rest[1], rest[2]);
    assert |Join(Join(txn, msg), other)| > |Join(txn, msg)|;
    var s2 := Next(s1, rest[0]);
    assert s2.pending[Join(txn, msg)] == 0;
    var s3 := Next(s2, rest[1]);
    assert s3.calls[1].phase == GivingUp(PostError) && RemovedKey(s3.calls[1]) == Join(txn, msg);
  }

  /** The step does not take, replace or remove the entry of this key. */
  predicate LeavesKey(s: State, step: Step, key: string) {
    match step
    case Begin(c, kind, txn, msg) => Join(txn, msg) != key
    case Arrive(b, answer) => Join(answer.txn, answer.msg) != key
    case Return(c) => c in s.calls ==> RemovedKey(s.calls[c]) != key
    case _ => true
  }

  predicate AllLeaveKey(s: State, steps: seq<Step>, key: string)
    decreases |steps|
  {
    steps == [] || (LeavesKey(s, steps[0], key) && AllLeaveKey(Next(s, steps[0]), steps[1..], key))
  }

  /** The call runs no further. */
  predicate Over(call: Call) {
    call.phase.Done? || call.phase.Gone?
  }

  lemma StepKeepsEntry(s: State, step: Step, c: nat)
    requires Inv(s) && Stored(s, c) && LeavesKey(s, step, Key(s.calls[c]))
    ensures Stored(Next(s, step), c) && Key(Next(s, step).calls[c]) == Key(s.calls[c])
    ensures Over(s.calls[c]) ==> Next(s, step).calls[c].phase == s.calls[c].phase
  {
    hide Join;
    match step
    case Begin(d, kind, txn, msg) => BeginKeepsEntry(s, d, kind, txn, msg, c);
    case Return(d) => ReturnKeepsEntry(s, d, c);
    case Deliver(b, serializes) => DeliverKeepsEntry(s, b, serializes, c);
    case PostSucceeds(d) =>
    case PostFails(d) =>
    case Arrive(b, answer) =>
    case Receive(d) =>
    case TimeOut(d) =>
    case Disconnect(d) =>
  }

  lemma BeginKeepsEntry(s: State, d: nat, kind: Kind, txn: string, msg: string, c: nat)
    requires Inv(s) && Stored(s, c) && Join(txn, msg) != Key(s.calls[c])
    ensures var s' := OnBegin(s, d, kind, txn, msg);
      Stored(s', c) && s'.calls[c] == s.calls[c]
  {
    RemoveSparesOthers(s, Join(txn, msg), c);
    hide Join;
    hide Inv;
  }

  lemma ReturnKeepsEntry(s: State, d: nat, c: nat)
    requires Inv(s) && Stored(s, c) && (d in s.calls ==> RemovedKey(s.calls[d]) != Key(s.calls[c]))
    ensures var s' := OnReturn(s, d);
      Stored(s', c) && Key(s'.calls[c]) == Key(s.calls[c]) &&
      (Over(s.calls[c]) ==> s'.calls[c].phase == s.calls[c].phase)
  {
    if d in s.calls {
      RemoveSparesOthers(s, RemovedKey(s.calls[d]), c);
    }
    hide Join;
    hide Inv;
  }

  lemma DeliverKeepsEntry(s: State, b: nat, serializes: bool, c: nat)
    requires Inv(s) && Stored(s, c)
    ensures var s' := OnDeliver(s, b, serializes);
      Stored(s', c) && s'.calls[c] == s.calls[c]
  {
    hide Join;
  }

  lemma RemoveSparesOthers(s: State, key: string, c: nat)
    requires Inv(s) && Stored(s, c) && key != Key(s.calls[c])
    ensures Stored(Removed(s, key), c) && Removed(s, key).calls[c] == s.calls[c]
  {
    hide Join;
  }

  /**
   * The entry of a call that is over, a failed select or status call or any call whose client has
   * left, stays through every run in which no callback answers it and nobody registers or removes
   * the same key.
   */
  lemma {:induction false} LeakedEntryStays(s: State, steps: seq<Step>, c: nat)
    requires Inv(s) && Stored(s, c) && Over(s.calls[c]) && AllLeaveKey(s, steps, Key(s.calls[c]))
    ensures Stored(Exec(s, steps), c) && Exec(s, steps).calls[c].phase == s.calls[c].phase
    ensures Key(s.calls[c]) in Exec(s, steps).pending
    decreases |steps|
  {
    if steps != [] {
      StepKeepsEntry(s, steps[0], c);
      StepKeepsInv(s, steps[0]);
      LeakedEntryStays(Next(s, steps[0]), steps[1..], c);
    }
  }

  /** Such a call: the request to the adapter fails, the call returns, and its entry is left behind. */
  lemma LookupCanLeak(txn: string, msg: string)
    ensures var s := Exec(INITIAL, [Begin(0, Lookup, txn, msg), PostFails(0), Return(0)]);
      Stored(s, 0) && s.calls[0].phase == Done(Failed(PostError)) && Join(txn, msg) in s.pending
  {
    ExecThree(INITIAL, Begin(0, Lookup, txn, msg), PostFails(0), Return(0));
    var s := Next(Next(INITIAL, Begin(0, Lookup, txn, msg)), PostFails(0));
    assert Stored(s, 0) && |txn| < |Join(txn, msg)|;
    ReturnEffect(s, 0);
  }

  // -------------------------------------------------------------- every call can end

  lemma ExecTwo(s: State, x: Step, y: Step)
    ensures Exec(s, [x, y]) == Next(Next(s, x), y)
  {
    hide Next;
    assert [x, y][1..] == [y] && [y][1..] == [];
    assert Exec(s, [x, y]) == Exec(Next(s, x), [y]);
  }

  lemma ExecOne(s: State, x: Step)
    ensures Exec(s, [x]) == Next(s, x)
  {
    hide Next;
    assert [x][1..] == [];
  }

  ghost predicate EndsWith(s: State, c: nat, result: Result) {
    c in s.calls && s.calls[c].phase == Done(result)
  }

  lemma GivesUp(s: State, c: nat)
    requires c in s.calls && s.calls[c].phase.GivingUp?
    ensures EndsWith(Next(s, Return(c)), c, Failed(s.calls[c].phase.reason))
  {}

  /**
   * In every state a call that has not ended is at most two steps from its end: a failing post or
   * an expired wait reports that failure; a sent answer is returned, a closed channel reported.
   */
  lemma EveryCallCanEnd(s: State, c: nat)
    requires c in s.calls
    ensures s.calls[c].phase.Posting? ==> EndsWith(Exec(s, [PostFails(c), Return(c)]), c, Failed(PostError))
    ensures s.calls[c].phase.Awaiting? && s.calls[c].channel.Open? ==>
      EndsWith(Exec(s, [TimeOut(c), Return(c)]), c, Failed(TimedOut))
    ensures s.calls[c].phase.Awaiting? && s.calls[c].channel.Sent? ==>
      EndsWith(Exec(s, [Receive(c)]), c, Payload(s.calls[c].channel.answer))
    ensures s.calls[c].phase.Awaiting? && s.calls[c].channel.Closed? ==>
      EndsWith(Exec(s, [Receive(c)]), c, ChannelClosed)
    ensures s.calls[c].phase.GivingUp? ==>
      EndsWith(Exec(s, [Return(c)]), c, Failed(s.calls[c].phase.reason))
  {
    ExecTwo(s, PostFails(c), Return(c));
    ExecTwo(s, TimeOut(c), Return(c));
    ExecOne(s, Receive(c));
    ExecOne(s, Return(c));
    hide Exec;
    hide OnReturn;
    if s.calls[c].phase.Posting? {
      GivesUp(Next(s, PostFails(c)), c);
    }
    if s.calls[c].phase.Awaiting? && s.calls[c].channel.Open? {
      GivesUp(Next(s, TimeOut(c)), c);
    }
    if s.calls[c].phase.GivingUp? {
      GivesUp(s, c);
    }
  }

  /** A new call is posting, listens on an open channel and owns its key; a call that held the key is closed. */
  lemma BeginRegisters(s: State, c: nat, kind: Kind, txn: string, msg: string)
    requires Inv(s) && c !in s.calls
    ensures var s' := Next(s, Begin(c, kind, txn, msg));
      Stored(s', c) && s'.calls[c] == Call(kind, txn, msg, Posting, Open) && s'.flights == s.flights &&
      (forall d :: d in s.calls ==> d in s'.calls) &&
      forall d :: d in s.calls ==>
        s'.calls[d] == if Stored(s, d) && Key(s.calls[d]) == Join(txn, msg)
                       then s.calls[d].(channel := Closed) else s.calls[d]
  {
    hide Join;
  }

  lemma PostedWaits(s: State, c: nat)
    requires Stored(s, c) && s.calls[c].phase.Posting?
    ensures var s' := Next(s, PostSucceeds(c));
      Stored(s', c) && s'.calls[c] == s.calls[c].(phase := Awaiting) && s'.flights == s.flights
  {
    hide Join;
  }

  /** A call and its answer from beginning to end, beside whatever else is going on. */
  lemma CallIsAnswered(s: State, c: nat, kind: Kind, txn: string, msg: string, b: nat, body: Json)
    requires Inv(s) && c !in s.calls && b !in s.flights
    ensures var answer := Answer(txn, msg, body);
      var posted := Exec(s, [Begin(c, kind, txn, msg), PostSucceeds(c)]);
      EndsWith(Exec(posted, [Arrive(b, answer), Deliver(b, true), Receive(c)]), c, Payload(answer)) &&
      EndsWith(Exec(posted, [Arrive(b, answer), Deliver(b, false), Receive(c)]), c, ChannelClosed)
  {
    var answer, s1 := Answer(txn, msg, body), Next(s, Begin(c, kind, txn, msg));
    BeginRegisters(s, c, kind, txn, msg);
    PostedWaits(s1, c);
    ExecTwo(s, Begin(c, kind, txn, msg), PostSucceeds(c));
    AnswerEnds(Next(s1, PostSucceeds(c)), c, b, answer);
    hide Exec;
    hide Next;
    hide Inv;
    hide Join;
  }

  /** A callback for a waiting call ends it: with the answer, or with a closed channel if that cannot be serialised. */
  lemma AnswerEnds(s: State, c: nat, b: nat, answer: Answer)
    requires Stored(s, c) && s.calls[c].phase.Awaiting? && s.calls[c].channel.Open? && b !in s.flights
    requires Join(answer.txn, answer.msg) == Key(s.calls[c])
    ensures EndsWith(Exec(s, [Arrive(b, answer), Deliver(b, true), Receive(c)]), c, Payload(answer))
    ensures EndsWith(Exec(s, [Arrive(b, answer), Deliver(b, false), Receive(c)]), c, ChannelClosed)
  {
    ExecThree(s, Arrive(b, answer), Deliver(b, true), Receive(c));
    ExecThree(s, Arrive(b, answer), Deliver(b, false), Receive(c));
    hide Exec;
    hide Next;
    TakenUp(s, c, b, answer);
    LandedIn(Next(s, Arrive(b, answer)), c, b, answer);
    Received(Next(Next(s, Arrive(b, answer)), Deliver(b, true)), c);
    Received(Next(Next(s, Arrive(b, answer)), Deliver(b, false)), c);
  }

  lemma TakenUp(s: State, c: nat, b: nat, answer: Answer)
    requires Stored(s, c) && b !in s.flights && Join(answer.txn, answer.msg) == Key(s.calls[c])
    ensures var s' := Next(s, Arrive(b, answer));
      b in s'.flights && s'.flights[b] == Flight(c, answer) && s'.calls == s.calls
  {
    hide Join;
  }

  lemma LandedIn(s: State, c: nat, b: nat, answer: Answer)
    requires b in s.flights && s.flights[b] == Flight(c, answer) && c in s.calls
    requires s.calls[c].phase.Awaiting? && s.calls[c].channel.Open?
    ensures var s' := Next(s, Deliver(b, true));
      c in s'.calls && s'.calls[c] == s.calls[c].(channel := Sent(answer))
    ensures var s' := Next(s, Deliver(b, false));
      c in s'.calls && s'.calls[c] == s.calls[c].(channel := Closed)
  {}

  lemma Received(s: State, c: nat)
    requires c in s.calls && s.calls[c].phase.Awaiting? && !s.calls[c].channel.Open?
    ensures s.calls[c].channel.Sent? ==> EndsWith(Next(s, Receive(c)), c, Payload(s.calls[c].channel.answer))
    ensures s.calls[c].channel.Closed? ==> EndsWith(Next(s, Receive(c)), c, ChannelClosed)
  {}

  /**
   * A callback that has taken the sender delivers if and only if its call still listens: it posts,
   * waits, or has failed to post. After that, and after a timeout, the answer is lost.
   */
  lemma DeliversIff(s: State, b: nat)
    requires Inv(s) && b in s.flights
    ensures var f, s' := s.flights[b], Next(s, Deliver(b, true));
      var phase := s.calls[f.owner].phase;
      if phase.Posting? || phase.Awaiting? || phase == GivingUp(PostError)
      then s'.log == s.log + [Delivery(f.owner, f.answer)] && s'.calls[f.owner].channel == Sent(f.answer)
      else s'.log == s.log && s'.calls[f.owner].channel == Closed
  {
    FlightIsAddressed(s, b);
    var phase := s.calls[s.flights[b].owner].phase;
    assert phase.GivingUp? ==> phase.reason == PostError || phase.reason == TimedOut;
    assert Listening(s.calls[s.flights[b].owner]) <==>
      phase.Posting? || phase.Awaiting? || phase == GivingUp(PostError);
    hide Join;
  }
}
