/** The INVITE and non-INVITE client transactions as step functions, and what every run
    of them does (sip/transaction.go, sections 17.1.1 and 17.1.2 of RFC 3261). */
module ClientTransactions {
  import opened Wrappers
  import opened Transactions

  /** `ackOk` tells whether an ACK can be built from the request and this response. */
  datatype Event =
    | Destroyed
    | Timer(tie: Pick)
    | FromUser(msg: Message)
    | Response(msg: Message, ackOk: bool)

  datatype Point =
    | AtStart
    | AtCalling(n: nat, a: nat, b: nat)
    | AtProceeding
    | AtCompleted
    | AtTrying(n: nat, e: nat, f: nat)
    | AtDone
    | Returned

  /** What is put on the wire: a copy of the request, or the ACK for a final response. */
  datatype Packet = Copy(request: Message) | Ack(response: Message)

  /** `callbacks` lists the errors handed to the error callback; `clock` is the time used
      up by the running timers since they were started; `provisionals` counts 1xx. */
  datatype Client = Client(
    point: Point,
    state: State,
    err: Option<Error>,
    request: Option<Message>,
    provisionalRes: Option<Message>,
    finalRes: Option<Message>,
    sent: seq<Packet>,
    callbacks: seq<Error>,
    clock: nat,
    provisionals: nat,
    panicked: bool)

  const InviteStart := Client(AtStart, Calling, None, None, None, None, [], [], 0, 0, false)
  const NonInviteStart := Client(AtStart, Trying, None, None, None, None, [], [], 0, 0, false)

  /** `Destroy`: closes the channels and reports the error, if there is one.  A second
      call closes a channel that is gone. */
  function Destroy(c: Client): Client {
    if c.state == Closed then c.(panicked := true)
    else c.(state := Closed, point := Returned,
            callbacks := if c.err.Some? then c.callbacks + [c.err.value] else c.callbacks)
  }

  function Fail(c: Client, err: Error): Client {
    Destroy(c.(err := Some(err)))
  }

  // INVITE client transaction

  function SendInvite(tm: Timing, c: Client, m: Message): Client {
    if !m.request || m.cseqMethod != "INVITE" then Fail(c, UnexpectedMessage)
    else c.(request := Some(m), sent := c.sent + [Copy(m)], point := AtCalling(0, tm.t1, 64 * tm.t1), clock := 0)
  }

  /** A 300-699 response: acknowledge it and wait for its repetitions. */
  function Acknowledge(c: Client, m: Message, ackOk: bool): Client {
    if !ackOk then Fail(c.(finalRes := Some(m)), NoAck)
    else c.(finalRes := Some(m), sent := c.sent + [Ack(m)], state := Completed, point := AtCompleted)
  }

  function CallingResponse(c: Client, m: Message, ackOk: bool): Client {
    if !m.response then Fail(c, UnexpectedMessage)
    else if 200 <= m.status < 300 then Destroy(c.(finalRes := Some(m)))
    else if 300 <= m.status < 700 then Acknowledge(c.(err := Some(NonSuccess(m.status))), m, ackOk)
    else if 100 <= m.status < 200 then c.(provisionalRes := Some(m), provisionals := c.provisionals + 1, state := Proceeding, point := AtProceeding)
    else c
  }

  function ProceedingResponse(c: Client, m: Message, ackOk: bool): Client {
    if !m.response then Fail(c, UnexpectedMessage)
    else if 100 <= m.status < 200 then c.(provisionalRes := Some(m), provisionals := c.provisionals + 1)
    else if 200 <= m.status < 300 then Destroy(c.(finalRes := Some(m)))
    else if 300 <= m.status < 700 then Acknowledge(c, m, ackOk)
    else c
  }

  function TimersAB(c: Client, tie: Pick): Client
    requires c.point.AtCalling?
  {
    var AtCalling(n, a, b) := c.point;
    match Earlier(a, b, tie)
    case First =>
      var resent := if c.request.Some? then c.sent + [Copy(c.request.value)] else c.sent;
      c.(sent := resent, clock := c.clock + a, point := AtCalling(n + 1, 2 * a, if a <= b then b - a else 0))
    case Second => Fail(c.(clock := c.clock + b), TimedOut)
  }

  function InviteStep(tm: Timing, c: Client, e: Event): Client {
    match e
    case Destroyed =>
      // the Calling loop notes the closing only after the callback is done
      if c.point.AtCalling? && c.state != Closed then Destroy(c).(err := Some(TransactionClosed)) else Destroy(c)
    case Timer(tie) =>
      (match c.point
       case AtCalling(_, _, _) => TimersAB(c, tie)
       case AtCompleted => Destroy(c)
       case _ => c)
    case FromUser(m) => if c.point.AtStart? then SendInvite(tm, c, m) else c
    case Response(m, ackOk) =>
      (match c.point
       case AtCalling(_, _, _) => CallingResponse(c, m, ackOk)
       case AtProceeding => ProceedingResponse(c, m, ackOk)
       case AtCompleted =>
         if 300 <= m.status < 700 && c.finalRes.Some? then c.(sent := c.sent + [Ack(c.finalRes.value)]) else c
       case _ => c)
  }

  function InviteRun(tm: Timing, es: seq<Event>): Client {
    if es == [] then InviteStart else InviteStep(tm, InviteRun(tm, es[..|es|-1]), es[|es|-1])
  }

  // Non-INVITE client transaction

  function EnterTrying(tm: Timing, c: Client): Client {
    c.(state := Proceeding, point := AtTrying(0, tm.t1, 64 * tm.t1), clock := 0)
  }

  function SendRequest(tm: Timing, c: Client, m: Message): Client {
    if !m.request || m.cseqMethod == "INVITE" then Fail(c, UnexpectedMessage)
    else EnterTrying(tm, c.(request := Some(m), sent := c.sent + [Copy(m)]))
  }

  /** Every provisional response restarts Timers E and F from the beginning. */
  function TryingResponse(tm: Timing, c: Client, m: Message): Client {
    if !m.response then Destroy(c)
    else if 100 <= m.status < 200 then
      EnterTrying(tm, c.(provisionalRes := Some(m), provisionals := c.provisionals + 1))
    else
      var c1 := if 300 <= m.status < 700 then c.(err := Some(NonSuccess(m.status))) else c;
      c1.(finalRes := Some(m), state := Completed, point := AtDone)
  }

  function TimersEF(tm: Timing, c: Client, tie: Pick): Client
    requires c.point.AtTrying?
  {
    var AtTrying(n, e, f) := c.point;
    match Earlier(e, f, tie)
    case First =>
      var resent := if c.request.Some? then c.sent + [Copy(c.request.value)] else c.sent;
      c.(sent := resent, clock := c.clock + e, point := AtTrying(n + 1, Doubled(e, tm.t2), if e <= f then f - e else 0))
    case Second => Fail(c.(clock := c.clock + f), TimedOut)
  }

  function NonInviteStep(tm: Timing, c: Client, e: Event): Client {
    match e
    case Destroyed => Destroy(c)
    case Timer(tie) =>
      (match c.point
       case AtTrying(_, _, _) => TimersEF(tm, c, tie)
       case AtDone => Destroy(c)
       case _ => c)
    case FromUser(m) => if c.point.AtStart? then SendRequest(tm, c, m) else c
    case Response(m, _) => if c.point.AtTrying? then TryingResponse(tm, c, m) else c
  }

  function NonInviteRun(tm: Timing, es: seq<Event>): Client {
    if es == [] then NonInviteStart else NonInviteStep(tm, NonInviteRun(tm, es[..|es|-1]), es[|es|-1])
  }

  // What goes on the wire

  /** Copies of one request, then copies of one ACK. */
  ghost predicate CopiesThenAcks(sent: seq<Packet>, request: Option<Message>, final: Option<Message>) {
    && (forall i :: 0 <= i < |sent| ==>
          (sent[i].Copy? && Some(sent[i].request) == request) || (sent[i].Ack? && Some(sent[i].response) == final))
    && (forall i, j :: 0 <= i < j < |sent| && sent[i].Ack? ==> sent[j].Ack?)
  }

  function Acks(sent: seq<Packet>): nat {
    if sent == [] then 0 else Acks(sent[..|sent|-1]) + (if sent[|sent|-1].Ack? then 1 else 0)
  }

  ghost predicate InviteInv(c: Client) {
    && (c.point.AtStart? ==> c.state == Calling && c.err.None? && c.request.None? && c.sent == [])
    && (c.point.AtCalling? ==> c.state == Calling && c.request.Some? && c.err.None?)
    && (c.point.AtProceeding? ==> c.state == Proceeding && c.err.None?)
    && (c.point.AtCompleted? ==> c.state == Completed && c.finalRes.Some? && c.finalRes.value.status >= 300)
    && (c.point.Returned? <==> c.state == Closed)
    && !(c.point.AtTrying? || c.point.AtDone?)
    && (c.point.AtStart? || c.point.AtCalling? || c.point.AtProceeding? ==> c.finalRes.None?)
    && (Acks(c.sent) > 0 ==> c.finalRes.Some? && c.finalRes.value.status >= 300)
    && (c.point.AtStart? || c.point.AtCalling? ==> c.provisionalRes.None?)
    && (c.finalRes.Some? ==> 200 <= c.finalRes.value.status < 700)
    && CopiesThenAcks(c.sent, c.request, c.finalRes)
    && (!c.point.Returned? ==> c.callbacks == [])
    && |c.callbacks| <= 1
  }

  lemma Resent(sent: seq<Packet>, m: Message)
    requires CopiesThenAcks(sent, Some(m), None) && Acks(sent) == 0
    ensures CopiesThenAcks(sent + [Copy(m)], Some(m), None) && Acks(sent + [Copy(m)]) == 0
  {
  }

  lemma FirstAck(sent: seq<Packet>, request: Option<Message>, m: Message)
    requires CopiesThenAcks(sent, request, None) && Acks(sent) == 0
    ensures CopiesThenAcks(sent, request, Some(m)) && CopiesThenAcks(sent + [Ack(m)], request, Some(m))
    ensures Acks(sent + [Ack(m)]) == 1
  {
  }

  lemma OneMoreAck(sent: seq<Packet>, request: Option<Message>, m: Message)
    requires CopiesThenAcks(sent, request, Some(m))
    ensures CopiesThenAcks(sent + [Ack(m)], request, Some(m)) && Acks(sent + [Ack(m)]) == Acks(sent) + 1
  {
  }

  lemma InviteInvStep(tm: Timing, c: Client, e: Event)
    requires InviteInv(c)
    ensures InviteInv(InviteStep(tm, c, e))
  {
    hide CopiesThenAcks, Acks;
    match e {
      case Response(m, _) =>
        if c.finalRes.None? { FirstAck(c.sent, c.request, m); }
        else { OneMoreAck(c.sent, c.request, c.finalRes.value); }
      case FromUser(m) =>
        if c.point.AtStart? { FirstCopy(m); assert c.sent + [Copy(m)] == [Copy(m)]; }
      case Timer(_) => if c.point.AtCalling? { Resent(c.sent, c.request.value); }
      case Destroyed =>
    }
  }

  lemma FirstCopy(m: Message)
    ensures CopiesThenAcks([Copy(m)], Some(m), None) && Acks([Copy(m)]) == 0
  {
  }

  /** Every run of the INVITE client transaction sends copies of its one request, then
      copies of the ACK for its one final response, and none for a 2xx; the error callback
      runs at most once. */
  lemma {:induction false} InviteWire(tm: Timing, es: seq<Event>)
    ensures InviteInv(InviteRun(tm, es))
    ensures var c := InviteRun(tm, es);
            && CopiesThenAcks(c.sent, c.request, c.finalRes) && |c.callbacks| <= 1
            && (Acks(c.sent) > 0 ==> c.finalRes.Some? && c.finalRes.value.status >= 300)
  {
    if es != [] {
      InviteWire(tm, es[..|es|-1]);
      InviteInvStep(tm, InviteRun(tm, es[..|es|-1]), es[|es|-1]);
    }
  }

  /** Each step moves forward only; the request is repeated in Calling alone, so never once
      a 100-699 response has been consumed; the callback needs an error. */
  lemma InviteForward(tm: Timing, c: Client, e: Event)
    requires InviteInv(c)
    ensures var n := InviteStep(tm, c, e);
            && Rank(c.state) <= Rank(n.state)
            && (c.state == Closed ==> n == c.(panicked := n.panicked))
            && (c.finalRes.Some? ==> n.finalRes == c.finalRes && n.provisionalRes == c.provisionalRes)
            && (|n.sent| > |c.sent| && n.sent[|c.sent|].Copy? ==>
                  (c.point.AtStart? || c.point.AtCalling?) && c.finalRes.None? && c.provisionalRes.None?)
            && (n.callbacks != c.callbacks ==> n.err.Some? && n.callbacks == c.callbacks + [n.err.value])
  {
  }

  /** One step after a response was consumed: what is sent is an ACK. */
  lemma AnsweredStep(tm: Timing, c: Client, e: Event)
    requires InviteInv(c) && (c.provisionalRes.Some? || c.finalRes.Some?)
    ensures var n := InviteStep(tm, c, e);
            && (n.provisionalRes.Some? || n.finalRes.Some?)
            && (n.sent == c.sent || exists m :: n.sent == c.sent + [Ack(m)])
  {
    hide CopiesThenAcks, Acks;
    if e.Response? && c.point.AtProceeding? { assert c.sent + [Ack(e.msg)] == c.sent + [Ack(e.msg)]; }
  }

  /** Once a 100-699 response has been consumed in Calling or Proceeding, the INVITE is
      never repeated, whatever happens. */
  lemma {:induction false} NeverRepeated(tm: Timing, before: seq<Event>, m: Message, ackOk: bool, after: seq<Event>)
    requires InviteRun(tm, before).point.AtCalling? || InviteRun(tm, before).point.AtProceeding?
    requires m.response && 100 <= m.status < 700
    ensures var c, n := InviteRun(tm, before), InviteRun(tm, before + [Response(m, ackOk)] + after);
            && (n.provisionalRes.Some? || n.finalRes.Some?)
            && c.sent <= n.sent && forall i :: |c.sent| <= i < |n.sent| ==> n.sent[i].Ack?
  {
    hide InviteInv, CopiesThenAcks, Acks;
    var es := before + [Response(m, ackOk)];
    if after == [] {
      assert es + after == es && es[..|es|-1] == before;
    } else {
      hide InviteStep;
      var fewer := after[..|after|-1];
      NeverRepeated(tm, before, m, ackOk, fewer);
      assert (es + after)[..|es + after|-1] == es + fewer;
      InviteWire(tm, es + fewer);
      AnsweredStep(tm, InviteRun(tm, es + fewer), after[|after|-1]);
    }
  }

  /** Whether the response is a 300-699 that gets an ACK: any in Completed, and the first
      one if an ACK for it can be built. */
  predicate TakesRefusal(c: Client, e: Event) {
    && e.Response? && 300 <= e.msg.status < 700
    && (c.point.AtCompleted? || ((c.point.AtCalling? || c.point.AtProceeding?) && e.msg.response && e.ackOk))
  }

  function RefusalsTaken(tm: Timing, es: seq<Event>): nat {
    if es == [] then 0
    else RefusalsTaken(tm, es[..|es|-1]) + (if TakesRefusal(InviteRun(tm, es[..|es|-1]), es[|es|-1]) then 1 else 0)
  }

  lemma AcksStep(tm: Timing, c: Client, e: Event)
    requires InviteInv(c)
    ensures Acks(InviteStep(tm, c, e).sent) == Acks(c.sent) + (if TakesRefusal(c, e) then 1 else 0)
  {
    hide CopiesThenAcks, Acks;
    match e {
      case Destroyed =>
      case Timer(_) => if c.request.Some? { AcksAppend(c.sent, Copy(c.request.value)); }
      case FromUser(m) => AcksAppend(c.sent, Copy(m));
      case Response(m, _) =>
        AcksAppend(c.sent, Ack(m));
        if c.finalRes.Some? { AcksAppend(c.sent, Ack(c.finalRes.value)); }
    }
  }

  lemma AcksAppend(sent: seq<Packet>, p: Packet)
    ensures Acks(sent + [p]) == Acks(sent) + (if p.Ack? then 1 else 0)
  {
  }

  /** Every run sends one ACK for each 300-699 response taken, no matter what else happens. */
  lemma {:induction false} AcksAlways(tm: Timing, es: seq<Event>)
    ensures Acks(InviteRun(tm, es).sent) == RefusalsTaken(tm, es)
  {
    if es != [] {
      AcksAlways(tm, es[..|es|-1]);
      InviteWire(tm, es[..|es|-1]);
      AcksStep(tm, InviteRun(tm, es[..|es|-1]), es[|es|-1]);
      hide InviteStep, InviteInv, Acks;
    }
  }

  lemma RepetitionAcknowledged(tm: Timing, c: Client, e: Event)
    requires InviteInv(c) && c.point.AtCompleted? && e.Response?
    ensures var n := InviteStep(tm, c, e);
            && n.point.AtCompleted? && n.finalRes == c.finalRes
            && Acks(n.sent) == Acks(c.sent) + (if 300 <= e.msg.status < 700 then 1 else 0)
  {
  }

  /** The number of ACKs grows by exactly one for each 300-699 response consumed in
      Completed: `before` leads into Completed, `after` is any list of responses. */
  lemma {:induction false} AcksCount(tm: Timing, before: seq<Event>, after: seq<Event>)
    requires InviteRun(tm, before).point.AtCompleted?
    requires forall i :: 0 <= i < |after| ==> after[i].Response?
    ensures var c, n := InviteRun(tm, before), InviteRun(tm, before + after);
            && n.point.AtCompleted? && n.finalRes == c.finalRes
            && Acks(n.sent) == Acks(c.sent) + Refusals(after)
  {
    hide InviteStep, InviteInv, Acks;
    if after == [] {
      assert before + after == before;
    } else {
      var fewer := after[..|after|-1];
      AcksCount(tm, before, fewer);
      assert (before + after)[..|before + after|-1] == before + fewer;
      InviteWire(tm, before + fewer);
      RepetitionAcknowledged(tm, InviteRun(tm, before + fewer), after[|after|-1]);
    }
  }

  /** The 300-699 responses among the events. */
  function Refusals(es: seq<Event>): nat {
    if es == [] then 0
    else Refusals(es[..|es|-1]) +
         (if es[|es|-1].Response? && 300 <= es[|es|-1].msg.status < 700 then 1 else 0)
  }

  /** Consuming a final response: a 2xx sends nothing and ends the transaction; a 300-699
      for which an ACK can be built sends exactly the first ACK; otherwise the transaction
      ends and reports that no ACK could be built. */
  lemma FinalConsumed(tm: Timing, c: Client, m: Message, ackOk: bool)
    requires InviteInv(c) && (c.point.AtCalling? || c.point.AtProceeding?) && m.response && 200 <= m.status < 700
    ensures var n := InviteStep(tm, c, Response(m, ackOk));
            && n.finalRes == Some(m)
            && (m.status < 300 ==> n.sent == c.sent && n.state == Closed && n.callbacks == [])
            && (m.status >= 300 && ackOk ==> n.sent == c.sent + [Ack(m)] && Acks(n.sent) == 1 && n.point.AtCompleted?)
            && (m.status >= 300 && !ackOk ==> n.sent == c.sent && n.state == Closed && n.callbacks == [NoAck])
  {
  }

  /** Whether Timer D's end reports a refused call: only if it was refused in Calling. */
  lemma RefusalReportedIff(tm: Timing, c: Client, m: Message, tie: Pick)
    requires InviteInv(c) && (c.point.AtCalling? || c.point.AtProceeding?) && m.response && 300 <= m.status < 700
    ensures var n := InviteStep(tm, InviteStep(tm, c, Response(m, true)), Timer(tie));
            && n.state == Closed
            && (n.callbacks == [NonSuccess(m.status)] <==> c.point.AtCalling?)
            && (n.callbacks == [] <==> c.point.AtProceeding?)
  {
  }

  /** Over any events that follow: a call refused in Calling is reported when the
      transaction ends, a call refused in Proceeding never is. */
  lemma {:induction false} RefusalReported(tm: Timing, before: seq<Event>, m: Message, after: seq<Event>)
    requires InviteRun(tm, before).point.AtCalling? || InviteRun(tm, before).point.AtProceeding?
    requires m.response && 300 <= m.status < 700
    ensures var n := InviteRun(tm, before + [Response(m, true)] + after);
            && n.finalRes == Some(m)
            && n.err == (if InviteRun(tm, before).point.AtCalling? then Some(NonSuccess(m.status)) else None)
            && if n.state == Closed then n.callbacks == (if n.err.Some? then [n.err.value] else [])
               else n.point.AtCompleted? && n.callbacks == []
  {
    InviteWire(tm, before);
    hide CopiesThenAcks, Acks;
    var es := before + [Response(m, true)];
    if after == [] {
      assert es + after == es && es[..|es|-1] == before;
    } else {
      var fewer := after[..|after|-1];
      RefusalReported(tm, before, m, fewer);
      assert (es + after)[..|es + after|-1] == es + fewer;
      InviteWire(tm, es + fewer);
    }
  }

  // Timers A and B

  ghost predicate InviteTimers(tm: Timing, c: Client) {
    c.point.AtCalling? ==>
      && c.clock + c.point.b == 64 * tm.t1 && c.point.n <= 6
      && UncappedAfter(tm.t1, c.point.n, c.point.a, c.point.b)
  }

  lemma InviteTimersStep(tm: Timing, c: Client, e: Event)
    requires tm.t1 > 0 && InviteTimers(tm, c) && (c.point.AtCalling? ==> c.state != Closed)
    ensures InviteTimers(tm, InviteStep(tm, c, e))
  {
    UncappedStart(tm.t1);
    if c.point.AtCalling? { UncappedStep(tm.t1, c.point.n, c.point.a, c.point.b); }
    hide UncappedAfter;
  }

  lemma {:induction false} InviteTimersAlways(tm: Timing, es: seq<Event>)
    requires tm.t1 > 0
    ensures InviteTimers(tm, InviteRun(tm, es))
  {
    if es != [] {
      InviteTimersAlways(tm, es[..|es|-1]);
      InviteWire(tm, es[..|es|-1]);
      InviteTimersStep(tm, InviteRun(tm, es[..|es|-1]), es[|es|-1]);
    }
  }

  /** In Calling, the first six timer events repeat the INVITE and the seventh ends the
      transaction with a time-out at exactly 64·T1, reported once. */
  lemma TimerABTurn(tm: Timing, c: Client, tie: Pick)
    requires tm.t1 > 0 && InviteInv(c) && InviteTimers(tm, c) && c.point.AtCalling?
    ensures var n := InviteStep(tm, c, Timer(tie));
            if c.point.n < 6 then
              && n.point.AtCalling? && n.point.n == c.point.n + 1
              && n.sent == c.sent + [Copy(c.request.value)]
              && n.clock + n.point.b == 64 * tm.t1
            else
              && n.state == Closed && n.sent == c.sent && n.clock == 64 * tm.t1
              && n.callbacks == [TimedOut]
  {
    UncappedStep(tm.t1, c.point.n, c.point.a, c.point.b);
  }

  /** An INVITE nobody answers: six repetitions, then one report of a time-out at exactly
      64·T1, and silence. */
  lemma {:induction false} UnansweredInvite(tm: Timing, m: Message, ticks: seq<Event>)
    requires tm.t1 > 0 && m.request && m.cseqMethod == "INVITE"
    requires forall i :: 0 <= i < |ticks| ==> ticks[i].Timer?
    ensures var c := InviteRun(tm, [FromUser(m)] + ticks);
            && |c.sent| == 1 + (if |ticks| <= 6 then |ticks| else 6)
            && (forall i :: 0 <= i < |c.sent| ==> c.sent[i] == Copy(m))
            && (if |ticks| <= 6 then c.point.AtCalling? && c.point.n == |ticks| && c.callbacks == []
                else c.state == Closed && c.point.Returned? && c.clock == 64 * tm.t1 && |c.callbacks| == 1 && c.callbacks[0] == TimedOut)
            && c.request == Some(m)
  {
    var es := [FromUser(m)] + ticks;
    if ticks == [] {
      assert es == [FromUser(m)] && es[..0] == [];
    } else {
      var fewer, tick := ticks[..|ticks|-1], ticks[|ticks|-1];
      UnansweredInvite(tm, m, fewer);
      var before := [FromUser(m)] + fewer;
      assert es[..|es|-1] == before && es[|es|-1] == tick;
      var c := InviteRun(tm, before);
      if c.point.AtCalling? {
        InviteWire(tm, before);
        InviteTimersAlways(tm, before);
        TimerABTurn(tm, c, tick.tie);
        hide InviteInv, InviteTimers, InviteStep;
      }
    }
  }

  // Timers E and F

  ghost predicate NonInviteInv(tm: Timing, c: Client) {
    && (c.point.AtStart? ==> c.state == Trying && c.err.None? && c.sent == [] && c.provisionals == 0 && c.finalRes.None?)
    && (c.point.AtTrying? ==> c.state == Proceeding && c.request.Some? && c.err.None? && c.finalRes.None?)
    && (c.point.AtDone? ==> c.state == Completed && c.finalRes.Some?)
    && (c.point.Returned? <==> c.state == Closed)
    && !(c.point.AtCalling? || c.point.AtProceeding? || c.point.AtCompleted?)
    && (!c.point.Returned? ==> c.callbacks == [])
    && |c.callbacks| <= 1
    && (forall i :: 0 <= i < |c.sent| ==> c.sent[i].Copy? && Some(c.sent[i].request) == c.request)
    && (c.point.AtTrying? ==>
          && c.clock + c.point.f == 64 * tm.t1
          && 0 < c.point.e <= tm.t2
          && (Standard(tm) ==>
                && CappedAfter(tm.t1, c.point.n, c.point.e, c.point.f)
                && |c.sent| <= 1 + 10 * c.provisionals + c.point.n))
    && (Standard(tm) ==> |c.sent| <= 1 + 10 * (c.provisionals + 1))
  }

  lemma NonInviteInvStep(tm: Timing, c: Client, e: Event)
    requires Positive(tm) && NonInviteInv(tm, c)
    ensures NonInviteInv(tm, NonInviteStep(tm, c, e))
  {
    hide CappedAfter;
    CappedStart(tm.t1);
    match e {
      case Timer(_) =>
        if c.point.AtTrying? && Standard(tm) { CappedStep(tm.t1, c.point.n, c.point.e, c.point.f); }
      case Response(_, _) => if c.point.AtTrying? && Standard(tm) { CappedStep(tm.t1, c.point.n, c.point.e, c.point.f); }
      case FromUser(_) =>
      case Destroyed =>
    }
  }

  /** Every run of the non-INVITE client transaction sends copies of its one request and,
      with T2 = 8·T1 and k provisional responses, at most 1 + 10(k + 1) of them. */
  lemma {:induction false} NonInviteWire(tm: Timing, es: seq<Event>)
    requires Positive(tm)
    ensures NonInviteInv(tm, NonInviteRun(tm, es))
    ensures Standard(tm) ==> |NonInviteRun(tm, es).sent| <= 1 + 10 * (NonInviteRun(tm, es).provisionals + 1)
  {
    if es != [] {
      NonInviteWire(tm, es[..|es|-1]);
      NonInviteInvStep(tm, NonInviteRun(tm, es[..|es|-1]), es[|es|-1]);
    }
  }

  lemma NonInviteForward(tm: Timing, c: Client, e: Event)
    requires Positive(tm) && NonInviteInv(tm, c)
    ensures var n := NonInviteStep(tm, c, e);
            && Rank(c.state) <= Rank(n.state)
            && (c.state == Closed ==> n == c.(panicked := n.panicked))
            && (c.finalRes.Some? ==> n.finalRes == c.finalRes && n.provisionalRes == c.provisionalRes && n.sent == c.sent)
            && (n.callbacks != c.callbacks ==> n.err.Some? && n.callbacks == c.callbacks + [n.err.value])
  {
  }

  /** A timer event before the final response repeats the request, shortening what is left
      by what it used up, or times out at exactly 64·T1 after the last provisional. */
  lemma TimerEFTurn(tm: Timing, c: Client, tie: Pick)
    requires Positive(tm) && NonInviteInv(tm, c) && c.point.AtTrying?
    ensures var n := NonInviteStep(tm, c, Timer(tie));
            if n.point.AtTrying? then
              && n.sent == c.sent + [Copy(c.request.value)]
              && n.clock + n.point.f == c.clock + c.point.f == 64 * tm.t1
              && n.point.f < c.point.f
            else
              && n.state == Closed && n.sent == c.sent && n.clock == 64 * tm.t1 && n.callbacks == [TimedOut]
    ensures Standard(tm) ==> (NonInviteStep(tm, c, Timer(tie)).point.AtTrying? <==> c.point.n < 10)
  {
    if Standard(tm) { CappedStep(tm.t1, c.point.n, c.point.e, c.point.f); }
  }

  /** Timer events after Timers E and F were started: ten repetitions, then a time-out. */
  lemma {:induction false} UnansweredTicks(tm: Timing, before: seq<Event>, ticks: seq<Event>)
    requires Standard(tm) && NonInviteRun(tm, before).point == AtTrying(0, tm.t1, 64 * tm.t1)
    requires forall i :: 0 <= i < |ticks| ==> ticks[i].Timer?
    ensures var c, n := NonInviteRun(tm, before), NonInviteRun(tm, before + ticks);
            && |n.sent| == |c.sent| + (if |ticks| <= 10 then |ticks| else 10)
            && n.request == c.request && n.provisionals == c.provisionals
            && (if |ticks| <= 10 then n.point.AtTrying? && n.point.n == |ticks| && n.callbacks == []
                else n.state == Closed && n.point.Returned? && n.clock == 64 * tm.t1 && n.callbacks == [TimedOut])
  {
    NonInviteWire(tm, before);
    if ticks == [] {
      assert before + ticks == before;
    } else {
      var fewer, tick := ticks[..|ticks|-1], ticks[|ticks|-1];
      UnansweredTicks(tm, before, fewer);
      assert (before + ticks)[..|before + ticks|-1] == before + fewer;
      NonInviteWire(tm, before + fewer);
      var c := NonInviteRun(tm, before + fewer);
      if c.point.AtTrying? {
        TimerEFTurn(tm, c, tick.tie);
        TickKeeps(tm, c, tick.tie);
        hide NonInviteStep, NonInviteInv;
      }
    }
  }

  lemma TickKeeps(tm: Timing, c: Client, tie: Pick)
    requires c.point.AtTrying? && c.state != Closed
    ensures var n := NonInviteStep(tm, c, Timer(tie));
            && n.request == c.request && n.provisionals == c.provisionals
            && (n.point.AtTrying? ==> n.point.n == c.point.n + 1 && n.callbacks == c.callbacks)
            && (n.state == Closed ==> n.point.Returned?)
  {
  }

  /** Ten timer events and then a provisional response. */
  datatype Round = Round(ticks: seq<Event>, provisional: Message)

  predicate FullRound(r: Round) {
    && |r.ticks| == 10 && (forall i :: 0 <= i < 10 ==> r.ticks[i].Timer?)
    && r.provisional.response && 100 <= r.provisional.status < 200
  }

  /** The request, and then one round after the other. */
  function Rounds(m: Message, rounds: seq<Round>): seq<Event> {
    if rounds == [] then [FromUser(m)]
    else
      var last := rounds[|rounds|-1];
      Rounds(m, rounds[..|rounds|-1]) + last.ticks + [Response(last.provisional, true)]
  }

  lemma {:induction false} RoundsRun(tm: Timing, m: Message, rounds: seq<Round>)
    requires Standard(tm) && m.request && m.cseqMethod != "INVITE"
    requires forall i :: 0 <= i < |rounds| ==> FullRound(rounds[i])
    ensures var c := NonInviteRun(tm, Rounds(m, rounds));
            && c.point == AtTrying(0, tm.t1, 64 * tm.t1) && c.request == Some(m)
            && |c.sent| == 1 + 10 * |rounds| && c.provisionals == |rounds|
  {
    var es := Rounds(m, rounds);
    if rounds == [] {
      assert es == [FromUser(m)] && es[..0] == [];
      assert NonInviteRun(tm, es[..0]) == NonInviteStart;
    } else {
      var fewer, last := Rounds(m, rounds[..|rounds|-1]), rounds[|rounds|-1];
      RoundsRun(tm, m, rounds[..|rounds|-1]);
      assert FullRound(last);
      UnansweredTicks(tm, fewer, last.ticks);
      assert es[..|es|-1] == fewer + last.ticks && es[|es|-1] == Response(last.provisional, true);
    }
  }

  /** A request that only gets provisional responses, each after ten timer events: with k of
      them exactly 1 + 10(k + 1) copies go out, all of the one request, and the next timer
      event ends it at 64·T1 after the last one, with one report. */
  lemma StretchedRequest(tm: Timing, m: Message, rounds: seq<Round>, ticks: seq<Event>)
    requires Standard(tm) && m.request && m.cseqMethod != "INVITE"
    requires forall i :: 0 <= i < |rounds| ==> FullRound(rounds[i])
    requires |ticks| >= 10 && forall i :: 0 <= i < |ticks| ==> ticks[i].Timer?
    ensures var c := NonInviteRun(tm, Rounds(m, rounds) + ticks);
            && |c.sent| == 1 + 10 * (|rounds| + 1) && c.provisionals == |rounds|
            && (forall i :: 0 <= i < |c.sent| ==> c.sent[i] == Copy(m))
            && (if |ticks| == 10 then c.point.AtTrying? && c.callbacks == []
                else c.state == Closed && c.clock == 64 * tm.t1 && c.callbacks == [TimedOut])
  {
    RoundsRun(tm, m, rounds);
    UnansweredTicks(tm, Rounds(m, rounds), ticks);
    NonInviteWire(tm, Rounds(m, rounds) + ticks);
    hide NonInviteStep, NonInviteRun;
  }

  /** The bound of `NonInviteWire` is the best one: it is met for every number of provisional
      responses.  More than the eleven copies of section 17.1.2.2 of RFC 3261 can go out if
      and only if a provisional response was consumed. */
  lemma CopiesExactly(tm: Timing, m: Message, k: nat)
    requires Standard(tm) && m.request && m.cseqMethod != "INVITE"
    ensures exists es :: NonInviteRun(tm, es).provisionals == k && |NonInviteRun(tm, es).sent| == 1 + 10 * (k + 1)
    ensures forall es :: NonInviteRun(tm, es).provisionals == k ==> |NonInviteRun(tm, es).sent| <= 1 + 10 * (k + 1)
    ensures (exists es :: NonInviteRun(tm, es).provisionals == k && |NonInviteRun(tm, es).sent| > 11) <==> k > 0
  {
    hide NonInviteRun, NonInviteInv;
    var ticks := seq(10, i => Timer(First));
    var round := Round(ticks, Message(false, true, m.cseqMethod, 100, 0));
    var rounds := seq(k, i => round);
    StretchedRequest(tm, m, rounds, ticks);
    var longest := Rounds(m, rounds) + ticks;
    assert NonInviteRun(tm, longest).provisionals == k && |NonInviteRun(tm, longest).sent| == 1 + 10 * (k + 1);
    forall es | NonInviteRun(tm, es).provisionals == k
      ensures |NonInviteRun(tm, es).sent| <= 1 + 10 * (k + 1) {
      StandardPositive(tm);
      NonInviteWire(tm, es);
    }
  }

  lemma StandardPositive(tm: Timing)
    requires Standard(tm)
    ensures Positive(tm)
  {
  }

  // How a transaction ends without an error

  function RunOf(tm: Timing, invite: bool, es: seq<Event>): Client {
    if invite then InviteRun(tm, es) else NonInviteRun(tm, es)
  }

  /** Nothing destroys the transaction from outside, and what it receives are responses with
      a status of section 21 of RFC 3261. */
  ghost predicate Undisturbed(es: seq<Event>) {
    forall e :: e in es ==> !e.Destroyed? && (e.Response? ==> e.msg.response && 100 <= e.msg.status < 700)
  }

  ghost predicate Received(es: seq<Event>, m: Message) {
    exists e :: e in es && e.Response? && e.msg == m
  }

  /** What an undisturbed run knows about its end. */
  ghost predicate EndsWell(c: Client, es: seq<Event>) {
    && (c.finalRes.Some? ==> 200 <= c.finalRes.value.status < 700 && Received(es, c.finalRes.value))
    && (c.state == Closed && c.callbacks == [] ==> c.finalRes.Some?)
    && (c.callbacks != [] ==> c.state == Closed)
    && (c.point.AtCompleted? || c.point.AtDone? ==> c.finalRes.Some?)
    && (c.point.Returned? <==> c.state == Closed)
  }

  lemma EndsWellStep(tm: Timing, invite: bool, c: Client, es: seq<Event>, e: Event)
    requires EndsWell(c, es) && !e.Destroyed? && (e.Response? ==> e.msg.response && 100 <= e.msg.status < 700)
    requires if invite then InviteInv(c) else NonInviteInv(tm, c)
    ensures EndsWell(if invite then InviteStep(tm, c, e) else NonInviteStep(tm, c, e), es + [e])
  {
    hide CopiesThenAcks, Acks, Received;
    if c.finalRes.Some? { ReceivedMore(es, e, c.finalRes.value); }
    if e.Response? { ReceivedNow(es, e); }
  }

  lemma ReceivedMore(es: seq<Event>, e: Event, m: Message)
    ensures Received(es, m) ==> Received(es + [e], m)
  {
  }

  lemma ReceivedNow(es: seq<Event>, e: Event)
    requires e.Response?
    ensures Received(es + [e], e.msg)
  {
    assert e in es + [e];
  }

  /** An undisturbed transaction that ends without an error has received a final response. */
  lemma {:induction false} EndsAnswered(tm: Timing, invite: bool, es: seq<Event>)
    requires Positive(tm) && Undisturbed(es)
    ensures EndsWell(RunOf(tm, invite, es), es)
  {
    if es != [] {
      var before, e := es[..|es|-1], es[|es|-1];
      EndsAnswered(tm, invite, before);
      if invite { InviteWire(tm, before); } else { NonInviteWire(tm, before); }
      assert e in es && before + [e] == es;
      hide InviteStep, NonInviteStep, InviteInv, NonInviteInv, EndsWell;
      EndsWellStep(tm, invite, RunOf(tm, invite, before), before, e);
    }
  }
}
