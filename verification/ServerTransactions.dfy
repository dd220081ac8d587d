/** The INVITE and non-INVITE server transactions as step functions, and what every run
    of them does (sip/transaction.go, sections 17.2.1 and 17.2.2 of RFC 3261). */
module ServerTransactions {
  import opened Wrappers
  import opened Transactions

  /** What wakes the controller: a `Destroy` from outside, the earliest timer, or a
      message on the transaction user's channel. */
  datatype Event = Destroyed | Timer(tie: Pick) | FromUser(msg: Message)

  /** Where the controller waits.  In `AtCompleted`, `n` counts the retransmissions. */
  datatype Point =
    | AtFirst
    | AtSecond
    | AtCompleted(n: nat, g: nat, h: nat)
    | AtConfirmed
    | AtTrying
    | AtProceeding
    | AtDone
    | Returned

  /** `clock` is the time Timers G and H have used up since Completed was entered. */
  datatype Server = Server(
    point: Point,
    state: State,
    err: Option<Error>,
    provisionalRes: Option<Message>,
    finalRes: Option<Message>,
    sent: seq<Message>,
    clock: nat)

  const InviteStart := Server(AtFirst, Proceeding, None, None, None, [], 0)
  const NonInviteStart := Server(AtTrying, Trying, None, None, None, [], 0)

  /** The 100 response the transaction makes itself. */
  const Trying100 := Message(false, true, "INVITE", 100, 0)

  function Close(c: Server): Server {
    c.(state := Closed, point := Returned)
  }

  function SendProvisional(c: Server, m: Message): Server {
    c.(provisionalRes := Some(m), sent := c.sent + [m])
  }

  function SendFinal(c: Server, m: Message): Server {
    c.(finalRes := Some(m), sent := c.sent + [m])
  }

  function EnterCompleted(tm: Timing, c: Server): Server {
    c.(state := Completed, point := AtCompleted(0, tm.t1, 64 * tm.t1), clock := 0)
  }

  // INVITE server transaction

  function FirstResponse(tm: Timing, c: Server, m: Message): Server {
    if !m.response then Close(c.(err := Some(UnexpectedMessage)))
    else if 100 < m.status < 200 then SendProvisional(c, m).(point := AtSecond)
    else if 200 <= m.status < 300 then Close(SendFinal(c, m))
    else if 300 <= m.status < 700 then EnterCompleted(tm, SendFinal(c, m))
    else c.(point := AtSecond)
  }

  function NextResponse(tm: Timing, c: Server, m: Message): Server {
    if !m.response then Close(c)
    else if 100 < m.status < 200 then SendProvisional(c, m)
    else if 200 <= m.status < 300 then Close(SendFinal(c, m))
    else if 300 <= m.status <= 600 then EnterCompleted(tm, SendFinal(c, m))
    else c.(point := Returned)
  }

  /** Timer G resends and backs off; Timer H gives up. */
  function TimersGH(tm: Timing, c: Server, tie: Pick): Server
    requires c.point.AtCompleted?
  {
    var AtCompleted(n, g, h) := c.point;
    match Earlier(g, h, tie)
    case First =>
      var resent := if c.finalRes.Some? then c.sent + [c.finalRes.value] else c.sent;
      c.(sent := resent, clock := c.clock + g,
         point := AtCompleted(n + 1, Doubled(g, tm.t2), if g <= h then h - g else 0))
    case Second => Close(c.(clock := c.clock + h))
  }

  function InviteStep(tm: Timing, c: Server, e: Event): Server {
    match e
    case Destroyed => Close(c)
    case Timer(tie) =>
      (match c.point
       case AtFirst => SendProvisional(c, Trying100).(point := AtSecond)
       case AtCompleted(_, _, _) => TimersGH(tm, c, tie)
       case AtConfirmed => Close(c)
       case _ => c)
    case FromUser(m) =>
      (match c.point
       case AtFirst => FirstResponse(tm, c, m)
       case AtSecond => NextResponse(tm, c, m)
       case AtCompleted(_, _, _) => if IsAck(m) then c.(state := Confirmed, point := AtConfirmed) else c
       case _ => c)
  }

  function InviteRun(tm: Timing, es: seq<Event>): Server {
    if es == [] then InviteStart else InviteStep(tm, InviteRun(tm, es[..|es|-1]), es[|es|-1])
  }

  // Non-INVITE server transaction

  function TryingResponse(c: Server, m: Message): Server {
    if !m.response then Close(c.(err := Some(UnexpectedMessage)))
    else
      var c1 := c.(sent := c.sent + [m]);
      if 100 < m.status < 200 then c1.(provisionalRes := Some(m), state := Proceeding, point := AtProceeding)
      else if 200 <= m.status < 700 then c1.(finalRes := Some(m), state := Completed, point := AtDone)
      else c1.(point := Returned)
  }

  function ProceedingResponse(c: Server, m: Message): Server {
    if !m.response then Close(c.(err := Some(UnexpectedMessage)))
    else
      var c1 := c.(sent := c.sent + [m]);
      if 100 < m.status < 200 then c1.(provisionalRes := Some(m))
      else if 200 <= m.status < 700 then c1.(finalRes := Some(m), state := Completed, point := AtDone)
      else c1
  }

  function NonInviteStep(c: Server, e: Event): Server {
    match e
    case Destroyed => Close(c)
    case Timer(_) => if c.point.AtDone? then Close(c) else c
    case FromUser(m) =>
      (match c.point
       case AtTrying => TryingResponse(c, m)
       case AtProceeding => ProceedingResponse(c, m)
       case _ => c)
  }

  function NonInviteRun(es: seq<Event>): Server {
    if es == [] then NonInviteStart else NonInviteStep(NonInviteRun(es[..|es|-1]), es[|es|-1])
  }

  // What goes on the wire

  /** Provisional responses, then nothing but copies of the one final response. */
  ghost predicate ProvisionalsThenCopies(sent: seq<Message>, final: Option<Message>) {
    && (forall i :: 0 <= i < |sent| ==> Provisional(sent[i]) || final == Some(sent[i]))
    && (forall i, j :: 0 <= i < j < |sent| && final == Some(sent[i]) ==> final == Some(sent[j]))
  }

  ghost predicate InviteInv(tm: Timing, c: Server) {
    && (c.point.AtFirst? || c.point.AtSecond? ==> c.state == Proceeding && c.finalRes.None?)
    && (c.point.AtCompleted? ==> c.state == Completed && c.finalRes.Some?)
    && (c.point.AtConfirmed? ==> c.state == Confirmed && c.finalRes.Some?)
    && (c.point.Returned? ==> c.state == Closed || (c.state == Proceeding && c.finalRes.None?))
    && !(c.point.AtTrying? || c.point.AtProceeding? || c.point.AtDone?)
    && ProvisionalsThenCopies(c.sent, c.finalRes)
    && (c.finalRes.Some? ==> Final(c.finalRes.value) && Copies(c.sent, c.finalRes.value) >= 1)
    && (c.point.AtCompleted? ==> Copies(c.sent, c.finalRes.value) == 1 + c.point.n)
    && (c.finalRes.Some? && c.finalRes.value.status < 300 ==> Copies(c.sent, c.finalRes.value) == 1 && !c.point.AtCompleted?)
  }

  lemma SentFinal(sent: seq<Message>, m: Message)
    requires ProvisionalsThenCopies(sent, None) && Final(m)
    ensures ProvisionalsThenCopies(sent + [m], Some(m)) && Copies(sent + [m], m) == 1
  {
    NoCopies(sent, m);
    CopiesAppend(sent, m, m);
  }

  lemma SentProvisional(sent: seq<Message>, m: Message)
    requires ProvisionalsThenCopies(sent, None) && Provisional(m)
    ensures ProvisionalsThenCopies(sent + [m], None)
  {
  }

  lemma SentCopy(sent: seq<Message>, m: Message)
    requires ProvisionalsThenCopies(sent, Some(m))
    ensures ProvisionalsThenCopies(sent + [m], Some(m)) && Copies(sent + [m], m) == Copies(sent, m) + 1
  {
  }

  lemma InviteInvStep(tm: Timing, c: Server, e: Event)
    requires InviteInv(tm, c)
    ensures InviteInv(tm, InviteStep(tm, c, e))
  {
    hide ProvisionalsThenCopies, Copies;
    if c.finalRes.Some? {
      SentCopy(c.sent, c.finalRes.value);
    } else {
      SentProvisional(c.sent, Trying100);
      if e.FromUser? {
        if Final(e.msg) { SentFinal(c.sent, e.msg); }
        if Provisional(e.msg) { SentProvisional(c.sent, e.msg); }
      }
    }
  }

  /** Every run of the INVITE server transaction puts provisional responses on the wire,
      then copies of at most one final response and nothing else. */
  lemma {:induction false} InviteWire(tm: Timing, es: seq<Event>)
    ensures InviteInv(tm, InviteRun(tm, es))
    ensures ProvisionalsThenCopies(InviteRun(tm, es).sent, InviteRun(tm, es).finalRes)
  {
    if es != [] {
      InviteWire(tm, es[..|es|-1]);
      InviteInvStep(tm, InviteRun(tm, es[..|es|-1]), es[|es|-1]);
    }
  }

  /** Each step moves forward only: the state never goes back, Closed is absorbing, a final
      response is chosen once and freezes the provisional one, every send in Completed
      repeats that final response, and nothing is sent in Confirmed or later. */
  lemma InviteForward(tm: Timing, c: Server, e: Event)
    requires InviteInv(tm, c)
    ensures var n := InviteStep(tm, c, e);
            && Rank(c.state) <= Rank(n.state)
            && (c.state == Closed ==> n == c)
            && (c.finalRes.Some? ==> n.finalRes == c.finalRes && n.provisionalRes == c.provisionalRes)
            && (c.state == Completed ==> n.sent == c.sent || n.sent == c.sent + [c.finalRes.value])
            && (Rank(c.state) >= Rank(Confirmed) ==> n.sent == c.sent)
  {
  }

  /** A final response of the transaction user goes out at once if and only if the first
      wait or the later one accepts its status: 601 to 699 is lost after a provisional. */
  lemma FinalGoesOutIff(tm: Timing, c: Server, m: Message)
    requires InviteInv(tm, c) && (c.point.AtFirst? || c.point.AtSecond?) && m.response && m.status >= 200
    ensures var n := InviteStep(tm, c, FromUser(m));
            && (n.finalRes == Some(m) && n.sent == c.sent + [m] <==> m.status <= (if c.point.AtFirst? then 699 else 600))
            && (m.status > (if c.point.AtFirst? then 699 else 600) ==> n.finalRes.None? && n.sent == c.sent)
  {
  }

  /** Once the controller has returned, nothing is sent any more. */
  lemma {:induction false} ReturnedIsSilent(tm: Timing, before: seq<Event>, after: seq<Event>)
    requires InviteRun(tm, before).point.Returned?
    ensures var n := InviteRun(tm, before + after);
            n.point.Returned? && n.sent == InviteRun(tm, before).sent && n.finalRes == InviteRun(tm, before).finalRes
  {
    if after == [] {
      assert before + after == before;
    } else {
      ReturnedIsSilent(tm, before, after[..|after|-1]);
      assert (before + after)[..|before + after|-1] == before + after[..|after|-1];
    }
  }

  /** A 603 from the callee that follows the transaction's own 100 is never sent. */
  lemma DeclineIsLost(tm: Timing, id: nat, after: seq<Event>)
    ensures var es := [Timer(First), FromUser(Message(false, true, "INVITE", 603, id))] + after;
            InviteRun(tm, es).sent == [Trying100] && InviteRun(tm, es).finalRes.None?
  {
    var before := [Timer(First), FromUser(Message(false, true, "INVITE", 603, id))];
    assert before[..1] == [Timer(First)] && before[..1][..0] == [];
    assert InviteRun(tm, before[..1]) == InviteStep(tm, InviteStart, Timer(First));
    ReturnedIsSilent(tm, before, after);
  }

  /** What makes a controller leave before it has a final response: it is destroyed from
      outside, or it gets a message that is no response. */
  predicate Disturbs(e: Event) {
    e.Destroyed? || (e.FromUser? && !e.msg.response)
  }

  /** A transaction that closed without a final response was disturbed. */
  lemma {:induction false} ClosedEarlyWhy(tm: Timing, es: seq<Event>)
    requires InviteRun(tm, es).state == Closed && InviteRun(tm, es).finalRes.None?
    ensures exists e :: e in es && Disturbs(e)
  {
    if es != [] {
      var before, e := es[..|es|-1], es[|es|-1];
      InviteWire(tm, before);
      InviteForward(tm, InviteRun(tm, before), e);
      if InviteRun(tm, before).state == Closed {
        ClosedEarlyWhy(tm, before);
        var d :| d in before && Disturbs(d);
        assert d in es;
      } else {
        assert Disturbs(e) && e in es;
      }
    }
  }

  /** An ACK before any final response ends the transaction for good: nothing is sent for
      it, and no final response ever is. */
  lemma EarlyAckEnds(tm: Timing, before: seq<Event>, ack: Message, after: seq<Event>)
    requires InviteRun(tm, before).point.AtFirst? || InviteRun(tm, before).point.AtSecond?
    requires IsAck(ack) && !ack.response
    ensures var c := InviteRun(tm, before + [FromUser(ack)] + after);
            InviteRun(tm, before + [FromUser(ack)]).state == Closed
            && c.finalRes.None? && c.sent == InviteRun(tm, before).sent
  {
    InviteWire(tm, before);
    var es := before + [FromUser(ack)];
    assert es[..|es|-1] == before;
    ReturnedIsSilent(tm, es, after);
  }

  // Whether the caller gets an answer

  /** What reaches an INVITE server transaction before its final response. */
  predicate Waits(e: Event) {
    e.Timer? || (e.FromUser? && e.msg.response && 100 < e.msg.status < 200)
  }

  lemma {:induction false} Waiting(tm: Timing, es: seq<Event>)
    requires forall i :: 0 <= i < |es| ==> Waits(es[i])
    ensures InviteRun(tm, es).point == if es == [] then AtFirst else AtSecond
  {
    if es != [] { Waiting(tm, es[..|es|-1]); }
  }

  lemma {:induction false} FinalStays(tm: Timing, before: seq<Event>, after: seq<Event>)
    requires InviteRun(tm, before).finalRes.Some?
    ensures InviteRun(tm, before + after).finalRes == InviteRun(tm, before).finalRes
  {
    if after == [] {
      assert before + after == before;
    } else {
      FinalStays(tm, before, after[..|after|-1]);
      assert (before + after)[..|before + after|-1] == before + after[..|after|-1];
      InviteWire(tm, before + after[..|after|-1]);
      InviteForward(tm, InviteRun(tm, before + after[..|after|-1]), after[|after|-1]);
    }
  }

  /** The caller gets the final response if and only if the wait that it meets takes it:
      the first one takes all, the second none above 600. */
  lemma CallerAnswered(tm: Timing, before: seq<Event>, final: Message, after: seq<Event>)
    requires forall i :: 0 <= i < |before| ==> Waits(before[i])
    requires final.response && Final(final)
    ensures var c := InviteRun(tm, before + [FromUser(final)] + after);
            if before == [] || final.status <= 600 then c.finalRes == Some(final) && final in c.sent
            else c.finalRes.None? && forall i :: 0 <= i < |c.sent| ==> Provisional(c.sent[i])
  {
    var es := before + [FromUser(final)];
    assert es[..|es|-1] == before;
    Waiting(tm, before);
    InviteWire(tm, before);
    FinalGoesOutIff(tm, InviteRun(tm, before), final);
    InviteWire(tm, es + after);
    hide ProvisionalsThenCopies, Copies;
    if before == [] || final.status <= 600 {
      FinalStays(tm, es, after);
      var c := InviteRun(tm, es + after);
      if final !in c.sent { NoCopies(c.sent, final); }
    } else {
      ReturnedIsSilent(tm, es, after);
      AllProvisional(InviteRun(tm, es + after).sent);
    }
  }

  lemma AllProvisional(sent: seq<Message>)
    requires ProvisionalsThenCopies(sent, None)
    ensures forall i :: 0 <= i < |sent| ==> Provisional(sent[i])
  {
  }

  // Timers G and H

  ghost predicate TimersInv(tm: Timing, c: Server) {
    c.point.AtCompleted? ==>
      && c.clock + c.point.h == 64 * tm.t1
      && 0 < c.point.g <= tm.t2
      && (Standard(tm) ==> CappedAfter(tm.t1, c.point.n, c.point.g, c.point.h))
  }

  lemma TimersInvStep(tm: Timing, c: Server, e: Event)
    requires Positive(tm) && TimersInv(tm, c)
    ensures TimersInv(tm, InviteStep(tm, c, e))
  {
    if c.point.AtCompleted? && Standard(tm) {
      CappedStep(tm.t1, c.point.n, c.point.g, c.point.h);
    }
    Pow2Small();
  }

  lemma {:induction false} TimersAlways(tm: Timing, es: seq<Event>)
    requires Positive(tm)
    ensures TimersInv(tm, InviteRun(tm, es))
  {
    if es != [] {
      TimersAlways(tm, es[..|es|-1]);
      TimersInvStep(tm, InviteRun(tm, es[..|es|-1]), es[|es|-1]);
    }
  }

  /** In Completed, a timer event either resends and shortens the remaining time by what
      it added to the elapsed time, or ends the transaction at exactly 64·T1.  With
      T2 = 8·T1 it resends exactly the first ten times. */
  lemma TimerGHTurn(tm: Timing, c: Server, tie: Pick)
    requires Positive(tm) && InviteInv(tm, c) && TimersInv(tm, c) && c.point.AtCompleted?
    ensures var n := InviteStep(tm, c, Timer(tie));
            if n.point.AtCompleted? then
              && n.sent == c.sent + [c.finalRes.value]
              && n.clock + n.point.h == c.clock + c.point.h == 64 * tm.t1
              && n.point.h < c.point.h
            else
              && n.sent == c.sent && n.state == Closed && n.clock == 64 * tm.t1
    ensures Standard(tm) ==> (InviteStep(tm, c, Timer(tie)).point.AtCompleted? <==> c.point.n < 10)
  {
    if Standard(tm) { CappedStep(tm.t1, c.point.n, c.point.g, c.point.h); }
  }

  /** A final response that is never acknowledged: ten repetitions, whatever way ties would
      fall, then the end at exactly 64·T1, and nothing after it. */
  lemma {:induction false} UnacknowledgedRun(tm: Timing, before: seq<Event>, ticks: seq<Event>)
    requires Standard(tm) && InviteRun(tm, before).point == AtCompleted(0, tm.t1, 64 * tm.t1)
    requires forall i :: 0 <= i < |ticks| ==> ticks[i].Timer?
    ensures var c, f := InviteRun(tm, before + ticks), InviteRun(tm, before).finalRes;
            && f.Some? && c.finalRes == f
            && Copies(c.sent, f.value) == 1 + (if |ticks| <= 10 then |ticks| else 10)
            && (if |ticks| <= 10 then c.state == Completed && c.point.AtCompleted? && c.point.n == |ticks|
                else c.state == Closed && c.point.Returned? && c.clock == 64 * tm.t1)
  {
    InviteWire(tm, before);
    if ticks == [] {
      assert before + ticks == before;
    } else {
      var fewer, tick := ticks[..|ticks|-1], ticks[|ticks|-1];
      UnacknowledgedRun(tm, before, fewer);
      var es := before + ticks;
      assert es[..|es|-1] == before + fewer && es[|es|-1] == tick;
      var c := InviteRun(tm, before + fewer);
      InviteWire(tm, before + fewer);
      TimersAlways(tm, before + fewer);
      if c.point.AtCompleted? {
        TimerGHTurn(tm, c, tick.tie);
        CopiesAppend(c.sent, c.finalRes.value, c.finalRes.value);
      }
    }
  }

  /** So no final response goes out more than eleven times. */
  lemma {:induction false} AtMostElevenCopies(tm: Timing, es: seq<Event>)
    requires Standard(tm)
    ensures var c := InviteRun(tm, es); c.finalRes.Some? ==> 1 <= Copies(c.sent, c.finalRes.value) <= 11
  {
    InviteWire(tm, es);
    TimersAlways(tm, es);
    if es != [] {
      var before, e := es[..|es|-1], es[|es|-1];
      AtMostElevenCopies(tm, before);
      InviteWire(tm, before);
      InviteForward(tm, InviteRun(tm, before), e);
    }
  }

  // Non-INVITE

  ghost predicate NonInviteInv(c: Server) {
    && (c.point.AtTrying? ==> c.state == Trying && c.finalRes.None?)
    && (c.point.AtProceeding? ==> c.state == Proceeding && c.finalRes.None?)
    && (c.point.AtDone? ==> c.state == Completed && c.finalRes.Some?)
    && (c.point.Returned? ==> c.state == Closed || (c.state == Trying && c.finalRes.None?))
    && !(c.point.AtFirst? || c.point.AtSecond? || c.point.AtCompleted? || c.point.AtConfirmed?)
    && (forall i :: 0 <= i < |c.sent| && Final(c.sent[i]) ==> i == |c.sent| - 1 && c.finalRes == Some(c.sent[i]))
    && (c.finalRes.Some? ==> |c.sent| > 0 && c.sent[|c.sent|-1] == c.finalRes.value && Final(c.finalRes.value))
  }

  /** Every run of the non-INVITE server transaction sends its final response once, as the
      last message; state, final and provisional response only move forward. */
  lemma {:induction false} NonInviteWire(es: seq<Event>)
    ensures NonInviteInv(NonInviteRun(es))
  {
    if es != [] {
      NonInviteWire(es[..|es|-1]);
    }
  }

  lemma NonInviteForward(c: Server, e: Event)
    requires NonInviteInv(c)
    ensures var n := NonInviteStep(c, e);
            && Rank(c.state) <= Rank(n.state)
            && (c.state == Closed ==> n == c)
            && (c.finalRes.Some? ==> n.finalRes == c.finalRes && n.provisionalRes == c.provisionalRes && n.sent == c.sent)
  {
  }

  lemma {:induction false} NonInviteFinalStays(before: seq<Event>, after: seq<Event>)
    requires NonInviteRun(before).finalRes.Some?
    ensures NonInviteRun(before + after).finalRes == NonInviteRun(before).finalRes
  {
    if after == [] {
      assert before + after == before;
    } else {
      var fewer := after[..|after|-1];
      NonInviteFinalStays(before, fewer);
      assert (before + after)[..|before + after|-1] == before + fewer;
      NonInviteWire(before + fewer);
      NonInviteForward(NonInviteRun(before + fewer), after[|after|-1]);
    }
  }

  lemma {:induction false} NonInviteClosedEarlyWhy(es: seq<Event>)
    requires NonInviteRun(es).state == Closed && NonInviteRun(es).finalRes.None?
    ensures exists e :: e in es && Disturbs(e)
  {
    if es != [] {
      var before, e := es[..|es|-1], es[|es|-1];
      NonInviteWire(before);
      NonInviteForward(NonInviteRun(before), e);
      if NonInviteRun(before).state == Closed {
        NonInviteClosedEarlyWhy(before);
        var d :| d in before && Disturbs(d);
        assert d in es;
      } else {
        assert Disturbs(e) && e in es;
      }
    }
  }

  // Both kinds

  function RunOf(tm: Timing, invite: bool, es: seq<Event>): Server {
    if invite then InviteRun(tm, es) else NonInviteRun(es)
  }

  /** Nothing destroys the transaction from outside, and what is no response, such as an
      ACK, comes after the final response only. */
  ghost predicate Undisturbed(tm: Timing, invite: bool, es: seq<Event>) {
    forall i :: 0 <= i < |es| && Disturbs(es[i]) ==> !es[i].Destroyed? && RunOf(tm, invite, es[..i]).finalRes.Some?
  }

  /** An undisturbed transaction leaves with a final response. */
  lemma LeavesAnswered(tm: Timing, invite: bool, es: seq<Event>)
    requires RunOf(tm, invite, es).state == Closed && Undisturbed(tm, invite, es)
    ensures RunOf(tm, invite, es).finalRes.Some?
  {
    if RunOf(tm, invite, es).finalRes.None? {
      if invite { ClosedEarlyWhy(tm, es); } else { NonInviteClosedEarlyWhy(es); }
      var e :| e in es && Disturbs(e);
      var i :| 0 <= i < |es| && es[i] == e;
      assert es == es[..i] + es[i..];
      if invite { FinalStays(tm, es[..i], es[i..]); } else { NonInviteFinalStays(es[..i], es[i..]); }
      assert false;
    }
  }

  /** The final response is one of the user's, and final. */
  lemma {:induction false} FinalWasFed(tm: Timing, invite: bool, es: seq<Event>)
    requires RunOf(tm, invite, es).finalRes.Some?
    ensures var m := RunOf(tm, invite, es).finalRes.value; FromUser(m) in es && m.response && Final(m)
  {
    if es != [] {
      var before, e := es[..|es|-1], es[|es|-1];
      if invite { InviteWire(tm, before); } else { NonInviteWire(before); }
      hide ProvisionalsThenCopies, Copies;
      if RunOf(tm, invite, before).finalRes.Some? {
        FinalWasFed(tm, invite, before);
        if invite { InviteForward(tm, InviteRun(tm, before), e); } else { NonInviteForward(NonInviteRun(before), e); }
      } else {
        assert e in es;
      }
    }
  }
}
