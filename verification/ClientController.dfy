/** The client transaction's controllers as the loops they are: a `select` takes the next
    thing that happens, a method runs until nothing more happens or the controller
    returns.  A pick that the current `select` does not offer passes without effect, so a
    single `select` is a loop here too.  The ghost field `spec` takes the steps of
    ClientTransactions.dfy; the fields are proved to follow it. */
module ClientController {
  import opened Wrappers
  import opened Transactions
  import opened ClientTransactions

  /** Where a run that stands at `c` ends after the events `es`. */
  function RunFrom(tm: Timing, invite: bool, c: Client, es: seq<Event>): Client
    decreases |es|
  {
    if es == [] then c else RunFrom(tm, invite, Next(tm, invite, c, es[0]), es[1..])
  }

  function Next(tm: Timing, invite: bool, c: Client, e: Event): Client {
    if invite then InviteStep(tm, c, e) else NonInviteStep(tm, c, e)
  }

  class ClientTransaction {
    const tm: Timing
    const invite: bool
    var state: State
    var err: Option<Error>
    var request: Option<Message>
    var provisionalRes: Option<Message>
    var finalRes: Option<Message>
    var sent: seq<Packet>
    var callbacks: seq<Error>
    var panicked: bool
    var inbox: seq<Event>
    ghost var spec: Client

    /** The fields are those of `spec`. */
    ghost predicate Agrees()
      reads this
    {
      At(spec)
    }

    /** The fields are those of `c`. */
    ghost predicate At(c: Client)
      reads this
    {
      && state == c.state && err == c.err && request == c.request
      && provisionalRes == c.provisionalRes && finalRes == c.finalRes
      && sent == c.sent && callbacks == c.callbacks && panicked == c.panicked
    }

    /** Where everything that is still to come leads. */
    ghost function Goal(): Client
      reads this
    {
      RunFrom(tm, invite, spec, inbox)
    }

    ghost predicate Stopped()
      reads this
    {
      Agrees() && (inbox == [] || spec.point.Returned?)
    }

    constructor (tm: Timing, invite: bool, inbox: seq<Event>)
      ensures this.tm == tm && this.invite == invite && this.inbox == inbox && Agrees()
      ensures spec == if invite then InviteStart else NonInviteStart
    {
      this.tm, this.invite, this.inbox := tm, invite, inbox;
      state := if invite then Calling else Trying;
      err, request, provisionalRes, finalRes, sent, callbacks, panicked := None, None, None, None, [], [], false;
      spec := if invite then InviteStart else NonInviteStart;
    }

    method Select() returns (e: Event)
      requires inbox != []
      modifies this`inbox, this`spec
      ensures e == old(inbox)[0] && |inbox| < |old(inbox)|
      ensures spec == Next(tm, invite, old(spec), e) && Goal() == old(Goal())
    {
      e := inbox[0];
      spec := Next(tm, invite, spec, e);
      inbox := inbox[1..];
    }

    /** Closes the channels, then reports the error if there is one. */
    method Destroy()
      modifies this`state, this`callbacks, this`panicked
      ensures old(state) != Closed ==>
                && state == Closed && panicked == old(panicked)
                && callbacks == if err.Some? then old(callbacks) + [err.value] else old(callbacks)
      ensures old(state) == Closed ==> panicked && state == Closed && callbacks == old(callbacks)
    {
      if state == Closed {
        panicked := true;
        return;
      }
      state := Closed;
      if err.Some? {
        callbacks := callbacks + [err.value];
      }
    }

    method ControllerTerminated()
      requires state != Closed
      modifies this`state, this`callbacks, this`panicked
      ensures state == Closed && panicked == old(panicked)
      ensures callbacks == if err.Some? then old(callbacks) + [err.value] else old(callbacks)
    {
      state := Terminated;
      Destroy();
    }

    /** Runs the controller the transaction was made with. */
    method Controller()
      requires Agrees() && spec == if invite then InviteStart else NonInviteStart
      modifies this
      ensures Stopped() && Goal() == old(Goal())
    {
      if invite {
        InviteController();
      } else {
        NonInviteController();
      }
    }

    // INVITE

    method InviteController()
      requires invite && Agrees() && spec == InviteStart
      modifies this
      ensures Stopped() && Goal() == old(Goal())
    {
      hide RunFrom, NonInviteStep;
      while inbox != []
        invariant Agrees() && spec == InviteStart && Goal() == old(Goal())
        decreases |inbox|
      {
        var e := Select();
        match e {
          case Destroyed =>
            Destroy();
            return;
          case FromUser(msg) =>
            if !msg.request || msg.cseqMethod != "INVITE" {
              err := Some(UnexpectedMessage);
              Destroy();
              return;
            }
            request := Some(msg);
            sent := sent + [Copy(msg)];
            InviteControllerCalling();
            return;
          case Timer(_) =>
          case Response(_, _) =>
        }
      }
    }

    method InviteControllerCalling()
      requires invite && Agrees() && spec.point == AtCalling(0, tm.t1, 64 * tm.t1) && request.Some? && state == Calling && err.None?
      modifies this
      ensures Stopped() && Goal() == old(Goal())
    {
      hide RunFrom, NonInviteStep;
      var timerA: nat, timerB: nat := tm.t1, 64 * tm.t1;
      while inbox != []
        invariant Agrees() && Goal() == old(Goal())
        invariant spec.point.AtCalling? && spec.point.a == timerA && spec.point.b == timerB
        invariant request.Some? && state == Calling && err.None?
        decreases |inbox|
      {
        ghost var before := spec;
        var e := Select();
        match e {
          case Destroyed =>
            Destroy();
            err := Some(TransactionClosed);
            return;
          case Timer(tie) =>
            if Earlier(timerA, timerB, tie).First? {
              sent := sent + [Copy(request.value)];
              timerB := timerB - timerA;
              timerA := timerA * 2;
            } else {
              err := Some(TimedOut);
              ControllerTerminated();
              return;
            }
          case FromUser(_) =>
          case Response(msg, ackOk) =>
            var over := TakeWhileCalling(before, msg, ackOk);
            if over {
              return;
            }
        }
      }
    }

    method TakeWhileCalling(ghost before: Client, msg: Message, ackOk: bool) returns (over: bool)
      requires invite && At(before) && before.point.AtCalling? && state == Calling && err.None?
      requires spec == InviteStep(tm, before, Response(msg, ackOk))
      modifies this
      ensures Goal() == old(Goal())
      ensures if over then Stopped() else At(before) && spec == before && inbox == old(inbox)
    {
      hide RunFrom, NonInviteStep;
      if !msg.response {
        err := Some(UnexpectedMessage);
        Destroy();
        return true;
      }
      if 100 <= msg.status < 700 {
        if 200 <= msg.status < 300 {
          finalRes := Some(msg);
          ControllerTerminated();
        } else if 300 <= msg.status < 700 {
          finalRes := Some(msg);
          err := Some(NonSuccess(msg.status));
          if !ackOk {
            err := Some(NoAck);
            Destroy();
            return true;
          }
          InviteControllerCompleted(msg);
        } else {
          provisionalRes := Some(msg);
          InviteControllerProceeding();
        }
        return true;
      }
      return false;
    }

    method InviteControllerProceeding()
      requires invite && spec.point.AtProceeding? && spec.state == Proceeding && state != Closed
      requires err == spec.err && request == spec.request && provisionalRes == spec.provisionalRes && finalRes == spec.finalRes
      requires sent == spec.sent && callbacks == spec.callbacks && panicked == spec.panicked
      modifies this
      ensures Stopped() && Goal() == old(Goal())
    {
      hide RunFrom, NonInviteStep;
      state := Proceeding;
      while inbox != []
        invariant Agrees() && Goal() == old(Goal()) && spec.point.AtProceeding? && state == Proceeding
        decreases |inbox|
      {
        ghost var before := spec;
        var e := Select();
        match e {
          case Destroyed =>
            Destroy();
            return;
          case Timer(_) =>
          case FromUser(_) =>
          case Response(msg, ackOk) =>
            var over := TakeWhileProceeding(before, msg, ackOk);
            if over {
              return;
            }
        }
      }
    }

    method TakeWhileProceeding(ghost before: Client, msg: Message, ackOk: bool) returns (over: bool)
      requires invite && At(before) && before.point.AtProceeding? && state == Proceeding
      requires spec == InviteStep(tm, before, Response(msg, ackOk))
      modifies this
      ensures Goal() == old(Goal())
      ensures if over then Stopped() else Agrees() && spec.point.AtProceeding? && spec == old(spec) && state == Proceeding && inbox == old(inbox)
    {
      hide RunFrom, NonInviteStep;
      if !msg.response {
        err := Some(UnexpectedMessage);
        Destroy();
        return true;
      }
      if 100 <= msg.status < 200 {
        provisionalRes := Some(msg);
      } else if 200 <= msg.status < 300 {
        finalRes := Some(msg);
        ControllerTerminated();
        return true;
      } else if 300 <= msg.status < 700 {
        finalRes := Some(msg);
        if !ackOk {
          err := Some(NoAck);
          Destroy();
          return true;
        }
        InviteControllerCompleted(msg);
        return true;
      }
      return false;
    }

    method InviteControllerCompleted(final: Message)
      requires invite && spec.point.AtCompleted? && spec.state == Completed && spec.finalRes == Some(final) && state != Closed
      requires err == spec.err && request == spec.request && provisionalRes == spec.provisionalRes && finalRes == spec.finalRes
      requires spec.sent == sent + [Ack(final)] && callbacks == spec.callbacks && panicked == spec.panicked
      modifies this
      ensures Stopped() && Goal() == old(Goal())
    {
      hide RunFrom, NonInviteStep;
      state := Completed;
      sent := sent + [Ack(final)];
      while inbox != []
        invariant Agrees() && Goal() == old(Goal())
        invariant spec.point.AtCompleted? && state == Completed && finalRes == Some(final)
        decreases |inbox|
      {
        var e := Select();
        match e {
          case Destroyed =>
            Destroy();
            return;
          case Timer(_) =>
            ControllerTerminated();
            return;
          case FromUser(_) =>
          case Response(msg, _) =>
            if 300 <= msg.status < 700 {
              sent := sent + [Ack(final)];
            }
        }
      }
    }

    // Non-INVITE

    method NonInviteController()
      requires !invite && Agrees() && spec == NonInviteStart
      modifies this
      ensures Stopped() && Goal() == old(Goal())
    {
      hide RunFrom, InviteStep;
      while inbox != []
        invariant Agrees() && spec == NonInviteStart && Goal() == old(Goal())
        decreases |inbox|
      {
        var e := Select();
        match e {
          case Destroyed =>
            Destroy();
            return;
          case FromUser(msg) =>
            if !msg.request || msg.cseqMethod == "INVITE" {
              err := Some(UnexpectedMessage);
              Destroy();
              return;
            }
            request := Some(msg);
            sent := sent + [Copy(msg)];
            NonInviteControllerProceeding();
            return;
          case Timer(_) =>
          case Response(_, _) =>
        }
      }
    }

    /** Started afresh, timers and all, by every provisional response. */
    method NonInviteControllerProceeding()
      requires !invite && spec.point == AtTrying(0, tm.t1, 64 * tm.t1) && spec.state == Proceeding && state != Closed && request.Some?
      requires err == spec.err && request == spec.request && provisionalRes == spec.provisionalRes && finalRes == spec.finalRes
      requires sent == spec.sent && callbacks == spec.callbacks && panicked == spec.panicked
      modifies this
      ensures Stopped() && Goal() == old(Goal())
      decreases |inbox|, 0
    {
      hide RunFrom, InviteStep;
      state := Proceeding;
      var timerE: nat, timerF: nat := tm.t1, 64 * tm.t1;
      while inbox != []
        invariant Agrees() && Goal() == old(Goal()) && |inbox| <= |old(inbox)|
        invariant spec.point.AtTrying? && spec.point.e == timerE && spec.point.f == timerF
        invariant request.Some? && state == Proceeding
        decreases |inbox|
      {
        ghost var before := spec;
        var e := Select();
        match e {
          case Destroyed =>
            Destroy();
            return;
          case Timer(tie) =>
            if Earlier(timerE, timerF, tie).First? {
              sent := sent + [Copy(request.value)];
              timerF := timerF - timerE;
              timerE := timerE * 2;
              if timerE > tm.t2 {
                timerE := tm.t2;
              }
            } else {
              err := Some(TimedOut);
              ControllerTerminated();
              return;
            }
          case FromUser(_) =>
          case Response(msg, _) =>
            TakeWhileTrying(before, msg);
            return;
        }
      }
    }

    method TakeWhileTrying(ghost before: Client, msg: Message)
      requires !invite && At(before) && before.point.AtTrying? && state == Proceeding && request.Some?
      requires spec == TryingResponse(tm, before, msg)
      modifies this
      ensures Stopped() && Goal() == old(Goal())
      decreases |inbox|, 1
    {
      hide RunFrom, InviteStep;
      if !msg.response {
        Destroy();
      } else if 100 <= msg.status < 200 {
        provisionalRes := Some(msg);
        NonInviteControllerProceeding();
      } else {
        if 300 <= msg.status < 700 {
          err := Some(NonSuccess(msg.status));
        }
        finalRes := Some(msg);
        NonInviteControllerCompleted();
      }
    }

    method NonInviteControllerCompleted()
      requires !invite && spec.point.AtDone? && spec.state == Completed && state != Closed
      requires err == spec.err && request == spec.request && provisionalRes == spec.provisionalRes && finalRes == spec.finalRes
      requires sent == spec.sent && callbacks == spec.callbacks && panicked == spec.panicked
      modifies this
      ensures Stopped() && Goal() == old(Goal())
    {
      hide RunFrom, InviteStep;
      state := Completed;
      while inbox != []
        invariant Agrees() && Goal() == old(Goal()) && spec.point.AtDone? && state == Completed
        decreases |inbox|
      {
        var e := Select();
        match e {
          case Destroyed =>
            Destroy();
            return;
          case Timer(_) =>
            ControllerTerminated();
            return;
          case FromUser(_) =>
          case Response(_, _) =>
        }
      }
    }
  }

  /** Taking the events from the front leads where the runs of ClientTransactions.dfy lead,
      so all that is proved about those holds of the controllers. */
  lemma {:induction false} RunFromAgrees(tm: Timing, invite: bool, before: seq<Event>, after: seq<Event>)
    ensures var start := if invite then InviteRun(tm, before) else NonInviteRun(tm, before);
            RunFrom(tm, invite, start, after)
            == if invite then InviteRun(tm, before + after) else NonInviteRun(tm, before + after)
    decreases |after|
  {
    if after == [] {
      assert before + after == before;
    } else {
      var more := before + [after[0]];
      assert more[..|more|-1] == before;
      assert more + after[1..] == before + after;
      RunFromAgrees(tm, invite, more, after[1..]);
    }
  }

  /** A transaction run on a list of events: where its fields end, once the remaining
      events have met a controller that has returned. */
  method RunClient(tm: Timing, invite: bool, events: seq<Event>) returns (t: ClientTransaction)
    ensures t.Stopped()
    ensures t.Goal() == if invite then InviteRun(tm, events) else NonInviteRun(tm, events)
  {
    t := new ClientTransaction(tm, invite, events);
    RunFromAgrees(tm, invite, [], events);
    assert [] + events == events;
    t.Controller();
  }
}
