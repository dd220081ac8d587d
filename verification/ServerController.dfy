/** The server transaction's controllers as the loops they are: a `select` takes the next
    thing that happens, a method runs until nothing more happens or the controller
    returns.  A pick that the current `select` does not offer passes without effect, so a
    single `select` is a loop here too.  Each controller is proved to carry out the step
    function of ServerTransactions.dfy. */
module ServerController {
  import opened Wrappers
  import opened Transactions
  import opened ServerTransactions

  class ServerTransaction {
    const tm: Timing
    var state: State
    var err: Option<Error>
    var provisionalRes: Option<Message>
    var finalRes: Option<Message>
    var sent: seq<Message>
    var inbox: seq<Event>
    ghost var point: Point
    ghost var clock: nat
    ghost var log: seq<Event>

    ghost function View(): Server
      reads this
    {
      Server(point, state, err, provisionalRes, finalRes, sent, clock)
    }

    /** The object is where `c` says, `script` being all that ever happens. */
    ghost predicate InviteAt(c: Server, script: seq<Event>)
      reads this
    {
      View() == c && c == InviteRun(tm, log) && log + inbox == script
    }

    ghost predicate Stopped()
      reads this
    {
      inbox == [] || point.Returned?
    }

    constructor (tm: Timing, inbox: seq<Event>)
      ensures this.tm == tm && this.inbox == inbox && log == [] && sent == []
      ensures err.None? && provisionalRes.None? && finalRes.None? && clock == 0 && state == Init
    {
      this.tm, this.inbox := tm, inbox;
      state, err, provisionalRes, finalRes, sent := Init, None, None, None, [];
      point, clock, log := AtFirst, 0, [];
    }

    method Select() returns (e: Event)
      requires inbox != []
      modifies this`inbox, this`log
      ensures log == old(log) + [e] && log + inbox == old(log + inbox) && |inbox| == |old(inbox)| - 1
    {
      e := inbox[0];
      inbox, log := inbox[1..], log + [e];
    }

    method Destroy()
      modifies this`state, this`point
      ensures View() == Close(old(View()))
    {
      if state != Closed {
        state := Closed;
      }
      point := Returned;
    }

    method ControllerTerminated()
      modifies this`state, this`point
      ensures View() == Close(old(View()))
    {
      state := Terminated;
      Destroy();
    }

    method InviteController()
      requires log == [] && err.None? && provisionalRes.None? && finalRes.None? && sent == [] && clock == 0
      modifies this
      ensures InviteAt(InviteRun(tm, log), old(inbox)) && Stopped()
    {
      assert InviteRun(tm, []) == InviteStart;
      hide InviteRun;
      ghost var script := inbox;
      state, point := Proceeding, AtFirst;
      if inbox == [] {
        return;
      }
      var e := Select();
      InviteAppend(tm, [], e);
      match e {
        case Destroyed =>
          Destroy();
          return;
        case Timer(_) =>
          provisionalRes, sent := Some(Trying100), sent + [Trying100];
        case FromUser(m) =>
          if !m.response {
            err := Some(UnexpectedMessage);
            Destroy();
            return;
          }
          if 100 < m.status < 200 {
            provisionalRes, sent := Some(m), sent + [m];
          } else if 200 <= m.status < 300 {
            finalRes, sent := Some(m), sent + [m];
            ControllerTerminated();
            return;
          } else if 300 <= m.status < 700 {
            finalRes, sent := Some(m), sent + [m];
            InviteControllerCompleted(script);
            return;
          }
      }
      point := AtSecond;
      InviteProcessing(script);
    }

    /** The loop after the first provisional response. */
    method InviteProcessing(ghost script: seq<Event>)
      requires point.AtSecond? && InviteAt(View(), script)
      modifies this
      ensures InviteAt(InviteRun(tm, log), script) && Stopped()
    {
      hide InviteRun;
      while inbox != []
        invariant point.AtSecond? && InviteAt(View(), script)
        decreases |inbox|
      {
        ghost var before := log;
        var e := Select();
        InviteAppend(tm, before, e);
        match e {
          case Destroyed =>
            Destroy();
            return;
          case Timer(_) =>
          case FromUser(m) =>
            if !m.response {
              Destroy();
              return;
            }
            if 100 < m.status < 200 {
              provisionalRes, sent := Some(m), sent + [m];
            } else if 200 <= m.status < 300 {
              finalRes, sent := Some(m), sent + [m];
              ControllerTerminated();
              return;
            } else if 300 <= m.status <= 600 {
              finalRes, sent := Some(m), sent + [m];
              InviteControllerCompleted(script);
              return;
            } else {
              point := Returned;
              return;
            }
        }
      }
    }

    method InviteControllerCompleted(ghost script: seq<Event>)
      requires finalRes.Some? && EnterCompleted(tm, View()) == InviteRun(tm, log) && log + inbox == script
      modifies this
      ensures InviteAt(InviteRun(tm, log), script) && Stopped()
    {
      hide InviteRun;
      state := Completed;
      var timerG: nat, timerH: nat := tm.t1, 64 * tm.t1;
      ghost var n: nat := 0;
      point, clock := AtCompleted(0, timerG, timerH), 0;
      while inbox != []
        invariant finalRes.Some? && point == AtCompleted(n, timerG, timerH) && InviteAt(View(), script)
        decreases |inbox|
      {
        ghost var before := log;
        var e := Select();
        InviteAppend(tm, before, e);
        match e {
          case Timer(tie) =>
            if Earlier(timerG, timerH, tie).First? {
              sent := sent + [finalRes.value];
              clock := clock + timerG;
              timerH := timerH - timerG;
              timerG := timerG * 2;
              if timerG > tm.t2 {
                timerG := tm.t2;
              }
              n := n + 1;
              point := AtCompleted(n, timerG, timerH);
            } else {
              clock := clock + timerH;
              ControllerTerminated();
              return;
            }
          case Destroyed =>
            Destroy();
            return;
          case FromUser(m) =>
            if m.request && m.cseqMethod == "ACK" {
              InviteControllerConfirmed(script);
              return;
            }
        }
      }
    }

    method InviteControllerConfirmed(ghost script: seq<Event>)
      requires View().(state := Confirmed, point := AtConfirmed) == InviteRun(tm, log) && log + inbox == script
      modifies this
      ensures InviteAt(InviteRun(tm, log), script) && Stopped()
    {
      hide InviteRun;
      state, point := Confirmed, AtConfirmed;
      while inbox != []
        invariant point.AtConfirmed? && InviteAt(View(), script)
        decreases |inbox|
      {
        ghost var before := log;
        var e := Select();
        InviteAppend(tm, before, e);
        match e {
          case Destroyed =>
            Destroy();
            return;
          case FromUser(_) =>
          case Timer(_) =>
            ControllerTerminated();
            return;
        }
      }
    }

    // Non-INVITE

    ghost predicate NonInviteAt(c: Server, script: seq<Event>)
      reads this
    {
      View() == c && c == NonInviteRun(log) && log + inbox == script
    }

    method NonInviteController()
      requires log == [] && err.None? && provisionalRes.None? && finalRes.None? && sent == [] && clock == 0
      modifies this
      ensures NonInviteAt(NonInviteRun(log), old(inbox)) && Stopped()
    {
      assert NonInviteRun([]) == NonInviteStart;
      hide NonInviteRun;
      ghost var script := inbox;
      state, point := Trying, AtTrying;
      while inbox != []
        invariant View() == NonInviteStart && NonInviteAt(View(), script)
        decreases |inbox|
      {
        ghost var before := log;
        var e := Select();
        NonInviteAppend(before, e);
        match e {
          case Destroyed =>
            Destroy();
            return;
          case Timer(_) => // no timer runs yet
          case FromUser(m) =>
            if !m.response {
              err := Some(UnexpectedMessage);
              Destroy();
              return;
            }
            sent := sent + [m];
            if 100 < m.status < 200 {
              provisionalRes := Some(m);
              NonInviteControllerProceeding(script);
            } else if 200 <= m.status < 700 {
              finalRes := Some(m);
              NonInviteControllerCompleted(script);
            } else {
              point := Returned;
            }
            return;
        }
      }
    }

    method NonInviteControllerProceeding(ghost script: seq<Event>)
      requires View().(state := Proceeding, point := AtProceeding) == NonInviteRun(log) && log + inbox == script
      modifies this
      ensures NonInviteAt(NonInviteRun(log), script) && Stopped()
    {
      hide NonInviteRun;
      state, point := Proceeding, AtProceeding;
      while inbox != []
        invariant point.AtProceeding? && NonInviteAt(View(), script)
        decreases |inbox|
      {
        ghost var before := log;
        var e := Select();
        NonInviteAppend(before, e);
        match e {
          case Destroyed =>
            Destroy();
            return;
          case Timer(_) =>
          case FromUser(m) =>
            if !m.response {
              err := Some(UnexpectedMessage);
              Destroy();
              return;
            }
            sent := sent + [m];
            if 100 < m.status < 200 {
              provisionalRes := Some(m);
            } else if 200 <= m.status < 700 {
              finalRes := Some(m);
              NonInviteControllerCompleted(script);
              return;
            }
        }
      }
    }

    method NonInviteControllerCompleted(ghost script: seq<Event>)
      requires View().(state := Completed, point := AtDone) == NonInviteRun(log) && log + inbox == script
      modifies this
      ensures NonInviteAt(NonInviteRun(log), script) && Stopped()
    {
      hide NonInviteRun;
      state, point := Completed, AtDone;
      while inbox != []
        invariant point.AtDone? && NonInviteAt(View(), script)
        decreases |inbox|
      {
        ghost var before := log;
        var e := Select();
        NonInviteAppend(before, e);
        match e {
          case Timer(_) =>
            ControllerTerminated();
            return;
          case Destroyed =>
            Destroy();
            return;
          case FromUser(_) => // nobody reads the channel any more
        }
      }
    }
  }

  lemma InviteAppend(tm: Timing, es: seq<Event>, e: Event)
    ensures InviteRun(tm, es + [e]) == InviteStep(tm, InviteRun(tm, es), e)
  {
  }

  lemma NonInviteAppend(es: seq<Event>, e: Event)
    ensures NonInviteRun(es + [e]) == NonInviteStep(NonInviteRun(es), e)
  {
  }
}
