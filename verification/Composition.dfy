/** The core and the transactions around it: a server transaction leaves its table when its
    machine, fed with what the core handed over, has closed, and a client transaction when
    its own machine, fed with responses the core got as well, has ended without an error.
    What the core's runs assume of the two follows. */
module Composition {
  import C = ClientTransactions
  import opened ProxyCore
  import ProxyPanics
  import opened ProxyRuns
  import opened ProxySafety
  import opened ResponseContexts
  import S = ServerTransactions
  import T = Transactions

  // Leaving the server table

  /** The statuses of the responses among the messages. */
  function Responses(feed: seq<S.Event>): seq<int> {
    if feed == [] then []
    else
      var last := feed[|feed|-1];
      Responses(feed[..|feed|-1]) + (if last.FromUser? && last.msg.response then [last.msg.status] else [])
  }

  /** The machine of the transaction `st`, given the first of the responses handed to it, has
      closed, undisturbed. */
  ghost predicate ClosedBy(tm: T.Timing, st: ServerKey, handed: seq<int>, feed: seq<S.Event>) {
    var invite := st.reqMethod == "INVITE";
    S.RunOf(tm, invite, feed).state == T.Closed && S.Undisturbed(tm, invite, feed) && Responses(feed) <= handed
  }

  lemma {:induction false} ResponseIn(feed: seq<S.Event>, m: T.Message)
    requires S.FromUser(m) in feed && m.response
    ensures m.status in Responses(feed)
  {
    var front := feed[..|feed|-1];
    assert feed == front + [feed[|feed|-1]];
    if S.FromUser(m) in front { ResponseIn(front, m); }
  }

  lemma {:induction false} HasFinal(statuses: seq<int>, i: nat)
    requires i < |statuses| && statuses[i] >= 200
    ensures Finals(statuses) >= 1
  {
    if i < |statuses| - 1 { HasFinal(statuses[..|statuses|-1], i); }
  }

  /** So it was handed a final response. */
  lemma ClosedMeansFinal(tm: T.Timing, st: ServerKey, handed: seq<int>, feed: seq<S.Event>)
    requires ClosedBy(tm, st, handed, feed)
    ensures Finals(handed) >= 1
  {
    var invite := st.reqMethod == "INVITE";
    S.LeavesAnswered(tm, invite, feed);
    S.FinalWasFed(tm, invite, feed);
    var m := S.RunOf(tm, invite, feed).finalRes.value;
    ResponseIn(feed, m);
    var i :| 0 <= i < |Responses(feed)| && Responses(feed)[i] == m.status;
    HasFinal(handed, i);
  }

  // Leaving the client table

  /** The core got a response with this status on the branch `ct`. */
  ghost predicate Got(es: seq<Event>, ct: ClientKey, status: int) {
    exists j :: 0 <= j < |es| && GotAt(es, ct, status, j)
  }

  ghost predicate GotAt(es: seq<Event>, ct: ClientKey, status: int, j: nat)
    requires j < |es|
  {
    es[j].Response? && es[j].ct == ct && es[j].status == status && ct in Run(Init, es[..j]).calls.used
  }

  /** The machine of the transaction `ct` has ended without an error, undisturbed, and the
      core got every response that it did. */
  ghost predicate EndedBy(tm: T.Timing, ct: ClientKey, es: seq<Event>, feed: seq<C.Event>) {
    && C.RunOf(tm, OfInvite(ct), feed).state == T.Closed && C.RunOf(tm, OfInvite(ct), feed).callbacks == []
    && C.Undisturbed(feed)
    && forall m :: C.Received(feed, m) ==> Got(es, ct, m.status)
  }

  lemma EndedMeansFinal(tm: T.Timing, ct: ClientKey, es: seq<Event>, feed: seq<C.Event>) returns (j: nat)
    requires T.Positive(tm) && EndedBy(tm, ct, es, feed)
    ensures j < |es| && es[j].Response? && es[j].ct == ct && es[j].status >= 200 && ct in Run(Init, es[..j]).calls.used
  {
    C.EndsAnswered(tm, OfInvite(ct), feed);
    var m := C.RunOf(tm, OfInvite(ct), feed).finalRes.value;
    assert Got(es, ct, m.status);
    j :| 0 <= j < |es| && GotAt(es, ct, m.status, j);
  }

  // How branches come and go

  /** No new branch. */
  ghost predicate Kept(c: Calls, n: Calls) {
    n.bindings.Keys <= c.bindings.Keys && n.callOf == c.callOf && c.used <= n.used
  }

  /** At most the branch `ct` is new. */
  ghost predicate Added(c: Calls, n: Calls, ct: ClientKey, call: string) {
    n.bindings.Keys <= c.bindings.Keys + {ct} && n.callOf == c.callOf[ct := call] && c.used <= n.used
  }

  lemma BlocksKept(c: Calls, txn: nat, ct: ClientKey, status: int, hasVia: bool)
    ensures Kept(c, Hand(c, txn, status)) && Kept(c, PassOn(c, txn, status, hasVia)) && Kept(c, CloseContext(c, txn, ct, status))
  {
    hide LastBranch;
  }

  lemma DroppedKept(c: Calls, txn: nat, ct: ClientKey, status: int, hasVia: bool)
    ensures Kept(c, Drop(c, ct)) && Kept(c, Hand(Drop(c, ct), txn, status)) && Kept(c, PassOn(Drop(c, ct), txn, status, hasVia))
  {
    BlocksKept(Drop(c, ct), txn, ct, status, hasVia);
    hide Hand, PassOn;
  }

  lemma DroppedAdds(c: Calls, ct: ClientKey, st: ServerKey, next: ClientKey, call: string)
    ensures Added(c, Branch(Drop(c, ct), st, next, call), next, call)
  {
  }

  lemma ResponseMoves(s: Core, e: Event)
    requires e.Response?
    ensures var n := OnResponse(s, e).calls;
            Kept(s.calls, n) || (!Ignored(s.calls, e) && Added(s.calls, n, e.redirect.ct, e.call))
  {
    hide Kept, Added, PassOn, Hand, Drop, Branch, StopBoth, SendUpdate, Start, RouteStatus;
    var c := s.calls;
    KeptSelf(c);
    if Ignored(c, e) { return; }
    var st, r := c.bindings[e.ct], e.redirect;
    var txn := c.servers[st];
    BlocksKept(c, txn, e.ct, e.status, e.hasVia);
    DroppedKept(c, txn, e.ct, e.status, e.hasVia);
    DroppedKept(c, txn, e.ct, NOT_FOUND, true);
    DroppedKept(c, txn, e.ct, TOO_MANY_HOPS, true);
    DroppedKept(c, txn, e.ct, RouteStatus(r.routing), true);
    DroppedAdds(c, e.ct, st, r.ct, e.call);
  }

  lemma KeptSelf(c: Calls)
    ensures Kept(c, c)
  {
  }

  lemma OpenedKept(c: Calls, r: Calls, st: ServerKey, txn: nat, status: int)
    requires r.bindings == c.bindings && r.callOf == c.callOf && r.used == c.used
    ensures Kept(c, Hand(Open(r, st), txn, status))
  {
  }

  lemma OpenedAdds(c: Calls, r: Calls, st: ServerKey, ct: ClientKey, call: string)
    requires r.bindings == c.bindings && r.callOf == c.callOf && r.used == c.used
    ensures Added(c, Branch(Open(r, st), st, ct, call), ct, call)
  {
  }

  lemma SameKept(c: Calls, m: Calls, n: Calls)
    requires Kept(c, m) && n.bindings == m.bindings && n.callOf == m.callOf && n.used == m.used
    ensures Kept(c, n)
  {
  }

  lemma RequestMoves(s: Core, e: Event)
    requires IsRequest(e)
    ensures var n := Handled(s, e).calls;
            Kept(s.calls, n) || ((e.Invite? || (e.InDialog? && e.call in s.calls.callStates)) && Added(s.calls, n, e.ct, e.call))
  {
    hide Kept, Added, CancelCrashes, Branches, CancelsFor, ForwardStatus, Open, Hand, Branch;
    var c, txn, n := s.calls, |s.calls.handed|, Handled(s, e).calls;
    KeptSelf(c);
    match e {
      case Invite(st, call, maxForwards, hop, ct, _, partiesOk) =>
        var status := ForwardStatus(maxForwards, hop);
        var r := Record(c, call, Entry(status == 0, false, partiesOk));
        OpenedKept(c, r, st, txn, status);
        OpenedAdds(c, r, st, ct, call);
      case InDialog(st, call, maxForwards, route, ct) =>
        OpenedKept(c, c, st, txn, NO_CALL_LEG);
        OpenedKept(c, c, st, txn, ForwardStatus(maxForwards, ByRouteHeader(route)));
        OpenedAdds(c, c, st, ct, call);
      case Immediate(st, _, status, _) => OpenedKept(c, c, st, txn, status);
      case Cancel(st, _, _, _) =>
        OpenedKept(c, c, st, txn, NO_CALL_LEG);
        OpenedKept(c, c, st, txn, OK);
        if !CancelCrashes(c, e) && Branches(c.bindings, CancelTarget(st)) != {} { SameKept(c, Hand(Open(c, st), txn, OK), n); }
    }
  }

  lemma FailureMoves(s: Core, e: Event)
    requires e.ClientFailed? || e.TimerCFires? || e.CancelFails?
    ensures Kept(s.calls, Handled(s, e).calls)
  {
    hide CloseContext, StopOne, End;
    var c := s.calls;
    match e {
      case ClientFailed(ct, timedOut) =>
        if ct in c.bindings && c.bindings[ct] in c.servers {
          BlocksKept(c.(clients := c.clients - {ct}), c.servers[c.bindings[ct]], ct, if timedOut then REQUEST_TIMEOUT else INTERNAL_ERROR, true);
        }
      case TimerCFires(ct, _, _) =>
        if ct in s.timers.waiting {
          BlocksKept(c, s.timers.waiting[ct].txn, ct, REQUEST_TIMEOUT, true);
          BlocksKept(c.(clients := c.clients - {ct}), s.timers.waiting[ct].txn, ct, REQUEST_TIMEOUT, true);
        }
      case CancelFails(p, timedOut) =>
        BlocksKept(c.(cancels := c.cancels - {p}), p.txn, p.aim, if timedOut then REQUEST_TIMEOUT else REQUEST_TERMINATED, true);
    }
  }

  /** The key and the Call-ID of the branch that a step may open. */
  function NewKey(e: Event): ClientKey {
    if e.Invite? || e.InDialog? then e.ct else if e.Response? then e.redirect.ct else ClientKey("", "")
  }

  function NewCall(e: Event): string {
    if e.Invite? || e.InDialog? || e.Response? then e.call else ""
  }

  /** A step opens at most one branch, for a call that is known if it is not an INVITE. */
  lemma StepMoves(s: Core, e: Event)
    ensures var n := Step(s, e).calls;
            || Kept(s.calls, n)
            || (&& (e.Invite? || ((e.InDialog? || e.Response?) && e.call in s.calls.callStates))
                && Added(s.calls, n, NewKey(e), NewCall(e)))
  {
    hide Misprints, Closes, Shut, OnResponse;
    if Halted(s) || Absorbed(s.calls, e) || Misprints(s.calls, e) { return; }
    if IsRequest(e) { RequestMoves(s, e); }
    else if e.Response? { ResponseMoves(s, e); }
    else if e.ClientFailed? || e.TimerCFires? || e.CancelFails? { FailureMoves(s, e); }
  }

  /** A client key whose branch is gone never gets one again. */
  lemma UnboundStep(s: Core, e: Event, ct: ClientKey)
    requires Fresh(s, e) && ct in s.calls.used && ct !in s.calls.bindings
    ensures ct in Step(s, e).calls.used && ct !in Step(s, e).calls.bindings
  {
    hide Step;
    StepMoves(s, e);
  }

  lemma {:induction false} UnboundRun(es: seq<Event>, j: nat, ct: ClientKey)
    requires ConformingRun(es) && j <= |es|
    requires ct in Run(Init, es[..j]).calls.used && ct !in Run(Init, es[..j]).calls.bindings
    ensures ct in Run(Init, es).calls.used && ct !in Run(Init, es).calls.bindings
  {
    if j == |es| {
      assert es[..j] == es;
    } else {
      hide Step, Conforming;
      var before := es[..|es|-1];
      forall i | 0 <= i < |before| ensures before[..i] == es[..i] && before[i] == es[i] { RunPrefix(es, i); }
      assert before[..j] == es[..j];
      UnboundRun(before, j, ct);
      assert Conforming(Run(Init, before), es[|es|-1]);
      ConformingFresh(Run(Init, before), es[|es|-1]);
      UnboundStep(Run(Init, before), es[|es|-1], ct);
    }
  }

  lemma ConformingFresh(s: Core, e: Event)
    requires Conforming(s, e)
    ensures Fresh(s, e)
  {
  }

  // Known calls

  /** The call of every live branch is known. */
  ghost predicate Known(c: Calls) {
    forall ct :: ct in c.bindings ==> ct in c.callOf && c.callOf[ct] in c.callStates
  }

  ghost predicate LiveCall(c: Calls, call: string) {
    exists ct :: ct in c.bindings && ct in c.callOf && c.callOf[ct] == call
  }

  /** What is left to assume of the surroundings: client keys are fresh; a CANCEL can be built
      for a forwarded INVITE; CSeq names the method of the request, requests have a Call-ID
      and a response echoes it; an INVITE that cannot be forwarded does not use the Call-ID
      of a call whose INVITE has a live branch; an ACK can be forwarded; what is printed can
      be; and no call with a live branch is forgotten. */
  ghost predicate Surroundings(s: Core, e: Event) {
    var c := s.calls;
    && Fresh(s, e) && Printable(e)
    && (e.Cancel? || (e.TimerCFires? && e.provisional) ==> e.cancelOk)
    && (e.InDialog? ==> !OfInvite(e.ct))
    && (e.Invite? ==> e.call != "")
    && (e.Response? && e.ct in c.bindings && e.ct in c.callOf ==> e.call == c.callOf[e.ct])
    && (e.Invite? && e.st !in c.servers && ForwardStatus(e.maxForwards, e.hop) != 0 ==> !LiveInvite(c, e.call))
    && (e.Ack? && e.st !in c.servers ==> ForwardStatus(e.maxForwards, ByRouteHeader(e.route)) == 0)
    && (e.CallForgotten? ==> !LiveCall(c, e.call))
  }

  /** Transactions leave their tables when their machines say so. */
  ghost predicate ByMachines(tm: T.Timing, es: seq<Event>, e: Event) {
    var c := Run(Init, es).calls;
    && (e.ServerGone? && e.st in c.servers && c.servers[e.st] < |c.handed| ==>
          exists feed :: ClosedBy(tm, e.st, c.handed[c.servers[e.st]], feed))
    && (e.ClientGone? && e.ct in c.used ==> exists feed :: EndedBy(tm, e.ct, es, feed))
  }

  ghost predicate ComposedRun(tm: T.Timing, es: seq<Event>) {
    forall i :: 0 <= i < |es| ==> Surroundings(Run(Init, es[..i]), es[i]) && ByMachines(tm, es[..i], es[i])
  }

  lemma KnownStep(s: Core, e: Event)
    requires Known(s.calls) && Surroundings(s, e) && !Halted(Step(s, e))
    ensures Known(Step(s, e).calls)
  {
    hide Fresh, Printable, ForwardStatus, LiveInvite;
    StepMoves(s, e);
    TableMoves(s, e);
    hide Step;
  }

  /** Only a forgotten call leaves the call table. */
  lemma TableMoves(s: Core, e: Event)
    requires !Halted(Step(s, e))
    ensures var n := Step(s, e).calls.callStates;
            && (forall call :: call in s.calls.callStates && !(e.CallForgotten? && e.call == call) ==> call in n)
            && (e.Invite? && !Absorbed(s.calls, e) && e.call != "" ==> e.call in n)
  {
    hide Misprints, Closes;
    if Halted(s) || Absorbed(s.calls, e) || Misprints(s.calls, e) { return; }
    if e.Invite? {
      ProxyPanics.InviteEnters(s, e);
    } else if !e.CallForgotten? {
      ProxyPanics.CallTableKept(s, e);
    }
    hide OnInvite, OnInDialog, OnCancel, OnResponse, OnClientFailed, OnTimerC, OnCancelFails;
  }

  lemma DropTakes(c: Calls, txn: nat, ct: ClientKey, status: int, hasVia: bool)
    ensures var d := Drop(c, ct);
            && ct !in d.bindings && d.used == c.used
            && ct !in Hand(d, txn, status).bindings && Hand(d, txn, status).used == c.used
            && ct !in PassOn(d, txn, status, hasVia).bindings && PassOn(d, txn, status, hasVia).used == c.used
  {
  }

  /** A final response on a branch takes the branch away. */
  lemma FinalUnbinds(s: Core, e: Event)
    requires Known(s.calls) && Served(s.calls) && Conforming(s, e) && !Halted(s)
    requires e.Response? && e.status >= 200 && e.ct in s.calls.used && !Halted(Step(s, e))
    ensures e.ct in Step(s, e).calls.used && e.ct !in Step(s, e).calls.bindings
  {
    if e.ct !in s.calls.bindings {
      UnboundStep(s, e, e.ct);
    } else {
      assert !Ignored(s.calls, e);
      hide Conforming, Served, Known, Misprints, Closes, Shut, StopBoth, PassOn, Hand, RouteStatus, Start, Drop;
      var c, txn := s.calls, s.calls.servers[s.calls.bindings[e.ct]];
      DropTakes(c, txn, e.ct, e.status, e.hasVia);
      DropTakes(c, txn, e.ct, NOT_FOUND, true);
      DropTakes(c, txn, e.ct, TOO_MANY_HOPS, true);
      DropTakes(c, txn, e.ct, RouteStatus(e.redirect.routing), true);
    }
  }

  lemma ConformsAt(es: seq<Event>, j: nat)
    requires ConformingRun(es) && j < |es|
    ensures Conforming(Run(Init, es[..j]), es[j])
    ensures Run(Init, es[..j + 1]) == Step(Run(Init, es[..j]), es[j])
  {
    hide Conforming, Step;
    assert es[..j + 1] == es[..j] + [es[j]];
    RunAppend(es[..j], es[j]);
  }

  lemma GotUnbinds(es: seq<Event>, j: nat)
    requires ConformingRun(es) && j < |es| && Known(Run(Init, es[..j]).calls)
    requires es[j].Response? && es[j].status >= 200 && es[j].ct in Run(Init, es[..j]).calls.used
    ensures es[j].ct in Run(Init, es[..j + 1]).calls.used && es[j].ct !in Run(Init, es[..j + 1]).calls.bindings
  {
    hide Step, Run, Conforming, ConformingRun, Served, Good, CTimersOk, Known, Halted;
    ConformsAt(es, j);
    ConformingPrefix(es, j);
    ConformingPrefix(es, j + 1);
    ConformingRunSafe(es[..j]);
    ConformingRunSafe(es[..j + 1]);
    FinalUnbinds(Run(Init, es[..j]), es[j]);
  }

  /** What was got as final is not bound any more. */
  lemma GotUnbound(es: seq<Event>, j: nat)
    requires ConformingRun(es) && j < |es| && Known(Run(Init, es[..j]).calls)
    requires es[j].Response? && es[j].status >= 200 && es[j].ct in Run(Init, es[..j]).calls.used
    ensures es[j].ct !in Run(Init, es).calls.bindings
  {
    hide Run, ConformingRun, Known;
    GotUnbinds(es, j);
    UnboundRun(es, j + 1, es[j].ct);
  }

  lemma {:induction false} ComposedPrefix(tm: T.Timing, es: seq<Event>, n: nat)
    requires ComposedRun(tm, es) && n <= |es|
    ensures ComposedRun(tm, es[..n])
  {
    forall i | 0 <= i < n ensures es[..n][..i] == es[..i] && es[..n][i] == es[i] {}
  }

  ghost predicate KnownThroughout(es: seq<Event>) {
    forall j :: 0 <= j <= |es| ==> Known(Run(Init, es[..j]).calls)
  }

  lemma NextConforms(tm: T.Timing, before: seq<Event>, e: Event)
    requires T.Positive(tm) && ComposedRun(tm, before) && ConformingRun(before)
    requires KnownThroughout(before)
    requires Surroundings(Run(Init, before), e) && ByMachines(tm, before, e)
    ensures Conforming(Run(Init, before), e)
  {
    var s := Run(Init, before);
    if e.ServerGone? {
      if e.st in s.calls.servers && s.calls.servers[e.st] < |s.calls.handed| {
        var handed := s.calls.handed[s.calls.servers[e.st]];
        var feed :| ClosedBy(tm, e.st, handed, feed);
        ClosedMeansFinal(tm, e.st, handed, feed);
      }
    } else if e.ClientGone? {
      if e.ct in s.calls.used {
        var feed :| EndedBy(tm, e.ct, before, feed);
        var j := EndedMeansFinal(tm, e.ct, before, feed);
        assert Known(Run(Init, before[..j]).calls);
        GotUnbound(before, j);
      } else {
        ConformingRunSafe(before);
      }
    }
  }

  lemma OneMoreKnown(es: seq<Event>)
    requires es != [] && KnownThroughout(es[..|es|-1]) && Known(Run(Init, es).calls)
    ensures KnownThroughout(es)
  {
    hide Run, Known;
    forall j | 0 <= j <= |es| ensures Known(Run(Init, es[..j]).calls) {
      if j < |es| { assert es[..|es|-1][..j] == es[..j]; } else { assert es[..j] == es; }
    }
  }

  lemma OneMoreConforming(es: seq<Event>)
    requires es != [] && ConformingRun(es[..|es|-1]) && Conforming(Run(Init, es[..|es|-1]), es[|es|-1])
    ensures ConformingRun(es)
  {
    hide Run, Conforming;
    var before := es[..|es|-1];
    forall i | 0 <= i < |es| ensures Conforming(Run(Init, es[..i]), es[i]) {
      if i < |before| { RunPrefix(es, i); assert Conforming(Run(Init, before[..i]), before[i]); } else { assert es[..i] == before; }
    }
  }

  /** A composed run conforms: that server transactions leave only after a final response, and
      client transactions that end well only after theirs was processed, need not be assumed. */
  lemma {:induction false} ComposedConforms(tm: T.Timing, es: seq<Event>)
    requires T.Positive(tm) && ComposedRun(tm, es)
    ensures ConformingRun(es) && KnownThroughout(es)
  {
    if es == [] {
    } else {
      hide Step, Good, CTimersOk, Served, Known, Surroundings, ByMachines, Conforming, ConformingRun, KnownThroughout;
      var before, e := es[..|es|-1], es[|es|-1];
      ComposedPrefix(tm, es, |es| - 1);
      ComposedConforms(tm, before);
      assert Surroundings(Run(Init, before), e) && ByMachines(tm, before, e);
      NextConforms(tm, before, e);
      OneMoreConforming(es);
      ConformingRunSafe(es);
      KnownNow(before);
      KnownStep(Run(Init, before), e);
      OneMoreKnown(es);
    }
  }

  lemma KnownNow(es: seq<Event>)
    requires KnownThroughout(es)
    ensures Known(Run(Init, es).calls)
  {
    assert es[..|es|] == es;
  }

  /** So no call is answered twice for as long as no early ACK and no destruction from outside
      disturb its transactions. */
  lemma ComposedAnswersOnce(tm: T.Timing, es: seq<Event>)
    requires T.Positive(tm) && ComposedRun(tm, es)
    ensures var s := Run(Init, es);
            && !Halted(s)
            && forall txn :: 0 <= txn < |s.calls.handed| ==> ProvisionalsThenFinal(s.calls.handed[txn]) && Finals(s.calls.handed[txn]) <= 1
  {
    hide Finals, ProvisionalsThenFinal;
    ComposedConforms(tm, es);
    AnsweredAtMostOnce(es);
  }

  // The rules can be met

  const Invited := T.Message(true, false, "INVITE", 0, 0)
  const Answered := T.Message(false, true, "INVITE", 200, 1)

  lemma ServerFeed(tm: T.Timing, k: ServerKey)
    requires k.reqMethod == "INVITE"
    ensures ClosedBy(tm, k, [200], [S.FromUser(Answered)])
  {
    var feed := [S.FromUser(Answered)];
    assert feed[..0] == [] && Responses(feed[..0]) == [];
    assert S.InviteRun(tm, feed[..0]) == S.InviteStart;
    assert S.InviteRun(tm, feed) == S.InviteStep(tm, S.InviteStart, feed[0]);
  }

  lemma ClientFeed(tm: T.Timing, ct: ClientKey, es: seq<Event>)
    requires OfInvite(ct) && Got(es, ct, 200)
    ensures EndedBy(tm, ct, es, [C.FromUser(Invited), C.Response(Answered, true)])
  {
    var feed := [C.FromUser(Invited), C.Response(Answered, true)];
    assert feed[..1] == [C.FromUser(Invited)] && feed[..1][..0] == [];
    assert C.InviteRun(tm, feed[..1]) == C.InviteStep(tm, C.InviteStart, C.FromUser(Invited));
    forall m | C.Received(feed, m) ensures Got(es, ct, m.status) {
      assert m == Answered;
    }
  }

  /** An answered call: both transactions leave, by their machines. */
  function AnsweredRun(k: ServerKey, call: string, ct: ClientKey, next: ClientKey): seq<Event> {
    [Invite(k, call, 70, ByRequestUri(Routed), ct, true, true),
     Response(ct, call, 200, true, true, Redirect(false, 0, Routed, next)), ClientGone(ct), ServerGone(k)]
  }

  lemma AnsweredSteps(k: ServerKey, call: string, ct: ClientKey, next: ClientKey)
    requires OfInvite(ct) && call != "" && next != ct
    ensures var es := AnsweredRun(k, call, ct, next);
            var s1 := Step(Init, es[0]);
            var s2 := Step(s1, es[1]);
            var s3 := Step(s2, es[2]);
            && Surroundings(Init, es[0]) && Surroundings(s1, es[1]) && Surroundings(s2, es[2]) && Surroundings(s3, es[3])
            && s1.calls.used == {ct} && s3.calls.servers == map[k := 0] && s3.calls.handed == [[200]]
  {
    hide Step;
    var es := AnsweredRun(k, call, ct, next);
    ProxyPanics.FirstForwarded(k, call, ct);
    var s1 := Step(Init, es[0]);
    FinalPasses(s1, es[1]);
    var s2 := Step(s1, es[1]);
    ClientGoneStep(s2, ct);
    var none: seq<int> := [];
    assert none + [200] == [200];
  }

  lemma ClientGoneStep(s: Core, ct: ClientKey)
    requires !Halted(s)
    ensures Step(s, ClientGone(ct)) == s.(calls := s.calls.(clients := s.calls.clients - {ct}))
  {
  }

  lemma AnsweredCall(tm: T.Timing, k: ServerKey, call: string, ct: ClientKey, next: ClientKey)
    requires OfInvite(ct) && k.reqMethod == "INVITE" && call != "" && next != ct
    ensures ComposedRun(tm, AnsweredRun(k, call, ct, next))
  {
    hide Step, Surroundings, ClosedBy, EndedBy;
    var es := AnsweredRun(k, call, ct, next);
    AnsweredSteps(k, call, ct, next);
    assert es[..0] == [] && es[..1] == es[..0] + [es[0]] && es[..2] == es[..1] + [es[1]] && es[..3] == es[..2] + [es[2]];
    RunAppend(es[..0], es[0]); RunAppend(es[..1], es[1]); RunAppend(es[..2], es[2]);
    assert es[..2][..1] == es[..1] && GotAt(es[..2], ct, 200, 1);
    ClientFeed(tm, ct, es[..2]);
    ServerFeed(tm, k);
    forall i | 0 <= i < |es| ensures Surroundings(Run(Init, es[..i]), es[i]) && ByMachines(tm, es[..i], es[i]) {
      if i == 2 {
        assert EndedBy(tm, ct, es[..2], [C.FromUser(Invited), C.Response(Answered, true)]);
      } else if i == 3 {
        assert ClosedBy(tm, k, Run(Init, es[..3]).calls.handed[0], [S.FromUser(Answered)]);
      }
    }
  }
}
