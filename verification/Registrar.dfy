/** The register controller: a transaction over its two tables, what a REGISTER request
    asks of it (proxy_registration.go), and the choice of a registered target
    (proxy_request_controller.go). */
module Registrar {
  import opened Wrappers
  import opened Registration

  /** The statements that fail: on the sequence table, of each operation, the commit; and
      whether the error of the first one that counts speaks of a syntax error. */
  datatype Faults = Faults(begin: bool, select: bool, seqDelete: bool, seqInsert: bool, ops: seq<Fault>, commit: bool, syntax: bool)

  datatype Reply = Failed | Refused | Accepted(contacts: Option<seq<Offer>>)

  type Sequences = map<string, (string, int)>

  /** The test on Call-ID and CSeq, which a failing read skips.  It refuses a number that is not lower than the stored
      one, where section 10.3 of RFC 3261 refuses one that is not higher. */
  predicate Refuses(seqs: Sequences, aor: string, count: nat, callId: string, cseq: int) {
    aor in seqs && aor != "" && count > 1 && seqs[aor].0 == callId && seqs[aor].1 <= cseq
  }

  /** What a batch comes to: the new tables and the reply. */
  function Outcome(rows: seq<Row>, seqs: Sequences, aor: string, ops: seq<Operation>, callId: string, cseq: int, now: int, f: Faults)
    : (seq<Row>, Sequences, Reply)
    requires |f.ops| == |ops|
  {
    var done := Batch(Work(rows, None), aor, ops, now, f.ops);
    if f.begin then (rows, seqs, Failed)
    else if !f.select && Refuses(seqs, aor, |ops|, callId, cseq) then (rows, seqs, Refused)
    else if f.seqDelete || f.seqInsert || done.None? || f.commit then (rows, seqs, Failed)
    else (done.value.rows, seqs[aor := (callId, cseq)], Accepted(done.value.contacts))
  }

  class RegisterController {
    var rows: seq<Row>
    var seqs: Sequences
    /** What a rollback goes back to. */
    var saved: (seq<Row>, Sequences)

    constructor ()
      ensures rows == [] && seqs == map[]
    {
      rows, seqs, saved := [], map[], ([], map[]);
    }

    method Begin()
      modifies this`saved
      ensures saved == (rows, seqs)
    {
      saved := (rows, seqs);
    }

    method Rollback()
      modifies this`rows, this`seqs
      ensures (rows, seqs) == saved
    {
      rows, seqs := saved.0, saved.1;
    }

    /** `issueTransaction`: all of the operations, or nothing. */
    method IssueTransaction(aor: string, ops: seq<Operation>, callId: string, cseq: int, now: int, f: Faults) returns (reply: Reply)
      requires |f.ops| == |ops|
      modifies this
      ensures (rows, seqs, reply) == Outcome(old(rows), old(seqs), aor, ops, callId, cseq, now, f)
      ensures !reply.Accepted? ==> rows == old(rows) && seqs == old(seqs)
      ensures WithoutAor(rows, aor) == WithoutAor(old(rows), aor)
      ensures seqs - {aor} == old(seqs) - {aor}
      ensures Unique(old(rows)) && NoLostDelete(ops, f.ops) ==> Unique(rows)
      ensures reply.Accepted? ==> Bindings(rows, aor) == MapBatch(Bindings(old(rows), aor), ops, now)
      ensures reply.Accepted? && ops != [] && ops[|ops|-1] == Query ==>
                reply.contacts == Some(Offers(QueryBinding(rows, aor, now), now))
    {
      hide Step, WithoutAor, Without, Bindings, MapBatch, Unique, NoLostDelete, Offers, QueryBinding;
      if f.begin {
        return Failed;
      }
      Begin();
      if !f.select && aor in seqs && aor != "" {
        if |ops| > 1 && seqs[aor].0 == callId && seqs[aor].1 <= cseq {
          Rollback();
          return Refused;
        }
      }
      if f.seqDelete {
        Rollback();
        return Failed;
      }
      seqs := seqs - {aor};
      if f.seqInsert {
        Rollback();
        return Failed;
      }
      seqs := seqs[aor := (callId, cseq)];
      assert seqs == old(seqs)[aor := (callId, cseq)];
      ghost var start := Work(rows, None);
      var ok, contacts := Perform(aor, ops, now, f.ops);
      if !ok {
        Rollback();
        return Failed;
      }
      if f.commit {
        Rollback();
        return Failed;
      }
      if Unique(old(rows)) && NoLostDelete(ops, f.ops) {
        BatchUnique(start, aor, ops, now, f.ops);
      }
      BatchOthers(start, aor, ops, now, f.ops);
      BatchIsFold(start, aor, ops, now, f.ops);
      if ops != [] && ops[|ops|-1] == Query {
        FinalQuery(start, aor, ops, now, f.ops);
      }
      return Accepted(contacts);
    }

    /** The loop over the operations. */
    method Perform(aor: string, ops: seq<Operation>, now: int, fs: seq<Fault>) returns (ok: bool, contacts: Option<seq<Offer>>)
      requires |fs| == |ops|
      modifies this`rows
      ensures ok <==> Batch(Work(old(rows), None), aor, ops, now, fs).Some?
      ensures ok ==> Batch(Work(old(rows), None), aor, ops, now, fs) == Some(Work(rows, contacts))
    {
      hide Without, WithoutAor, QueryBinding, Offers;
      contacts := None;
      ghost var start := Work(rows, None);
      assert ops[0..] == ops && fs[0..] == fs;
      for i := 0 to |ops|
        invariant Batch(start, aor, ops, now, fs) == Batch(Work(rows, contacts), aor, ops[i..], now, fs[i..])
      {
        assert ops[i..][1..] == ops[i+1..] && fs[i..][1..] == fs[i+1..];
        match ops[i] {
          case Query =>
            if fs[i].first {
              return false, None;
            }
            contacts := Some(Offers(QueryBinding(rows, aor, now), now));
          case Update(bind, q, expires) =>
            if !fs[i].first {
              rows := Without(rows, aor, bind);
            }
            if fs[i].second {
              return false, None;
            }
            rows := rows + [Row(aor, bind, q, expires + now)];
          case Del(bind) =>
            if fs[i].first {
              return false, None;
            }
            rows := Without(rows, aor, bind);
          case DelAll =>
            if fs[i].first {
              return false, None;
            }
            rows := WithoutAor(rows, aor);
        }
      }
      ok := true;
    }
  }

  // A series of registrations

  datatype Call = Call(aor: string, ops: seq<Operation>, callId: string, cseq: int, now: int, faults: Faults)

  predicate WellFormed(c: Call) {
    |c.faults.ops| == |c.ops|
  }

  type Series = calls: seq<Call> | forall i :: 0 <= i < |calls| ==> WellFormed(calls[i])

  function Comes(rows: seq<Row>, seqs: Sequences, c: Call): (seq<Row>, Sequences, Reply)
    requires WellFormed(c)
  {
    Outcome(rows, seqs, c.aor, c.ops, c.callId, c.cseq, c.now, c.faults)
  }

  /** The tables after any series of calls. */
  function After(rows: seq<Row>, seqs: Sequences, calls: Series): (seq<Row>, Sequences) {
    if calls == [] then (rows, seqs)
    else
      var before := After(rows, seqs, calls[..|calls|-1]);
      var (r, s, _) := Comes(before.0, before.1, calls[|calls|-1]);
      (r, s)
  }

  function ReplyTo(rows: seq<Row>, seqs: Sequences, calls: Series, c: Call): Reply
    requires WellFormed(c)
  {
    var before := After(rows, seqs, calls);
    Comes(before.0, before.1, c).2
  }

  predicate Accepts(rows: seq<Row>, seqs: Sequences, calls: Series, i: nat)
    requires i < |calls|
  {
    ReplyTo(rows, seqs, calls[..i], calls[i]).Accepted?
  }

  /** Call-ID and number of the last accepted call of `aor`, of whatever kind, or those stored
      at the start. */
  function LastAccepted(rows: seq<Row>, seqs: Sequences, calls: Series, aor: string): Option<(string, int)> {
    if calls == [] then (if aor in seqs then Some(seqs[aor]) else None)
    else
      var last := calls[|calls|-1];
      if last.aor == aor && Accepts(rows, seqs, calls, |calls| - 1) then Some((last.callId, last.cseq))
      else LastAccepted(rows, seqs, calls[..|calls|-1], aor)
  }

  lemma {:induction false} StoredIsLast(rows: seq<Row>, seqs: Sequences, calls: Series, aor: string)
    ensures var stored := After(rows, seqs, calls).1;
            LastAccepted(rows, seqs, calls, aor) == if aor in stored then Some(stored[aor]) else None
  {
    hide Batch;
    if calls != [] { StoredIsLast(rows, seqs, calls[..|calls|-1], aor); }
  }

  predicate FaultFree(f: Faults) {
    && !f.begin && !f.select && !f.seqDelete && !f.seqInsert && !f.commit
    && forall i :: 0 <= i < |f.ops| ==> f.ops[i] == Fault(false, false)
  }

  lemma {:induction false} NoFaultNoFailure(w: Work, aor: string, ops: seq<Operation>, now: int, fs: seq<Fault>)
    requires |fs| == |ops| && forall i :: 0 <= i < |fs| ==> fs[i] == Fault(false, false)
    ensures Batch(w, aor, ops, now, fs).Some?
    decreases |ops|
  {
    hide Without, WithoutAor, QueryBinding, Offers;
    if ops != [] { NoFaultNoFailure(Step(w, aor, ops[0], now, fs[0]).value, aor, ops[1..], now, fs[1..]); }
  }

  /** After any series of calls, a call without faults is accepted unless it changes bindings
      and the last accepted call of its address-of-record had the same Call-ID and a number
      that is not higher than its own; then, and only then, it is refused. */
  lemma RefusedIff(rows: seq<Row>, seqs: Sequences, calls: Series, c: Call)
    requires WellFormed(c) && FaultFree(c.faults)
    ensures var reply, last := ReplyTo(rows, seqs, calls, c), LastAccepted(rows, seqs, calls, c.aor);
            && (reply.Refused? || reply.Accepted?)
            && (reply.Refused? <==>
                  c.aor != "" && |c.ops| > 1 && last.Some? && last.value.0 == c.callId && last.value.1 <= c.cseq)
  {
    hide Batch;
    StoredIsLast(rows, seqs, calls, c.aor);
    NoFaultNoFailure(Work(After(rows, seqs, calls).0, None), c.aor, c.ops, c.now, c.faults.ops);
  }

  /** The calls from `i` to before `j` change bindings under one Call-ID, as far as they are
      accepted for the address-of-record. */
  ghost predicate OnlyChanges(rows: seq<Row>, seqs: Sequences, calls: Series, i: nat, j: nat)
    requires i < j <= |calls|
  {
    forall k :: i < k < j && calls[k].aor == calls[i].aor && Accepts(rows, seqs, calls, k) ==>
      |calls[k].ops| > 1 && calls[k].callId == calls[i].callId && !calls[k].faults.select
  }

  lemma {:induction false} StoredAtMost(rows: seq<Row>, seqs: Sequences, calls: Series, i: nat)
    requires i < |calls| && calls[i].aor != "" && Accepts(rows, seqs, calls, i) && OnlyChanges(rows, seqs, calls, i, |calls|)
    ensures var last := LastAccepted(rows, seqs, calls, calls[i].aor);
            last.Some? && last.value.0 == calls[i].callId && last.value.1 <= calls[i].cseq
    decreases |calls|
  {
    hide Batch, After;
    var front, n := calls[..|calls|-1], |calls| - 1;
    if i < n {
      forall k | i <= k < n ensures Accepts(rows, seqs, front, k) == Accepts(rows, seqs, calls, k) && front[k] == calls[k] {
        assert calls[..k] == front[..k];
      }
      StoredAtMost(rows, seqs, front, i);
      StoredIsLast(rows, seqs, front, calls[i].aor);
    }
  }

  /** While only changes under one Call-ID are accepted for an address-of-record, and no read
      of the stored number fails, the accepted numbers decrease. */
  lemma AcceptedDecrease(rows: seq<Row>, seqs: Sequences, calls: Series, i: nat, j: nat)
    requires i < j < |calls| && calls[i].aor == calls[j].aor != "" && calls[i].callId == calls[j].callId
    requires Accepts(rows, seqs, calls, i) && Accepts(rows, seqs, calls, j)
    requires OnlyChanges(rows, seqs, calls, i, j + 1)
    ensures calls[j].cseq < calls[i].cseq
  {
    hide Batch, After;
    var front := calls[..j];
    forall k | i <= k < j ensures Accepts(rows, seqs, front, k) == Accepts(rows, seqs, calls, k) && front[k] == calls[k] {
      assert calls[..k] == front[..k];
    }
    StoredAtMost(rows, seqs, front, i);
    StoredIsLast(rows, seqs, front, calls[i].aor);
  }

  /** The condition is needed: a query in between lets the numbers of one Call-ID rise. */
  lemma QueryLetsRise(rows: seq<Row>, aor: string, callId: string, change: seq<Operation>, now: int)
    requires |change| > 1
    ensures var none := Fault(false, false);
            var f, q := Faults(false, false, false, false, seq(|change|, i => none), false, false),
                        Faults(false, false, false, false, [none], false, false);
            var calls := [Call(aor, change, callId, 5, now, f), Call(aor, [Query], callId, 10, now, q), Call(aor, change, callId, 7, now, f)];
            (forall i :: 0 <= i < 3 ==> WellFormed(calls[i]))
            && Accepts(rows, map[], calls, 0) && Accepts(rows, map[], calls, 1) && Accepts(rows, map[], calls, 2)
  {
    hide Batch, After;
    var none := Fault(false, false);
    var f, q := Faults(false, false, false, false, seq(|change|, i => none), false, false),
                Faults(false, false, false, false, [none], false, false);
    var calls: Series := [Call(aor, change, callId, 5, now, f), Call(aor, [Query], callId, 10, now, q), Call(aor, change, callId, 7, now, f)];
    RefusedIff(rows, map[], calls[..0], calls[0]);
    RefusedIff(rows, map[], calls[..1], calls[1]);
    assert calls[..2][..1] == calls[..1] && calls[..2][1] == calls[1];
    RefusedIff(rows, map[], calls[..2], calls[2]);
  }

  // A REGISTER request

  /** An Expires header or an expires parameter. */
  datatype Number = Absent | Garbled | Is(n: int)

  /** `q` is None when the parameter is missing or no number. */
  datatype Contact = Contact(star: bool, uri: Option<string>, q: Option<real>, expires: Number)

  const MINIMUM_EXPIRES := 90

  datatype Determined = Asks(op: Operation) | Status(code: int)

  /** Conversion to an integer: towards zero. */
  function Truncate(x: real): int {
    if x < 0.0 then -((-x).Floor) else x.Floor
  }

  /** `determOperation`. */
  function DetermOperation(contact: Contact, header: Number): (d: Determined)
    ensures d.Status? ==> d.code == 400 || d.code == 423
  {
    var headerValue := if header.Is? then header.n else 0;
    if contact.star then
      if headerValue != 0 then Status(400) else Asks(DelAll)
    else if contact.uri.None? then Status(400)
    else
      var q := Truncate((if contact.q.Some? then contact.q.value else 0.0) * 100.0);
      if q > 1 || q < 0 then Status(400)
      else if contact.expires.Garbled? then Status(400)
      else if contact.expires == Is(0) || (header == Is(0) && contact.expires.Absent?) then Asks(Del(contact.uri.value))
      else
        var expires := if header.Is? then header.n else if contact.expires.Is? then contact.expires.n else MINIMUM_EXPIRES;
        if expires < MINIMUM_EXPIRES then Status(423) else Asks(Update(contact.uri.value, q, expires))
  }

  /** Of the q values from 0 to 1 only those below 0.02 pass, and they are stored as 0 or 1
      hundredth; of the others, those just below 0 pass.  Whatever expiry is asked for, any
      other q gives 400, and a q that passes changes nothing but what is stored. */
  lemma QAccepted(contact: Contact, header: Number)
    requires !contact.star && contact.uri.Some? && contact.q.Some?
    ensures var d, plain := DetermOperation(contact, header), DetermOperation(contact.(q := None), header);
            if -1.0 < contact.q.value * 100.0 < 2.0
            then d == if plain.Asks? && plain.op.Update?
                      then Asks(plain.op.(q := if contact.q.value * 100.0 < 1.0 then 0 else 1)) else plain
            else d == Status(400)
    ensures contact.expires.Absent? && header.Absent? ==>
              (DetermOperation(contact, header).Asks? <==> -1.0 < contact.q.value * 100.0 < 2.0)
  {
  }

  /** What a row can be: its q value is 0 or 1. */
  ghost predicate Plausible(rows: seq<Row>) {
    forall r :: r in rows ==> r.q == 0 || r.q == 1
  }

  predicate Sound(op: Operation) {
    op.Update? ==> (op.q == 0 || op.q == 1) && op.expires >= MINIMUM_EXPIRES
  }

  lemma DeterminedSound(contact: Contact, header: Number)
    ensures DetermOperation(contact, header).Asks? ==> Sound(DetermOperation(contact, header).op)
  {
  }

  lemma {:induction false} BatchPlausible(w: Work, aor: string, ops: seq<Operation>, now: int, fs: seq<Fault>)
    requires |fs| == |ops| && Plausible(w.rows) && forall op :: op in ops ==> Sound(op)
    ensures Batch(w, aor, ops, now, fs).Some? ==> Plausible(Batch(w, aor, ops, now, fs).value.rows)
    decreases |ops|
  {
    if ops != [] && Step(w, aor, ops[0], now, fs[0]).Some? {
      var next := Step(w, aor, ops[0], now, fs[0]).value;
      assert ops[0] in ops;
      forall r | r in next.rows ensures r.q == 0 || r.q == 1 {
        if ops[0].Update? || ops[0].Del? {
          WithoutIn(w.rows, aor, ops[0].bind, r);
        } else {
          WithoutAorIn(w.rows, aor, r);
        }
      }
      BatchPlausible(next, aor, ops[1..], now, fs[1..]);
    }
  }

  /** The operations that the contacts ask for, with a query at the end; or the status of
      the first contact that is refused. */
  function Operations(contacts: seq<Contact>, header: Number): (r: Result<seq<Operation>, int>)
    ensures r.Ok? ==> |r.value| == |contacts| + 1
    ensures r.Err? ==> r.error == 400 || r.error == 423
  {
    if contacts == [] then Ok([Query])
    else
      match DetermOperation(contacts[0], header)
      case Status(code) => Err(code)
      case Asks(op) =>
        match Operations(contacts[1..], header)
        case Err(code) => Err(code)
        case Ok(ops) => Ok([op] + ops)
  }

  lemma {:induction false} OperationsSound(contacts: seq<Contact>, header: Number)
    requires Operations(contacts, header).Ok?
    ensures var ops := Operations(contacts, header).value;
            |ops| == |contacts| + 1 && ops[|ops|-1] == Query && forall op :: op in ops ==> Sound(op)
  {
    if contacts != [] {
      DeterminedSound(contacts[0], header);
      OperationsSound(contacts[1..], header);
    }
  }

  datatype Answer = Answer(status: int, contacts: Option<seq<Offer>>)

  /** What becomes of a request whose contacts ask for `ops`.  Without an address in To the
      transaction panics once it has begun, is rolled back, and 500 is answered. */
  function Served(rows: seq<Row>, seqs: Sequences, aor: Option<string>, ops: seq<Operation>, callId: string, cseq: int, now: int, f: Faults): Reply
    requires |f.ops| == |ops|
  {
    if aor.Some? then Outcome(rows, seqs, aor.value, ops, callId, cseq, now, f).2 else Failed
  }

  /** `registration`: a refused contact leaves the tables alone. */
  method Register(controller: RegisterController, aor: Option<string>, contacts: seq<Contact>, header: Number,
                  callId: string, cseq: int, now: int, f: Faults) returns (answer: Answer)
    requires |f.ops| == |contacts| + 1
    modifies controller
    ensures answer.status != 200 ==> controller.rows == old(controller.rows) && controller.seqs == old(controller.seqs)
    ensures answer.status == if header.Garbled? then 400
                             else if Operations(contacts, header).Err? then Operations(contacts, header).error
                             else
                               match Served(old(controller.rows), old(controller.seqs), aor, Operations(contacts, header).value, callId, cseq, now, f)
                               case Accepted(_) => 200
                               case Refused => 400
                               case Failed => if f.syntax || (aor.None? && !f.begin) then 500 else 400
    ensures answer.status == 200 ==>
              && aor.Some?
              && Bindings(controller.rows, aor.value) == MapBatch(Bindings(old(controller.rows), aor.value), Operations(contacts, header).value, now)
              && answer.contacts == Some(Offers(QueryBinding(controller.rows, aor.value, now), now))
    ensures Plausible(old(controller.rows)) ==> Plausible(controller.rows)
    ensures aor.Some? ==> WithoutAor(controller.rows, aor.value) == WithoutAor(old(controller.rows), aor.value)
  {
    hide DetermOperation, Batch, Bindings, MapBatch, QueryBinding, Offers, WithoutAor, Sound, Plausible, Operations;
    if header.Garbled? {
      return Answer(400, None);
    }
    var operations := CollectOperations(contacts, header);
    if operations.Err? {
      return Answer(operations.error, None);
    }
    var ops := operations.value;
    OperationsSound(contacts, header);
    if aor.None? {
      return Answer(if f.begin && !f.syntax then 400 else 500, None);
    }
    var reply := controller.IssueTransaction(aor.value, ops, callId, cseq, now, f);
    if Plausible(old(controller.rows)) {
      BatchPlausible(Work(old(controller.rows), None), aor.value, ops, now, f.ops);
    }
    match reply {
      case Accepted(offers) => return Answer(200, offers);
      case Refused => return Answer(400, None);
      case Failed => return Answer(if f.syntax then 500 else 400, None);
    }
  }

  /** The loop over the contacts. */
  method CollectOperations(contacts: seq<Contact>, header: Number) returns (r: Result<seq<Operation>, int>)
    ensures r == Operations(contacts, header)
  {
    hide DetermOperation;
    var ops: seq<Operation> := [];
    assert contacts[0..] == contacts;
    PrefixedNone(Operations(contacts, header));
    for i := 0 to |contacts|
      invariant |ops| == i && Operations(contacts, header) == Prefixed(ops, Operations(contacts[i..], header))
    {
      assert contacts[i..][1..] == contacts[i+1..];
      var d := DetermOperation(contacts[i], header);
      match d {
        case Status(code) =>
          return Err(code);
        case Asks(op) =>
          PrefixedMore(ops, op, Operations(contacts[i+1..], header));
          ops := ops + [op];
      }
    }
    assert contacts[|contacts|..] == [];
    return Ok(ops + [Query]);
  }

  lemma PrefixedNone(rest: Result<seq<Operation>, int>)
    ensures Prefixed([], rest) == rest
  {
    assert rest.Ok? ==> [] + rest.value == rest.value;
  }

  function Prefixed(ops: seq<Operation>, rest: Result<seq<Operation>, int>): Result<seq<Operation>, int> {
    if rest.Ok? then Ok(ops + rest.value) else rest
  }

  lemma PrefixedMore(ops: seq<Operation>, op: Operation, rest: Result<seq<Operation>, int>)
    ensures Prefixed(ops, Prefixed([op], rest)) == Prefixed(ops + [op], rest)
  {
    assert rest.Ok? ==> ops + ([op] + rest.value) == ops + [op] + rest.value;
  }
}
