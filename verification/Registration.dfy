/** The registrar's table (proxy_registration.go) as rows in insertion order.  The SQL
    engine itself is not modelled: a statement either does what it says or fails. */
module Registration {
  import opened Wrappers

  datatype Row = Row(aor: string, bind: string, q: int, expiredAt: int)

  datatype Operation = Query | Update(bind: string, q: int, expires: int) | Del(bind: string) | DelAll

  /** Which of the statements of an operation fail. */
  datatype Fault = Fault(first: bool, second: bool)

  /** A contact of the answer: the binding, its q value in hundredths, its remaining time. */
  datatype Offer = Offer(bind: string, q: int, expires: int)

  /** The table inside a transaction, and the contacts of the last query. */
  datatype Work = Work(rows: seq<Row>, contacts: Option<seq<Offer>>)

  // The statements

  function Without(rows: seq<Row>, aor: string, bind: string): seq<Row> {
    if rows == [] then []
    else
      var last := rows[|rows|-1];
      var front := Without(rows[..|rows|-1], aor, bind);
      if last.aor == aor && last.bind == bind then front else front + [last]
  }

  function WithoutAor(rows: seq<Row>, aor: string): seq<Row> {
    if rows == [] then []
    else
      var last := rows[|rows|-1];
      var front := WithoutAor(rows[..|rows|-1], aor);
      if last.aor == aor then front else front + [last]
  }

  function Unexpired(rows: seq<Row>, aor: string, now: int): seq<Row> {
    if rows == [] then []
    else
      var last := rows[|rows|-1];
      var front := Unexpired(rows[..|rows|-1], aor, now);
      if last.aor == aor && last.expiredAt >= now then front + [last] else front
  }

  predicate Descending(rows: seq<Row>) {
    forall i, j :: 0 <= i < j < |rows| ==> rows[i].q >= rows[j].q
  }

  function InsertByQ(sorted: seq<Row>, row: Row): seq<Row> {
    if sorted == [] || sorted[|sorted|-1].q >= row.q then sorted + [row]
    else InsertByQ(sorted[..|sorted|-1], row) + [sorted[|sorted|-1]]
  }

  function SortByQ(rows: seq<Row>): seq<Row> {
    if rows == [] then [] else InsertByQ(SortByQ(rows[..|rows|-1]), rows[|rows|-1])
  }

  /** `queryBinding`. */
  function QueryBinding(rows: seq<Row>, aor: string, now: int): seq<Row> {
    SortByQ(Unexpired(rows, aor, now))
  }

  function Offers(binds: seq<Row>, now: int): (os: seq<Offer>)
    ensures |os| == |binds|
    ensures forall i :: 0 <= i < |os| ==> os[i] == Offer(binds[i].bind, binds[i].q, binds[i].expiredAt - now)
  {
    if binds == [] then []
    else Offers(binds[..|binds|-1], now) + [Offer(binds[|binds|-1].bind, binds[|binds|-1].q, binds[|binds|-1].expiredAt - now)]
  }

  /** One operation; None stands for an error that rolls back.  The error of the deletion
      in an update is overwritten by the outcome of the insertion. */
  function Step(w: Work, aor: string, op: Operation, now: int, f: Fault): Option<Work> {
    match op
    case Query => if f.first then None else Some(w.(contacts := Some(Offers(QueryBinding(w.rows, aor, now), now))))
    case Update(bind, q, expires) =>
      var rest := if f.first then w.rows else Without(w.rows, aor, bind);
      if f.second then None else Some(w.(rows := rest + [Row(aor, bind, q, expires + now)]))
    case Del(bind) => if f.first then None else Some(w.(rows := Without(w.rows, aor, bind)))
    case DelAll => if f.first then None else Some(w.(rows := WithoutAor(w.rows, aor)))
  }

  function Batch(w: Work, aor: string, ops: seq<Operation>, now: int, fs: seq<Fault>): Option<Work>
    requires |fs| == |ops|
    decreases |ops|
  {
    if ops == [] then Some(w)
    else
      match Step(w, aor, ops[0], now, fs[0])
      case None => None
      case Some(next) => Batch(next, aor, ops[1..], now, fs[1..])
  }

  // What the table keeps

  /** No two rows share an address-of-record and a binding. */
  ghost predicate Unique(rows: seq<Row>) {
    forall i, j :: 0 <= i < j < |rows| ==> rows[i].aor != rows[j].aor || rows[i].bind != rows[j].bind
  }

  ghost predicate Bound(rows: seq<Row>, aor: string, bind: string) {
    exists r :: r in rows && r.aor == aor && r.bind == bind
  }

  lemma {:induction false} WithoutIn(rows: seq<Row>, aor: string, bind: string, r: Row)
    ensures r in Without(rows, aor, bind) <==> r in rows && !(r.aor == aor && r.bind == bind)
  {
    if rows != [] {
      WithoutIn(rows[..|rows|-1], aor, bind, r);
      assert rows == rows[..|rows|-1] + [rows[|rows|-1]];
    }
  }

  lemma {:induction false} WithoutAorIn(rows: seq<Row>, aor: string, r: Row)
    ensures r in WithoutAor(rows, aor) <==> r in rows && r.aor != aor
  {
    if rows != [] {
      WithoutAorIn(rows[..|rows|-1], aor, r);
      assert rows == rows[..|rows|-1] + [rows[|rows|-1]];
    }
  }

  lemma UniqueMore(rows: seq<Row>, r: Row)
    ensures Unique(rows + [r]) <==> Unique(rows) && !Bound(rows, r.aor, r.bind)
  {
    var more := rows + [r];
    if Unique(more) {
      assert forall i :: 0 <= i < |rows| ==> more[i] == rows[i];
      forall x | x in rows ensures !(x.aor == r.aor && x.bind == r.bind) {
        var i :| 0 <= i < |rows| && rows[i] == x;
        assert more[i] == x && more[|rows|] == r;
      }
    } else if Unique(rows) {
      var i, j :| 0 <= i < j < |more| && more[i].aor == more[j].aor && more[i].bind == more[j].bind;
      assert j == |rows|;
      assert rows[i] in rows;
    }
  }

  lemma {:induction false} WithoutUnique(rows: seq<Row>, aor: string, bind: string)
    requires Unique(rows)
    ensures Unique(Without(rows, aor, bind)) && !Bound(Without(rows, aor, bind), aor, bind)
  {
    if rows != [] {
      var front, last := rows[..|rows|-1], rows[|rows|-1];
      assert rows == front + [last];
      UniqueMore(front, last);
      WithoutUnique(front, aor, bind);
      UniqueMore(Without(front, aor, bind), last);
      if Bound(Without(front, aor, bind), last.aor, last.bind) {
        var r :| r in Without(front, aor, bind) && r.aor == last.aor && r.bind == last.bind;
        WithoutIn(front, aor, bind, r);
      }
    }
    forall r | r in Without(rows, aor, bind) ensures !(r.aor == aor && r.bind == bind) {
      WithoutIn(rows, aor, bind, r);
    }
  }

  lemma {:induction false} WithoutAorUnique(rows: seq<Row>, aor: string)
    requires Unique(rows)
    ensures Unique(WithoutAor(rows, aor))
  {
    if rows != [] {
      var front, last := rows[..|rows|-1], rows[|rows|-1];
      assert rows == front + [last];
      UniqueMore(front, last);
      WithoutAorUnique(front, aor);
      UniqueMore(WithoutAor(front, aor), last);
      if Bound(WithoutAor(front, aor), last.aor, last.bind) {
        var r :| r in WithoutAor(front, aor) && r.aor == last.aor && r.bind == last.bind;
        WithoutAorIn(front, aor, r);
      }
    }
  }

  /** An operation that succeeds keeps the rows unique, except an update of a known binding
      whose deletion failed without a word. */
  lemma StepUniqueExactly(w: Work, aor: string, op: Operation, now: int, f: Fault)
    requires Unique(w.rows) && Step(w, aor, op, now, f).Some?
    ensures Unique(Step(w, aor, op, now, f).value.rows) <==> !(op.Update? && f.first && Bound(w.rows, aor, op.bind))
  {
    match op {
      case Query =>
      case Update(bind, q, expires) =>
        WithoutUnique(w.rows, aor, bind);
        UniqueMore(w.rows, Row(aor, bind, q, expires + now));
        UniqueMore(Without(w.rows, aor, bind), Row(aor, bind, q, expires + now));
      case Del(bind) => WithoutUnique(w.rows, aor, bind);
      case DelAll => WithoutAorUnique(w.rows, aor);
    }
  }

  ghost predicate NoLostDelete(ops: seq<Operation>, fs: seq<Fault>)
    requires |fs| == |ops|
  {
    forall i :: 0 <= i < |ops| && ops[i].Update? ==> !fs[i].first
  }

  lemma {:induction false} BatchUnique(w: Work, aor: string, ops: seq<Operation>, now: int, fs: seq<Fault>)
    requires |fs| == |ops| && Unique(w.rows) && NoLostDelete(ops, fs)
    ensures Batch(w, aor, ops, now, fs).Some? ==> Unique(Batch(w, aor, ops, now, fs).value.rows)
    decreases |ops|
  {
    if ops != [] && Step(w, aor, ops[0], now, fs[0]).Some? {
      StepUniqueExactly(w, aor, ops[0], now, fs[0]);
      assert forall i :: 0 <= i < |ops| - 1 ==> ops[1..][i] == ops[i+1] && fs[1..][i] == fs[i+1];
      BatchUnique(Step(w, aor, ops[0], now, fs[0]).value, aor, ops[1..], now, fs[1..]);
    }
  }

  // The rows of the others

  lemma OthersMore(rows: seq<Row>, r: Row, aor: string)
    ensures WithoutAor(rows + [r], aor) == if r.aor == aor then WithoutAor(rows, aor) else WithoutAor(rows, aor) + [r]
  {
  }

  lemma {:induction false} OthersWithout(rows: seq<Row>, aor: string, bind: string)
    ensures WithoutAor(Without(rows, aor, bind), aor) == WithoutAor(rows, aor)
    ensures WithoutAor(WithoutAor(rows, aor), aor) == WithoutAor(rows, aor)
  {
    if rows != [] {
      var front, last := rows[..|rows|-1], rows[|rows|-1];
      OthersWithout(front, aor, bind);
      OthersMore(Without(front, aor, bind), last, aor);
      OthersMore(WithoutAor(front, aor), last, aor);
    }
  }

  lemma StepOthers(w: Work, aor: string, op: Operation, now: int, f: Fault)
    requires Step(w, aor, op, now, f).Some?
    ensures WithoutAor(Step(w, aor, op, now, f).value.rows, aor) == WithoutAor(w.rows, aor)
  {
    match op {
      case Query =>
      case Update(bind, q, expires) =>
        OthersWithout(w.rows, aor, bind);
        OthersMore(w.rows, Row(aor, bind, q, expires + now), aor);
        OthersMore(Without(w.rows, aor, bind), Row(aor, bind, q, expires + now), aor);
      case Del(bind) => OthersWithout(w.rows, aor, bind);
      case DelAll => OthersWithout(w.rows, aor, "");
    }
  }

  /** A batch leaves the rows of other addresses-of-record as they are, in their order. */
  lemma {:induction false} BatchOthers(w: Work, aor: string, ops: seq<Operation>, now: int, fs: seq<Fault>)
    requires |fs| == |ops| && Batch(w, aor, ops, now, fs).Some?
    ensures WithoutAor(Batch(w, aor, ops, now, fs).value.rows, aor) == WithoutAor(w.rows, aor)
    decreases |ops|
  {
    if ops != [] {
      StepOthers(w, aor, ops[0], now, fs[0]);
      BatchOthers(Step(w, aor, ops[0], now, fs[0]).value, aor, ops[1..], now, fs[1..]);
    }
  }

  // The bindings as a map

  /** The bindings of an address-of-record; a later row hides an earlier one. */
  function Bindings(rows: seq<Row>, aor: string): map<string, (int, int)> {
    if rows == [] then map[]
    else
      var last := rows[|rows|-1];
      var m := Bindings(rows[..|rows|-1], aor);
      if last.aor == aor then m[last.bind := (last.q, last.expiredAt)] else m
  }

  function MapStep(m: map<string, (int, int)>, op: Operation, now: int): map<string, (int, int)> {
    match op
    case Query => m
    case Update(bind, q, expires) => m[bind := (q, expires + now)]
    case Del(bind) => m - {bind}
    case DelAll => map[]
  }

  function MapBatch(m: map<string, (int, int)>, ops: seq<Operation>, now: int): map<string, (int, int)>
    decreases |ops|
  {
    if ops == [] then m else MapBatch(MapStep(m, ops[0], now), ops[1..], now)
  }

  lemma BindingsMore(rows: seq<Row>, r: Row, aor: string)
    ensures Bindings(rows + [r], aor)
         == if r.aor == aor then Bindings(rows, aor)[r.bind := (r.q, r.expiredAt)] else Bindings(rows, aor)
  {
  }

  lemma {:induction false} BindingsWithout(rows: seq<Row>, aor: string, bind: string)
    ensures Bindings(Without(rows, aor, bind), aor) == Bindings(rows, aor) - {bind}
  {
    if rows != [] {
      var front, last := rows[..|rows|-1], rows[|rows|-1];
      BindingsWithout(front, aor, bind);
      BindingsMore(Without(front, aor, bind), last, aor);
    }
  }

  lemma {:induction false} BindingsWithoutAor(rows: seq<Row>, aor: string)
    ensures Bindings(WithoutAor(rows, aor), aor) == map[]
  {
    if rows != [] {
      var front, last := rows[..|rows|-1], rows[|rows|-1];
      BindingsWithoutAor(front, aor);
      BindingsMore(WithoutAor(front, aor), last, aor);
    }
  }

  lemma StepIsMapStep(w: Work, aor: string, op: Operation, now: int, f: Fault)
    requires Step(w, aor, op, now, f).Some?
    ensures Bindings(Step(w, aor, op, now, f).value.rows, aor) == MapStep(Bindings(w.rows, aor), op, now)
  {
    hide Bindings, Without, WithoutAor;
    match op {
      case Query =>
      case Update(bind, q, expires) =>
        BindingsWithout(w.rows, aor, bind);
        BindingsMore(w.rows, Row(aor, bind, q, expires + now), aor);
        BindingsMore(Without(w.rows, aor, bind), Row(aor, bind, q, expires + now), aor);
      case Del(bind) => BindingsWithout(w.rows, aor, bind);
      case DelAll => BindingsWithoutAor(w.rows, aor);
    }
  }

  /** A batch that succeeds is the fold of its operations over the map of bindings. */
  lemma {:induction false} BatchIsFold(w: Work, aor: string, ops: seq<Operation>, now: int, fs: seq<Fault>)
    requires |fs| == |ops| && Batch(w, aor, ops, now, fs).Some?
    ensures Bindings(Batch(w, aor, ops, now, fs).value.rows, aor) == MapBatch(Bindings(w.rows, aor), ops, now)
    decreases |ops|
  {
    if ops != [] {
      StepIsMapStep(w, aor, ops[0], now, fs[0]);
      BatchIsFold(Step(w, aor, ops[0], now, fs[0]).value, aor, ops[1..], now, fs[1..]);
    }
  }

  // The answer

  lemma {:induction false} UnexpiredIn(rows: seq<Row>, aor: string, now: int, r: Row)
    ensures r in Unexpired(rows, aor, now) <==> r in rows && r.aor == aor && r.expiredAt >= now
  {
    if rows != [] {
      UnexpiredIn(rows[..|rows|-1], aor, now, r);
      assert rows == rows[..|rows|-1] + [rows[|rows|-1]];
    }
  }

  lemma {:induction false} Inserted(sorted: seq<Row>, row: Row)
    requires Descending(sorted)
    ensures Descending(InsertByQ(sorted, row)) && multiset(InsertByQ(sorted, row)) == multiset(sorted) + multiset{row}
  {
    if sorted != [] && sorted[|sorted|-1].q < row.q {
      var front, last := sorted[..|sorted|-1], sorted[|sorted|-1];
      Inserted(front, row);
      assert sorted == front + [last];
      var t := InsertByQ(front, row);
      forall i | 0 <= i < |t| ensures t[i].q >= last.q {
        AmongAll(t, front, row, t[i]);
      }
    }
  }

  lemma AmongAll(t: seq<Row>, front: seq<Row>, row: Row, r: Row)
    requires multiset(t) == multiset(front) + multiset{row} && r in t
    ensures r == row || r in front
  {
    assert r in multiset(t);
  }

  lemma {:induction false} Sorted(rows: seq<Row>)
    ensures Descending(SortByQ(rows)) && multiset(SortByQ(rows)) == multiset(rows)
  {
    if rows != [] {
      Sorted(rows[..|rows|-1]);
      Inserted(SortByQ(rows[..|rows|-1]), rows[|rows|-1]);
      assert rows == rows[..|rows|-1] + [rows[|rows|-1]];
    }
  }

  /** The query gives exactly the unexpired rows of the address-of-record, in descending q. */
  lemma QueryAnswers(rows: seq<Row>, aor: string, now: int)
    ensures var res := QueryBinding(rows, aor, now);
            && Descending(res)
            && multiset(res) == multiset(Unexpired(rows, aor, now))
            && forall r :: r in res <==> r in rows && r.aor == aor && r.expiredAt >= now
  {
    var un := Unexpired(rows, aor, now);
    var res := QueryBinding(rows, aor, now);
    Sorted(un);
    forall r ensures r in res <==> r in rows && r.aor == aor && r.expiredAt >= now {
      UnexpiredIn(rows, aor, now, r);
      assert r in res <==> r in multiset(res);
      assert r in un <==> r in multiset(un);
    }
  }

  /** A batch that ends with a query answers with what the table then holds. */
  lemma {:induction false} FinalQuery(w: Work, aor: string, ops: seq<Operation>, now: int, fs: seq<Fault>)
    requires |fs| == |ops| && Batch(w, aor, ops, now, fs).Some? && ops != [] && ops[|ops|-1] == Query
    ensures var done := Batch(w, aor, ops, now, fs).value;
            done.contacts == Some(Offers(QueryBinding(done.rows, aor, now), now))
    decreases |ops|
  {
    if |ops| > 1 {
      FinalQuery(Step(w, aor, ops[0], now, fs[0]).value, aor, ops[1..], now, fs[1..]);
    } else {
      assert ops[1..] == [] && fs[1..] == [];
    }
  }

  lemma {:induction false} UniqueHas(rows: seq<Row>, aor: string, bind: string, q: int, expiredAt: int)
    requires Unique(rows)
    ensures Row(aor, bind, q, expiredAt) in rows <==> bind in Bindings(rows, aor) && Bindings(rows, aor)[bind] == (q, expiredAt)
  {
    if rows != [] {
      var front, last := rows[..|rows|-1], rows[|rows|-1];
      assert rows == front + [last];
      UniqueMore(front, last);
      UniqueHas(front, aor, bind, q, expiredAt);
    }
  }

  /** With unique rows the query gives exactly the unexpired part of the map of bindings. */
  lemma AnswerIsMap(rows: seq<Row>, aor: string, now: int, bind: string, q: int, expiredAt: int)
    requires Unique(rows)
    ensures Row(aor, bind, q, expiredAt) in QueryBinding(rows, aor, now)
       <==> bind in Bindings(rows, aor) && Bindings(rows, aor)[bind] == (q, expiredAt) && expiredAt >= now
  {
    UniqueHas(rows, aor, bind, q, expiredAt);
    QueryAnswers(rows, aor, now);
  }
}
