/** Where a request goes: to a registered binding of highest q, or by the prefix of the
    dialled string (proxy_request_controller.go). */
module Routing {
  import opened Wrappers
  import opened Registration
  import PrefixTries

  /** A row whose binding can be parsed. */
  predicate Usable<T>(r: Row, parse: string -> Option<T>) {
    r.aor != "" && r.bind != "" && parse(r.bind).Some?
  }

  /** No usable row has a higher q. */
  ghost predicate Best<T(!new)>(rows: seq<Row>, r: Row, parse: string -> Option<T>) {
    Usable(r, parse) && forall x :: x in rows && Usable(x, parse) ==> x.q <= r.q
  }

  /** The usable rows with this q, in order. */
  function WithQ<T>(rows: seq<Row>, q: int, parse: string -> Option<T>): seq<Row> {
    if rows == [] then []
    else
      var front, last := WithQ(rows[..|rows|-1], q, parse), rows[|rows|-1];
      if Usable(last, parse) && last.q == q then front + [last] else front
  }

  lemma {:induction false} WithQIn<T>(rows: seq<Row>, q: int, parse: string -> Option<T>, r: Row)
    ensures r in WithQ(rows, q, parse) <==> r in rows && Usable(r, parse) && r.q == q
  {
    if rows != [] {
      WithQIn(rows[..|rows|-1], q, parse, r);
      assert rows == rows[..|rows|-1] + [rows[|rows|-1]];
    }
  }

  /** The highest q of a usable row. */
  function HighestQ<T>(rows: seq<Row>, parse: string -> Option<T>): Option<int> {
    if rows == [] then None
    else
      var front, last := HighestQ(rows[..|rows|-1], parse), rows[|rows|-1];
      if Usable(last, parse) && (front.None? || front.value < last.q) then Some(last.q) else front
  }

  /** The usable rows of the highest q that any usable row has, if that is not negative. */
  function Chosen<T>(rows: seq<Row>, parse: string -> Option<T>): seq<Row> {
    match HighestQ(rows, parse)
    case Some(q) => if q >= 0 then WithQ(rows, q, parse) else []
    case None => []
  }

  /** What a scan that stops at the first lower q finds. */
  ghost predicate Scanned<T(!new)>(rows: seq<Row>, chosen: seq<Row>, parse: string -> Option<T>) {
    if chosen == [] then forall r :: r in rows && Usable(r, parse) ==> r.q < 0
    else Best(rows, chosen[0], parse) && chosen[0].q >= 0 && chosen == WithQ(rows, chosen[0].q, parse)
  }

  lemma {:induction false} HighestIs<T(!new)>(rows: seq<Row>, parse: string -> Option<T>)
    ensures var h := HighestQ(rows, parse);
            if h.None? then forall r :: r in rows ==> !Usable(r, parse)
            else (exists r :: r in rows && Usable(r, parse) && r.q == h.value) && forall r :: r in rows && Usable(r, parse) ==> r.q <= h.value
  {
    if rows != [] {
      HighestIs(rows[..|rows|-1], parse);
      assert rows == rows[..|rows|-1] + [rows[|rows|-1]];
    }
  }

  lemma ScannedIsChosen<T(!new)>(rows: seq<Row>, chosen: seq<Row>, parse: string -> Option<T>)
    ensures Scanned(rows, chosen, parse) <==> chosen == Chosen(rows, parse)
  {
    HighestIs(rows, parse);
    var h := HighestQ(rows, parse);
    if chosen != [] {
      WithQIn(rows, chosen[0].q, parse, chosen[0]);
      assert chosen[0] in chosen;
      if h.Some? {
        WithQIn(rows, h.value, parse, chosen[0]);
      }
    }
    if h.Some? {
      var r :| r in rows && Usable(r, parse) && r.q == h.value;
      WithQIn(rows, h.value, parse, r);
    }
  }

  lemma {:induction false} ChosenUsable<T>(rows: seq<Row>, q: int, parse: string -> Option<T>)
    ensures AllUsable(WithQ(rows, q, parse), parse)
  {
    if rows != [] {
      ChosenUsable(rows[..|rows|-1], q, parse);
    }
  }

  function Target<T>(r: Row, parse: string -> Option<T>): T
    requires Usable(r, parse)
  {
    parse(r.bind).value
  }

  predicate AllUsable<T>(rows: seq<Row>, parse: string -> Option<T>) {
    forall i :: 0 <= i < |rows| ==> Usable(rows[i], parse)
  }

  /** The targets that the chosen rows name. */
  function BestTargets<T>(rows: seq<Row>, parse: string -> Option<T>): seq<T> {
    if HighestQ(rows, parse).Some? then ChosenUsable(rows, HighestQ(rows, parse).value, parse); Targets(Chosen(rows, parse), parse) else []
  }

  function Targets<T>(rows: seq<Row>, parse: string -> Option<T>): (ts: seq<T>)
    requires AllUsable(rows, parse)
    ensures |ts| == |rows| && forall i :: 0 <= i < |rows| ==> ts[i] == Target(rows[i], parse)
  {
    if rows == [] then [] else Targets(rows[..|rows|-1], parse) + [Target(rows[|rows|-1], parse)]
  }

  /** What the first `n` rows have given. */
  ghost predicate SoFar<T(!new)>(binds: seq<Row>, n: nat, chosen: seq<Row>, lastQ: int, parse: string -> Option<T>)
    requires n <= |binds|
  {
    if chosen == [] then lastQ == 0 && forall k :: 0 <= k < n ==> !Usable(binds[k], parse)
    else chosen[0].q == lastQ && chosen == WithQ(binds[..n], lastQ, parse) && Best(binds[..n], chosen[0], parse)
  }

  lemma SoFarMore<T(!new)>(binds: seq<Row>, n: nat, chosen: seq<Row>, lastQ: int, parse: string -> Option<T>)
    requires n < |binds| && SoFar(binds, n, chosen, lastQ, parse)
    ensures !Usable(binds[n], parse) ==> SoFar(binds, n + 1, chosen, lastQ, parse)
    ensures Usable(binds[n], parse) && (chosen == [] || binds[n].q == lastQ) ==> SoFar(binds, n + 1, chosen + [binds[n]], binds[n].q, parse)
  {
    assert binds[..n+1] == binds[..n] + [binds[n]];
    if chosen == [] {
      NoneWithQ(binds[..n], binds[n].q, parse);
      assert [] + [binds[n]] == [binds[n]];
    }
  }

  lemma SoFarNone<T(!new)>(binds: seq<Row>, parse: string -> Option<T>)
    ensures SoFar(binds, 0, [], 0, parse)
  {
  }

  lemma SoFarAll<T(!new)>(binds: seq<Row>, chosen: seq<Row>, lastQ: int, parse: string -> Option<T>)
    requires SoFar(binds, |binds|, chosen, lastQ, parse) && lastQ >= 0
    ensures Scanned(binds, chosen, parse)
  {
    assert binds[..|binds|] == binds;
  }

  /** The candidates in `route`. */
  method Candidates<T(!new)>(binds: seq<Row>, parse: string -> Option<T>) returns (candidates: seq<T>)
    requires Descending(binds)
    ensures candidates == BestTargets(binds, parse)
  {
    ghost var chosen;
    candidates, chosen := Scan(binds, parse);
    ScannedIsChosen(binds, chosen, parse);
  }

  method Scan<T(!new)>(binds: seq<Row>, parse: string -> Option<T>) returns (candidates: seq<T>, ghost chosen: seq<Row>)
    requires Descending(binds)
    ensures Scanned(binds, chosen, parse) && AllUsable(chosen, parse) && candidates == Targets(chosen, parse)
  {
    hide SoFar, WithQ;
    SoFarNone(binds, parse);
    candidates, chosen := [], [];
    var lastQ, i := 0, 0;
    var n := 0;
    while n < |binds|
      invariant 0 <= n <= |binds| && i == |candidates|
      invariant AllUsable(chosen, parse) && candidates == Targets(chosen, parse)
      invariant lastQ >= 0 && forall k :: n <= k < |binds| && chosen != [] ==> binds[k].q <= lastQ
      invariant SoFar(binds, n, chosen, lastQ, parse)
    {
      var bind := binds[n];
      if lastQ > bind.q {
        LowerEnds(binds, n, chosen, lastQ, parse);
        return;
      }
      SoFarMore(binds, n, chosen, lastQ, parse);
      var uri := parse(bind.bind);
      if bind.aor == "" || bind.bind == "" || uri.None? {
        n := n + 1;
        continue;
      }
      assert (chosen + [bind])[..|chosen|] == chosen;
      candidates := candidates + [uri.value];
      chosen := chosen + [bind];
      lastQ := bind.q;
      i := i + 1;
      n := n + 1;
    }
    SoFarAll(binds, chosen, lastQ, parse);
    candidates := candidates[..i];
  }

  lemma {:induction false} NoneWithQ<T>(rows: seq<Row>, q: int, parse: string -> Option<T>)
    requires forall k :: 0 <= k < |rows| ==> !Usable(rows[k], parse)
    ensures WithQ(rows, q, parse) == []
  {
    if rows != [] {
      NoneWithQ(rows[..|rows|-1], q, parse);
    }
  }

  lemma {:induction false} NoneOfQ<T>(rows: seq<Row>, n: nat, q: int, parse: string -> Option<T>)
    requires n <= |rows| && forall k :: n <= k < |rows| ==> rows[k].q != q
    ensures WithQ(rows, q, parse) == WithQ(rows[..n], q, parse)
  {
    if n < |rows| {
      NoneOfQ(rows[..|rows|-1], n, q, parse);
      assert rows[..|rows|-1][..n] == rows[..n];
    } else {
      assert rows[..n] == rows;
    }
  }

  /** Behind the first lower q there is nothing to find. */
  lemma LowerEnds<T(!new)>(binds: seq<Row>, n: nat, chosen: seq<Row>, lastQ: int, parse: string -> Option<T>)
    requires Descending(binds) && n < |binds| && binds[n].q < lastQ && lastQ >= 0
    requires SoFar(binds, n, chosen, lastQ, parse)
    ensures Scanned(binds, chosen, parse)
  {
    assert forall k :: n <= k < |binds| ==> binds[k].q < lastQ;
    NoneOfQ(binds, n, lastQ, parse);
    forall r | r in binds && Usable(r, parse)
      ensures if chosen == [] then r.q < 0 else r.q <= lastQ
    {
      var k :| 0 <= k < |binds| && binds[k] == r;
      assert k < n ==> binds[k] in binds[..n];
    }
  }

  /** The candidates for an address-of-record are exactly its unexpired, parseable bindings
      of highest q. */
  lemma RoutedExactly<T(!new)>(rows: seq<Row>, aor: string, now: int, parse: string -> Option<T>, r: Row)
    requires forall x :: x in rows ==> x.q >= 0
    ensures r in Chosen(QueryBinding(rows, aor, now), parse) <==>
              && r in rows && r.aor == aor && r.expiredAt >= now && Usable(r, parse)
              && forall x :: x in rows && x.aor == aor && x.expiredAt >= now && Usable(x, parse) ==> x.q <= r.q
  {
    var binds := QueryBinding(rows, aor, now);
    var chosen := Chosen(binds, parse);
    QueryAnswers(rows, aor, now);
    ScannedIsChosen(binds, chosen, parse);
    hide QueryBinding, Chosen;
    if chosen != [] {
      WithQIn(binds, chosen[0].q, parse, r);
      WithQIn(binds, chosen[0].q, parse, chosen[0]);
      assert chosen[0] in chosen;
    }
  }

  // The route

  datatype Destination<T> = Registered(uri: T) | Static(fwd: PrefixTries.Fwd) | NotFound

  /** The string that the prefix table is asked for. */
  function Service(scheme: string, username: string, host: string): string {
    if scheme == "sip" then username else if scheme == "tel" then host else ""
  }

  /** `route`; `pick` is the random choice. */
  method Route<T(!new)>(binds: seq<Row>, parse: string -> Option<T>, pick: nat, scheme: string, username: string, host: string,
                        translater: PrefixTries.Translater) returns (target: Destination<T>)
    requires Descending(binds) && translater.Valid()
    ensures var best := BestTargets(binds, parse);
            if best != [] then target == Registered(best[pick % |best|])
            else
              var found := PrefixTries.Longest(translater.Contents(), Service(scheme, username, host));
              target == if found.Some? && found.value in translater.Contents() then Static(translater.Contents()[found.value]) else NotFound
  {
    hide BestTargets, PrefixTries.Longest;
    var candidates := Candidates(binds, parse);
    if |candidates| > 0 {
      return Registered(candidates[pick % |candidates|]);
    }
    var node := translater.table.Search(Service(scheme, username, host), translater.tree);
    if node == null {
      return NotFound;
    }
    return Static(node.fwd.value);
  }
}
