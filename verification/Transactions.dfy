/** What the four transaction state machines share (sip/transaction.go). */
module Transactions {
  datatype State = Init | Trying | Calling | Proceeding | Completed | Confirmed | Terminated | Closed

  function Rank(s: State): nat {
    match s
    case Init => 0
    case Trying => 1
    case Calling => 2
    case Proceeding => 3
    case Completed => 4
    case Confirmed => 5
    case Terminated => 6
    case Closed => 7
  }

  /** A message as a controller sees it; `id` tells different messages apart. */
  datatype Message = Message(request: bool, response: bool, cseqMethod: string, status: int, id: nat)

  predicate Provisional(m: Message) {
    100 <= m.status < 200
  }

  predicate Final(m: Message) {
    200 <= m.status < 700
  }

  predicate IsAck(m: Message) {
    m.request && m.cseqMethod == "ACK"
  }

  datatype Error = UnexpectedMessage | TimedOut | TransactionClosed | NonSuccess(status: int) | NoAck

  /** T1 and T2; in the program 500 ms and 4 s. */
  datatype Timing = Timing(t1: nat, t2: nat)

  ghost predicate Positive(tm: Timing) {
    0 < tm.t1 <= tm.t2
  }

  /** The default ratio of the two timers. */
  ghost predicate Standard(tm: Timing) {
    0 < tm.t1 && tm.t2 == 8 * tm.t1
  }

  /** What a `select` picks: the earlier of two equal timers is a free choice. */
  datatype Pick = First | Second

  function Earlier(first: nat, second: nat, tie: Pick): Pick {
    if first < second then First else if second < first then Second else tie
  }

  function Doubled(timer: nat, cap: nat): nat {
    if 2 * timer > cap then cap else 2 * timer
  }

  function Pow2(n: nat): nat {
    if n == 0 then 1 else 2 * Pow2(n - 1)
  }

  // The two kinds of retransmission timer

  /** Timers A and B after `n` retransmissions: the interval doubles without a cap. */
  ghost predicate UncappedAfter(t1: nat, n: nat, a: nat, b: int) {
    a == Pow2(n) * t1 && b == (65 - Pow2(n)) * t1
  }

  /** Timers E and F, or G and H, after `n` retransmissions with T2 = 8·T1. */
  ghost predicate CappedAfter(t1: nat, n: nat, g: nat, h: int) {
    && n <= 10
    && g == (if n < 3 then Pow2(n) * t1 else 8 * t1)
    && h == (if n < 3 then (65 - Pow2(n)) * t1 else (57 - 8 * (n - 3)) * t1)
  }

  lemma Pow2Small()
    ensures Pow2(0) == 1 && Pow2(1) == 2 && Pow2(2) == 4 && Pow2(3) == 8
    ensures Pow2(4) == 16 && Pow2(5) == 32 && Pow2(6) == 64
  {
  }

  lemma UncappedStart(t1: nat)
    ensures UncappedAfter(t1, 0, t1, 64 * t1)
  {
  }

  lemma CappedStart(t1: nat)
    ensures CappedAfter(t1, 0, t1, 64 * t1)
  {
  }

  /** Timers A and B never tie; A goes first exactly six times. */
  lemma UncappedStep(t1: nat, n: nat, a: nat, b: int)
    requires t1 > 0 && n <= 6 && UncappedAfter(t1, n, a, b)
    ensures n < 6 ==> a < b && UncappedAfter(t1, n + 1, 2 * a, b - a)
    ensures n == 6 ==> 0 <= b < a
  {
  }

  /** With T2 = 8·T1 the capped timers never tie; the retransmission timer goes first
      exactly ten times. */
  lemma CappedStep(t1: nat, n: nat, g: nat, h: int)
    requires t1 > 0 && CappedAfter(t1, n, g, h)
    ensures n < 10 ==> g < h && CappedAfter(t1, n + 1, Doubled(g, 8 * t1), h - g)
    ensures n == 10 ==> 0 <= h < g
    ensures n <= 10
  {
    Pow2Small();
    assert n == 0 || n == 1 || n == 2 || n == 3 || n == 4 || n == 5 || n == 6 || n == 7 || n == 8 || n == 9 || n == 10;
  }

  /** The number of copies of `m` among the messages sent. */
  function Copies(sent: seq<Message>, m: Message): nat {
    if sent == [] then 0
    else Copies(sent[..|sent|-1], m) + (if sent[|sent|-1] == m then 1 else 0)
  }

  lemma CopiesAppend(sent: seq<Message>, x: Message, m: Message)
    ensures Copies(sent + [x], m) == Copies(sent, m) + (if x == m then 1 else 0)
  {
  }

  lemma {:induction false} NoCopies(sent: seq<Message>, m: Message)
    requires m !in sent
    ensures Copies(sent, m) == 0
  {
    if sent != [] { NoCopies(sent[..|sent|-1], m); }
  }
}
