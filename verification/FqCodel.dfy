/** The FQ-CoDel queueing discipline: deficit round robin over per-flow CoDel queues, as a
    function from state to state (section 4 of RFC 8290). */
module FqCodel {
  import opened SerialTime
  import opened Newton
  import opened Codel

  datatype Flow = Flow(queue: seq<Packet>, deficit: int, dropped: int, vars: Vars)

  /** What has ever happened to a flow. */
  datatype History = History(arrived: seq<Packet>, log: seq<Event>, departed: seq<Departure>)

  /** `newFlows` and `oldFlows` list flow indices. `parent` is how many packets the parent
      class believes are queued here. `time` is the last clock reading and `ticks` the number of
      readings so far. `freeing` belongs to the history: packets dequeued are to be freed, not handed out. */
  datatype Sched = Sched(
    flows: seq<Flow>, backlogs: seq<int>, newFlows: seq<nat>, oldFlows: seq<nat>,
    qlen: int, total: int, limit: nat, quantum: u32, params: Params,
    stats: Stats, drops: int, overLimit: int, newFlowCount: int,
    parent: int, hist: seq<History>, time: nat, ticks: nat, freeing: bool)

  /** Real time that passes between two successive readings of the kernel clock. */
  type Clock = nat -> nat

  function ReadClock(s: Sched, gap: Clock): Sched {
    s.(time := s.time + gap(s.ticks), ticks := s.ticks + 1)
  }

  // ---------- shape ----------

  ghost predicate Distinct(l: seq<nat>) {
    forall i, j :: 0 <= i < j < |l| ==> l[i] != l[j]
  }

  ghost predicate ListsOk(s: Sched) {
    && Distinct(s.newFlows + s.oldFlows)
    && (forall k :: 0 <= k < |s.newFlows| ==> s.newFlows[k] < |s.flows|)
    && (forall k :: 0 <= k < |s.oldFlows| ==> s.oldFlows[k] < |s.flows|)
  }

  /** The arrays agree in length, the lists name each flow at most once, and no deficit is
      outside the `int` it is kept in. */
  ghost predicate WellFormed(s: Sched) {
    && |s.flows| == |s.backlogs| == |s.hist| > 0
    && 0 < s.quantum
    && ListsOk(s)
    && forall i :: 0 <= i < |s.flows| ==> -HALF <= s.flows[i].deficit < HALF
  }

  /** The quantum is not the one that never helps a deficit past 0. */
  ghost predicate Shape(s: Sched) {
    WellFormed(s) && s.quantum != HALF
  }

  // ---------- one flow within the whole ----------

  function CellOf(s: Sched, i: nat): Cell
    requires i < |s.flows| == |s.backlogs| == |s.hist|
  {
    Cell(s.flows[i].queue, s.flows[i].vars, s.backlogs[i], s.qlen, s.total, s.stats, s.drops,
         s.hist[i].log, s.hist[i].departed)
  }

  function PutCell(s: Sched, i: nat, c: Cell): Sched
    requires i < |s.flows| == |s.backlogs| == |s.hist|
  {
    s.(flows := s.flows[i := s.flows[i].(queue := c.queue, vars := c.vars)],
       backlogs := s.backlogs[i := c.backlog],
       qlen := c.qlen, total := c.total, stats := c.stats, drops := c.drops,
       hist := s.hist[i := s.hist[i].(log := c.log, departed := c.departed)])
  }

  /** The discipline as `fq_codel_init` leaves it. */
  function Initial(flows: nat, limit: nat, quantum: u32, params: Params): Sched {
    Sched(seq(flows, _ => Flow([], 0, 0, InitialVars)), seq(flows, _ => 0), [], [], 0, 0, limit, quantum, params,
          Stats(0, 0, 0, 0, 0), 0, 0, 0, 0, seq(flows, _ => History([], [], [])), 0, 0, false)
  }

  // ---------- enqueue ----------

  datatype Verdict = Unclassified | Success | CongestionNotice

  /** The flow the over-limit drop picks: the first one of largest backlog. */
  function FatFlow(backlogs: seq<int>, n: nat): (fat: nat)
    requires n <= |backlogs|
    ensures n == 0 || fat < n
    ensures n == 0 ==> fat == 0
  {
    if n == 0 then 0 else
      var fat := FatFlow(backlogs, n - 1);
      var max := if n == 1 then 0 else if backlogs[fat] > 0 then backlogs[fat] else 0;
      if backlogs[n - 1] > max then n - 1 else fat
  }

  /** Drops the head packet of the fattest flow. */
  function DropFat(s: Sched): (Sched, nat)
    requires |s.flows| == |s.backlogs| == |s.hist| > 0
    requires s.flows[FatFlow(s.backlogs, |s.backlogs|)].queue != []
  {
    var fat := FatFlow(s.backlogs, |s.backlogs|);
    var pkt := s.flows[fat].queue[0];
    var flow := s.flows[fat].(queue := s.flows[fat].queue[1..], dropped := s.flows[fat].dropped + 1);
    (s.(flows := s.flows[fat := flow],
        backlogs := s.backlogs[fat := s.backlogs[fat] - pkt.len],
        qlen := s.qlen - 1, total := s.total - pkt.len, drops := s.drops + 1,
        hist := s.hist[fat := s.hist[fat].(departed := s.hist[fat].departed + [Departure(pkt, OverLimit)])]),
     fat)
  }

  /** A packet as it comes from above, before the enqueue stamps it. */
  datatype Incoming = Incoming(tag: nat, len: PacketLength, ect: bool)

  function Stamped(pkt: Incoming, time: nat): Packet {
    Packet(pkt.tag, pkt.len, time, pkt.ect)
  }

  /** Appends a packet to flow `i`, listing the flow as new if it was on no list. */
  function Append(s: Sched, i: nat, pkt: Packet): Sched
    requires i < |s.flows| == |s.backlogs| == |s.hist|
  {
    var unlisted := i !in s.newFlows && i !in s.oldFlows;
    var f := s.flows[i].(queue := s.flows[i].queue + [pkt]);
    s.(flows := s.flows[i := if unlisted then f.(deficit := Signed(s.quantum), dropped := 0) else f],
       backlogs := s.backlogs[i := s.backlogs[i] + pkt.len],
       total := s.total + pkt.len, qlen := s.qlen + 1,
       newFlows := if unlisted then s.newFlows + [i] else s.newFlows,
       newFlowCount := if unlisted then s.newFlowCount + 1 else s.newFlowCount,
       hist := s.hist[i := s.hist[i].(arrived := s.hist[i].arrived + [pkt])])
  }

  /** What follows the append: the new packet stays, or the fattest flow loses its head. */
  function Admit(s: Sched, classid: nat): (Sched, Verdict)
    requires |s.flows| == |s.backlogs| == |s.hist| > 0
    requires s.flows[FatFlow(s.backlogs, |s.backlogs|)].queue != []
  {
    if s.qlen <= s.limit then (s.(parent := s.parent + 1), Success) else
      // Success counts one more above and reports one less; a congestion notice does neither.
      var (t, fat) := DropFat(s.(overLimit := s.overLimit + 1));
      (t, if fat == classid - 1 then CongestionNotice else Success)
  }

  /** The packet's flow exists, and if the queue overflows there is a packet to drop. */
  ghost predicate Enqueueable(s: Sched, classid: nat, pkt: Incoming, gap: Clock) {
    && |s.flows| == |s.backlogs| == |s.hist| && classid <= |s.flows|
    && (classid != 0 ==>
          var s1 := ReadClock(s, gap);
          var s2 := Append(s1, classid - 1, Stamped(pkt, s1.time));
          s2.flows[FatFlow(s2.backlogs, |s2.backlogs|)].queue != [])
  }

  /** `fq_codel_enqueue`. The classifier has put the packet in class `classid`, 0 for none;
      `bypass` says whether an unclassified packet is to be counted as dropped. */
  function Enqueue(s: Sched, classid: nat, pkt: Incoming, bypass: bool, gap: Clock): (Sched, Verdict)
    requires Enqueueable(s, classid, pkt, gap)
  {
    if classid == 0 then ((if bypass then s.(drops := s.drops + 1) else s), Unclassified) else
      var s1 := ReadClock(s, gap);
      var s2 := Append(s1, classid - 1, Stamped(pkt, s1.time));
      Admit(s2, classid)
  }

  // ---------- dequeue ----------

  /** One pass through the block that starts at `begin`. */
  datatype Pass = Idle | Again(s: Sched) | Got(next: Sched, pkt: Packet)

  function First(s: Sched): nat
    requires s.newFlows != [] || s.oldFlows != []
  {
    if s.newFlows != [] then s.newFlows[0] else s.oldFlows[0]
  }

  /** Unlinks the first flow from the list it heads. */
  function Unlink(s: Sched): Sched
    requires s.newFlows != [] || s.oldFlows != []
  {
    if s.newFlows != [] then s.(newFlows := s.newFlows[1..]) else s.(oldFlows := s.oldFlows[1..])
  }

  /** Moves the first flow to the tail of the old flows. */
  function MoveToOld(s: Sched): Sched
    requires s.newFlows != [] || s.oldFlows != []
  {
    var u := Unlink(s);
    u.(oldFlows := u.oldFlows + [First(s)])
  }

  /** A deficit and a quantum added up in the machine's `int`. */
  function Topped(deficit: int, quantum: u32): int {
    Signed(Wrap(deficit + quantum))
  }

  /** Gives the first flow another quantum and sends it to the back. */
  function Refill(s: Sched): Sched
    requires s.newFlows != [] || s.oldFlows != []
    requires First(s) < |s.flows|
  {
    var i := First(s);
    MoveToOld(s.(flows := s.flows[i := s.flows[i].(deficit := Topped(s.flows[i].deficit, s.quantum))]))
  }

  /** Runs CoDel on flow `i`, which reads the clock if there is a packet, and keeps the flow's own
      drop count. */
  function Poll(s: Sched, i: nat, gap: Clock): (Sched, Option<Packet>)
    requires i < |s.flows| == |s.backlogs| == |s.hist|
  {
    PollAt(if s.flows[i].queue == [] then s else ReadClock(s, gap), i)
  }

  /** The same at the time of the last reading. */
  function PollAt(s: Sched, i: nat): (Sched, Option<Packet>)
    requires i < |s.flows| == |s.backlogs| == |s.hist|
  {
    var (c, out) := Dequeue(CellOf(s, i), s.params, s.time);
    var t := PutCell(s, i, c);
    var shed := (c.stats.dropCount - s.stats.dropCount) + (c.stats.ecnMark - s.stats.ecnMark);
    (t.(flows := t.flows[i := t.flows[i].(dropped := t.flows[i].dropped + shed)]), out)
  }

  /** Tells the parent about packets dropped below it, unless the queue is empty now. */
  function Report(s: Sched): Sched {
    if s.stats.dropCount != 0 && s.qlen != 0
    then s.(parent := s.parent - s.stats.dropCount, stats := s.stats.(dropCount := 0, dropLen := 0)) else s
  }

  /** What becomes of a packet that is delivered. */
  function FateOf(freeing: bool): Fate {
    if freeing then Trimmed else Returned
  }

  /** Charges flow `i` for the packet it delivers. */
  function Charge(s: Sched, i: nat, pkt: Packet): Sched
    requires i < |s.flows| == |s.hist|
  {
    s.(flows := s.flows[i := s.flows[i].(deficit := s.flows[i].deficit - pkt.len)],
       hist := s.hist[i := s.hist[i].(departed := s.hist[i].departed + [Departure(pkt, FateOf(s.freeing))])])
  }

  /** Retires a flow that had nothing to deliver; one from the new flows has to pass through
      the old ones first. */
  function Retire(s: Sched): Sched
    requires s.newFlows != [] || s.oldFlows != []
  {
    if s.newFlows != [] && s.oldFlows != [] then MoveToOld(s) else Unlink(s)
  }

  function Begin(s: Sched, gap: Clock): Pass
    requires WellFormed(s)
  {
    if s.newFlows == [] && s.oldFlows == [] then Idle else
      var i := First(s);
      if s.flows[i].deficit <= 0 then Again(Refill(s)) else
        var (s1, out) := Poll(s, i, gap);
        if out.None? then Again(Retire(s1))
        else Got(Report(Charge(s1, i, out.value)), out.value)
  }

  lemma BeginPolls(s: Sched, gap: Clock, i: nat, s1: Sched, out: Option<Packet>)
    requires WellFormed(s) && (s.newFlows != [] || s.oldFlows != []) && i == First(s) && s.flows[i].deficit > 0
    requires Poll(s, i, gap) == (s1, out) && (s1.newFlows != [] || s1.oldFlows != []) && i < |s1.flows| == |s1.hist|
    ensures Begin(s, gap) == if out.None? then Again(Retire(s1)) else Got(Report(Charge(s1, i, out.value)), out.value)
  {
  }

  lemma BeginRefills(s: Sched, gap: Clock)
    requires WellFormed(s) && (s.newFlows != [] || s.oldFlows != []) && s.flows[First(s)].deficit <= 0
    ensures Begin(s, gap) == Again(Refill(s))
  {
  }

  // ---------- termination ----------

  function Sum(l: seq<int>): int {
    if l == [] then 0 else l[0] + Sum(l[1..])
  }

  /** What a refill of flow `f` decreases: the bytes of credit it still lacks; or, if the quantum is so large that
      adding it subtracts, what is left to subtract before the deficit wraps around. */
  function Lack(f: Flow, quantum: u32): nat
    requires -HALF <= f.deficit
  {
    if f.deficit > 0 then 0
    else if quantum < HALF then 1 - f.deficit
    else f.deficit + HALF + 1
  }

  function Lacks(flows: seq<Flow>, quantum: u32): (l: seq<int>)
    requires forall i :: 0 <= i < |flows| ==> -HALF <= flows[i].deficit
    ensures |l| == |flows|
  {
    seq(|flows|, i requires 0 <= i < |flows| => Lack(flows[i], quantum))
  }

  /** What every jump back to `begin` decreases. */
  function Measure(s: Sched): int
    requires WellFormed(s)
  {
    Sum(Lacks(s.flows, s.quantum)) + 2 * |s.newFlows| + |s.oldFlows|
  }

  lemma {:induction false} SumUpdate(l: seq<int>, i: nat, v: int)
    requires i < |l|
    ensures Sum(l[i := v]) == Sum(l) - l[i] + v
  {
    if i == 0 {
      assert l[0 := v][1..] == l[1..];
    } else {
      assert l[i := v][1..] == l[1..][i - 1 := v];
      SumUpdate(l[1..], i - 1, v);
    }
  }

  lemma {:induction false} SumNonNegative(l: seq<int>)
    requires forall i :: 0 <= i < |l| ==> l[i] >= 0
    ensures Sum(l) >= 0
  {
    if l != [] { SumNonNegative(l[1..]); }
  }

  lemma {:induction false} SumAtLeast(l: seq<int>, i: nat)
    requires i < |l| && forall i :: 0 <= i < |l| ==> l[i] >= 0
    ensures Sum(l) >= l[i]
  {
    SumNonNegative(l[1..]);
    if i > 0 { SumAtLeast(l[1..], i - 1); }
  }

  lemma {:induction false} SumPositive(l: seq<int>)
    requires Sum(l) > 0
    ensures exists i :: 0 <= i < |l| && l[i] > 0
  {
    if l[0] <= 0 {
      SumPositive(l[1..]);
      var i :| 0 <= i < |l[1..]| && l[1..][i] > 0;
      assert l[i + 1] > 0;
    }
  }

  /** Moving the first flow keeps the lists well formed. */
  lemma MoveKeepsLists(s: Sched)
    requires ListsOk(s) && (s.newFlows != [] || s.oldFlows != [])
    ensures ListsOk(MoveToOld(s)) && ListsOk(Unlink(s))
    ensures forall i :: i in s.newFlows || i in s.oldFlows
              ==> i in MoveToOld(s).newFlows || i in MoveToOld(s).oldFlows
    ensures forall i :: i in s.newFlows || i in s.oldFlows
              ==> i == First(s) || i in Unlink(s).newFlows || i in Unlink(s).oldFlows
  {
    var u, m := Unlink(s), MoveToOld(s);
    var l := s.newFlows + s.oldFlows;
    assert u.newFlows + u.oldFlows == l[1..];
    assert m.newFlows + m.oldFlows == l[1..] + [l[0]];
    forall i | i in s.newFlows || i in s.oldFlows ensures i in l[1..] || i == l[0] {
      assert i in l;
    }
    assert forall i :: i in l[1..] <==> i in u.newFlows + u.oldFlows;
  }

  /** Polling a flow changes nothing but that flow and the shared totals. */
  lemma PollFrame(s: Sched, i: nat, gap: Clock)
    requires i < |s.flows| == |s.backlogs| == |s.hist|
    ensures var (s1, out) := Poll(s, i, gap);
            && |s1.flows| == |s1.backlogs| == |s1.hist| == |s.flows|
            && s1.newFlows == s.newFlows && s1.oldFlows == s.oldFlows && s1.quantum == s.quantum
            && s1.flows[i].deficit == s.flows[i].deficit
            && forall j :: 0 <= j < |s.flows| && j != i ==> s1.flows[j] == s.flows[j]
  {
  }

  /** A refill brings a flow nearer to a positive deficit unless the quantum is half the range of the word. */
  lemma RefillHelps(f: Flow, quantum: u32)
    requires -HALF <= f.deficit <= 0 < quantum && quantum != HALF
    ensures var d := Topped(f.deficit, quantum); -HALF <= d < HALF && Lack(f.(deficit := d), quantum) < Lack(f, quantum)
  {
    var d := f.deficit;
    if quantum < HALF {
      if d + quantum >= 0 { WrapUnique(d + quantum, 0, d + quantum); } else { WrapUnique(d + quantum, -1, d + quantum + WRAP); }
    } else {
      var m := WRAP - quantum;
      if d - m >= -HALF {
        WrapUnique(d + quantum, 0, d + quantum);
        assert Topped(d, quantum) == d - m;
      } else {
        WrapUnique(d + quantum, 0, d + quantum);
        assert Topped(d, quantum) > 0;
      }
    }
  }

  lemma RefillShrinks(s: Sched)
    requires Shape(s) && (s.newFlows != [] || s.oldFlows != [])
    requires s.flows[First(s)].deficit <= 0
    ensures Shape(Refill(s)) && 0 <= Measure(Refill(s)) < Measure(s)
  {
    var i := First(s);
    var f := s.flows[i].(deficit := Topped(s.flows[i].deficit, s.quantum));
    RefillHelps(s.flows[i], s.quantum);
    var t := s.(flows := s.flows[i := f]);
    MoveKeepsLists(t);
    assert Lacks(t.flows, t.quantum) == Lacks(s.flows, s.quantum)[i := Lack(f, s.quantum)];
    SumUpdate(Lacks(s.flows, s.quantum), i, Lack(f, s.quantum));
    SumNonNegative(Lacks(t.flows, t.quantum));
  }

  /** `t` has the lists and the deficits of `s`. */
  ghost predicate SameCredit(s: Sched, t: Sched) {
    && |t.flows| == |t.backlogs| == |t.hist| == |s.flows|
    && t.newFlows == s.newFlows && t.oldFlows == s.oldFlows && t.quantum == s.quantum
    && forall j :: 0 <= j < |s.flows| ==> t.flows[j].deficit == s.flows[j].deficit
  }

  lemma SameCreditSameMeasure(s: Sched, t: Sched)
    requires Shape(s) && SameCredit(s, t)
    ensures Shape(t) && Measure(t) == Measure(s)
  {
    assert Lacks(t.flows, t.quantum) == Lacks(s.flows, s.quantum);
  }

  lemma UnlistShrinks(s: Sched)
    requires Shape(s) && (s.newFlows != [] || s.oldFlows != [])
    ensures Shape(Retire(s)) && 0 <= Measure(Retire(s)) < Measure(s)
  {
    MoveKeepsLists(s);
    assert Retire(s).flows == s.flows;
    SumNonNegative(Lacks(s.flows, s.quantum));
  }

  lemma RetireShrinks(s: Sched, gap: Clock)
    requires Shape(s) && (s.newFlows != [] || s.oldFlows != [])
    ensures var t := Retire(Poll(s, First(s), gap).0); Shape(t) && 0 <= Measure(t) < Measure(s)
  {
    PollFrame(s, First(s), gap);
    var s1 := Poll(s, First(s), gap).0;
    SameCreditSameMeasure(s, s1);
    UnlistShrinks(s1);
  }

  /** Every `goto begin` strictly decreases the missing credit plus twice the new flows plus
      the old flows, so the dequeue always ends. */
  lemma BeginProgresses(s: Sched, gap: Clock)
    requires Shape(s) && Begin(s, gap).Again?
    ensures Shape(Begin(s, gap).s) && 0 <= Measure(Begin(s, gap).s) < Measure(s)
  {
    if s.flows[First(s)].deficit <= 0 { RefillShrinks(s); } else { RetireShrinks(s, gap); }
  }

  /** `fq_codel_dequeue`. */
  function FqDequeue(s: Sched, gap: Clock): (Sched, Option<Packet>)
    requires Shape(s)
    decreases Measure(s)
  {
    match Begin(s, gap)
    case Idle => (s, None)
    case Got(next, pkt) => (next, Some(pkt))
    case Again(s1) => BeginProgresses(s, gap); FqDequeue(s1, gap)
  }
}
