/** The remaining operations of the discipline, and what holds over every run of them. */
module FqCodelRun {
  import opened SerialTime
  import opened Codel
  import opened CodelLemmas
  import opened CodelSchedule
  import opened FqCodel
  import opened FqCodelInv

  // ---------- enqueue ----------

  /** The flow picked when the queue is full has the largest backlog, the first such if several. */
  lemma {:induction false} FatFlowIsFattest(b: seq<int>, n: nat)
    requires 0 < n <= |b| && forall i :: 0 <= i < |b| ==> b[i] >= 0
    ensures var fat := FatFlow(b, n);
            && (forall i :: 0 <= i < n ==> b[i] <= b[fat])
            && (b[fat] > 0 ==> forall i :: 0 <= i < fat ==> b[i] < b[fat])
  {
    if n > 1 { FatFlowIsFattest(b, n - 1); }
  }

  lemma AppendKeepsInv(s: Sched, i: nat, pkt: Packet, stray: int, owed: int)
    requires Inv(s, stray, owed) && i < |s.flows| && pkt.stamp <= s.time
    ensures Inv(Append(s, i, pkt), stray, owed - 1)
  {
    var t := Append(s, i, pkt);
    var q := s.flows[i].queue;
    LengthsUpdate(s.flows, i, t.flows[i]);
    SumUpdate(s.backlogs, i, t.backlogs[i]);
    DropCountsUpdate(s.hist, i, t.hist[i]);
    forall j | 0 <= j < |t.flows| ensures FlowBooks(t, j) && FlowHistory(t, j) {
      assert FlowBooks(s, j) && FlowHistory(s, j);
      SameHistory(CellOf(s, j), CellOf(t, j), t.time);
      if j == i { BytesAppend(q, pkt); }
    }
    AppendKeepsLists(s, i, pkt);
  }

  lemma AppendKeepsLists(s: Sched, i: nat, pkt: Packet)
    requires Shape(s) && Listed(s) && i < |s.flows|
    ensures Shape(Append(s, i, pkt)) && Listed(Append(s, i, pkt))
  {
    var t := Append(s, i, pkt);
    if i !in s.newFlows && i !in s.oldFlows {
      assert t.newFlows + t.oldFlows == s.newFlows + [i] + s.oldFlows;
      assert forall k :: 0 <= k < |s.newFlows| ==> s.newFlows[k] != i;
      assert forall k :: 0 <= k < |s.oldFlows| ==> s.oldFlows[k] != i;
      InsertKeepsDistinct(s.newFlows, i, s.oldFlows);
    }
    forall j | 0 <= j < |t.flows| && t.flows[j].queue != [] ensures j in t.newFlows || j in t.oldFlows {
      if j != i { assert s.flows[j].queue != []; }
      if i !in s.newFlows && i !in s.oldFlows && j == i { assert t.newFlows[|s.newFlows|] == i; }
    }
  }

  lemma InsertKeepsDistinct(a: seq<nat>, x: nat, b: seq<nat>)
    requires Distinct(a + b) && x !in a && x !in b
    ensures Distinct(a + [x] + b)
  {
    var l := a + [x] + b;
    forall i, j | 0 <= i < j < |l| ensures l[i] != l[j] {
      var i' := if i < |a| then i else i - 1;
      var j' := if j < |a| then j else j - 1;
      if i != |a| && j != |a| {
        assert l[i] == (a + b)[i'] && l[j] == (a + b)[j'];
      }
    }
  }

  lemma FatFlowHasPackets(s: Sched, stray: int, owed: int)
    requires Inv(s, stray, owed) && s.qlen > 0
    ensures s.flows[FatFlow(s.backlogs, |s.backlogs|)].queue != []
  {
    PacketsIffBytes(s, stray, owed);
    BacklogsNonNegative(s, stray, owed);
    FatFlowIsFattest(s.backlogs, |s.backlogs|);
    var fat := FatFlow(s.backlogs, |s.backlogs|);
    SumPositive(s.backlogs);
    var i :| 0 <= i < |s.backlogs| && s.backlogs[i] > 0;
    assert s.backlogs[fat] >= s.backlogs[i] && FlowBooks(s, fat);
  }

  lemma DropFatKeepsInv(s: Sched, stray: int, owed: int)
    requires Inv(s, stray, owed) && s.qlen > 0
    requires s.flows[FatFlow(s.backlogs, |s.backlogs|)].queue != []
    ensures Inv(DropFat(s).0, stray, owed + 1)
  {
    var (t, fat) := DropFat(s);
    var pkt := s.flows[fat].queue[0];
    assert FlowBooks(s, fat) && FlowHistory(s, fat);
    assert s.flows[fat].queue == [pkt] + t.flows[fat].queue;
    DropFatTotals(s, t, fat, pkt, stray, owed);
    forall j | 0 <= j < |t.flows| ensures FlowBooks(t, j) && FlowHistory(t, j) { DropFatFlow(s, fat, j); }
    DropFatLists(s, t, fat);
  }

  lemma DropFatFlow(s: Sched, fat: nat, j: nat)
    requires |s.flows| == |s.backlogs| == |s.hist| > 0 && fat == FatFlow(s.backlogs, |s.backlogs|)
    requires s.flows[fat].queue != [] && j < |s.flows| && FlowBooks(s, j) && FlowHistory(s, j)
    ensures var t := DropFat(s).0; FlowBooks(t, j) && FlowHistory(t, j)
  {
    var t := DropFat(s).0;
    var pkt := s.flows[fat].queue[0];
    assert Packets(t.hist[fat].departed) == Packets(s.hist[fat].departed) + [pkt];
    SameHistory(CellOf(s, j), CellOf(t, j), t.time);
  }

  lemma DropFatLists(s: Sched, t: Sched, fat: nat)
    requires Shape(s) && Listed(s) && fat < |s.flows| == |t.flows|
    requires t.newFlows == s.newFlows && t.oldFlows == s.oldFlows
    requires s.flows[fat].queue != []
    requires forall j :: 0 <= j < |s.flows| && j != fat ==> t.flows[j] == s.flows[j]
    ensures Listed(t)
  {
    assert fat in s.newFlows || fat in s.oldFlows;
  }

  lemma DropFatTotals(s: Sched, t: Sched, fat: nat, pkt: Packet, stray: int, owed: int)
    requires |s.flows| == |s.backlogs| == |s.hist| > fat && Totals(s, stray, owed)
    requires s.flows[fat].queue != [] && pkt == s.flows[fat].queue[0]
    requires |t.flows| == |t.backlogs| == |t.hist| == |s.flows|
    requires t.flows == s.flows[fat := t.flows[fat]] && t.flows[fat].queue == s.flows[fat].queue[1..]
    requires t.backlogs == s.backlogs[fat := s.backlogs[fat] - pkt.len]
    requires t.hist == s.hist[fat := t.hist[fat]]
    requires t.hist[fat].departed == s.hist[fat].departed + [Departure(pkt, OverLimit)]
    requires t.qlen == s.qlen - 1 && t.total == s.total - pkt.len && t.drops == s.drops + 1
    requires t.parent == s.parent && t.stats == s.stats
    ensures Totals(t, stray, owed + 1)
  {
    LengthsUpdate(s.flows, fat, t.flows[fat]);
    SumUpdate(s.backlogs, fat, t.backlogs[fat]);
    DroppedAppend(s.hist[fat].departed, Departure(pkt, OverLimit));
    DropCountsUpdate(s.hist, fat, t.hist[fat]);
  }

  lemma EnqueueReady(s: Sched, classid: nat, pkt: Incoming, gap: Clock, stray: int, owed: int)
    requires Inv(s, stray, owed) && 0 < classid <= |s.flows|
    ensures var s1 := ReadClock(s, gap);
            var s2 := Append(s1, classid - 1, Stamped(pkt, s1.time));
            Inv(s2, stray, owed - 1) && s2.qlen == s.qlen + 1 > 0
            && s2.flows[FatFlow(s2.backlogs, |s2.backlogs|)].queue != []
  {
    TickKeepsInv(s, gap, stray, owed);
    var s1 := ReadClock(s, gap);
    AppendKeepsInv(s1, classid - 1, Stamped(pkt, s1.time), stray, owed);
    var s2 := Append(s1, classid - 1, Stamped(pkt, s1.time));
    PacketsIffBytes(s, stray, owed);
    FatFlowHasPackets(s2, stray, owed - 1);
  }

  lemma AlwaysEnqueueable(s: Sched, classid: nat, pkt: Incoming, gap: Clock, stray: int, owed: int)
    requires Inv(s, stray, owed) && classid <= |s.flows|
    ensures Enqueueable(s, classid, pkt, gap)
  {
    if classid != 0 { EnqueueReady(s, classid, pkt, gap, stray, owed); }
  }

  /** An enqueue keeps the limit and the books; an over-limit packet costs a flow of largest backlog its head,
      and the sender hears of congestion exactly when that flow is its own. */
  lemma EnqueueKeepsInv(s: Sched, classid: nat, pkt: Incoming, bypass: bool, gap: Clock, stray: int, owed: int)
    requires Inv(s, stray, owed) && s.qlen <= s.limit && Enqueueable(s, classid, pkt, gap)
    ensures var (t, verdict) := Enqueue(s, classid, pkt, bypass, gap);
            && Inv(t, stray + (if classid == 0 && bypass then 1 else 0), owed)
            && t.qlen <= t.limit == s.limit
            && (verdict.Unclassified? <==> classid == 0)
            && |t.flows| == |s.flows|
  {
    if classid == 0 {
      var t := Enqueue(s, classid, pkt, bypass, gap).0;
      ListChangeKeepsInv(s, s, stray, owed);
      forall i | 0 <= i < |t.flows| ensures FlowBooks(t, i) && FlowHistory(t, i) {
        assert FlowBooks(s, i) && FlowHistory(s, i);
        SameHistory(CellOf(s, i), CellOf(t, i), t.time);
      }
    } else {
      EnqueueReady(s, classid, pkt, gap, stray, owed);
      var s1 := ReadClock(s, gap);
      AdmitKeepsInv(Append(s1, classid - 1, Stamped(pkt, s1.time)), classid, stray, owed);
    }
  }

  lemma WithinLimitKeepsInv(s: Sched, t: Sched, stray: int, owed: int)
    requires Inv(s, stray, owed - 1) && t == s.(parent := s.parent + 1)
    ensures Inv(t, stray, owed)
  {
    CountersKeepInv(s, t, stray, owed - 1, owed);
  }

  lemma OverLimitKeepsInv(s: Sched, o: Sched, stray: int, owed: int)
    requires Inv(s, stray, owed - 1) && s.qlen > 0 && o == s.(overLimit := s.overLimit + 1)
    requires s.flows[FatFlow(s.backlogs, |s.backlogs|)].queue != []
    ensures Inv(DropFat(o).0, stray, owed) && DropFat(o).0.qlen == s.qlen - 1 && DropFat(o).0.limit == s.limit
  {
    CountersKeepInv(s, o, stray, owed - 1, owed - 1);
    DropFatKeepsInv(o, stray, owed - 1);
  }

  lemma AdmitKeepsInv(s: Sched, classid: nat, stray: int, owed: int)
    requires Inv(s, stray, owed - 1) && 0 < s.qlen <= s.limit + 1
    requires s.flows[FatFlow(s.backlogs, |s.backlogs|)].queue != []
    ensures var (t, verdict) := Admit(s, classid); Inv(t, stray, owed) && t.qlen <= t.limit == s.limit
  {
    if s.qlen <= s.limit {
      WithinLimitKeepsInv(s, s.(parent := s.parent + 1), stray, owed);
    } else {
      OverLimitKeepsInv(s, s.(overLimit := s.overLimit + 1), stray, owed);
    }
  }

  /** Changes to the counters alone. */
  lemma CountersKeepInv(s: Sched, t: Sched, stray: int, owed: int, owed': int)
    requires Inv(s, stray, owed)
    requires t == s.(stats := t.stats, parent := t.parent, overLimit := t.overLimit,
                     limit := t.limit, quantum := t.quantum, params := t.params, freeing := t.freeing)
    requires 0 < t.quantum != HALF
    requires t.parent - t.stats.dropCount - owed' == s.parent - s.stats.dropCount - owed
    ensures Inv(t, stray, owed')
  {
    forall i | 0 <= i < |t.flows| ensures FlowBooks(t, i) && FlowHistory(t, i) {
      assert FlowBooks(s, i) && FlowHistory(s, i);
      SameHistory(CellOf(s, i), CellOf(t, i), t.time);
    }
  }

  // ---------- change ----------

  /** A configuration request; times are in microseconds. */
  datatype Config = Config(target: Option<u32>, ceThreshold: Option<u32>, interval: Option<u32>,
                           limit: Option<u32>, ecn: Option<bool>, quantum: Option<u32>)

  /** The quantum is not the one with which the dequeue can circle for ever. */
  predicate ConfigOk(cfg: Config) {
    cfg.quantum.Some? ==> cfg.quantum.value != HALF
  }

  function Configure(s: Sched, cfg: Config): Sched {
    var p := s.params;
    var p1 := if cfg.target.Some? then p.(target := FromMicroseconds(cfg.target.value)) else p;
    var p2 := if cfg.ceThreshold.Some? then p1.(ceThreshold := FromMicroseconds(cfg.ceThreshold.value)) else p1;
    var p3 := if cfg.interval.Some? then p2.(interval := FromMicroseconds(cfg.interval.value)) else p2;
    var p4 := if cfg.ecn.Some? then p3.(ecn := cfg.ecn.value) else p3;
    s.(params := p4,
       limit := if cfg.limit.Some? then cfg.limit.value else s.limit,
       quantum := if cfg.quantum.Some? then if cfg.quantum.value < 256 then 256 else cfg.quantum.value
                  else s.quantum,
       freeing := true)
  }

  /** Counts a packet freed by the trimming loop. */
  function CountTrimmed(s: Sched, pkt: Packet): Sched {
    s.(stats := s.stats.(dropLen := s.stats.dropLen + pkt.len, dropCount := s.stats.dropCount + 1))
  }

  lemma TrimStep(s: Sched, gap: Clock, stray: int, owed: int)
    requires Inv(s, stray, owed) && s.qlen > s.limit
    ensures var (t, out) := FqDequeue(s, gap);
            && out.Some?
            && Inv(CountTrimmed(t, out.value), stray, owed)
            && 0 <= t.qlen < s.qlen && t.limit == s.limit && |t.flows| == |s.flows|
  {
    WorkConservation(s, gap, stray, owed);
    var (t, out) := FqDequeue(s, gap);
    CountersKeepInv(t, CountTrimmed(t, out.value), stray, owed + 1, owed);
    PacketsIffBytes(t, stray, owed + 1);
  }

  /** The loop that frees packets until the queue fits a new, smaller limit. */
  ghost function Trim(s: Sched, gap: Clock, stray: int, owed: int): Sched
    requires Inv(s, stray, owed)
    decreases s.qlen
  {
    if s.qlen <= s.limit then s else
      TrimStep(s, gap, stray, owed);
      var (t, out) := FqDequeue(s, gap);
      Trim(CountTrimmed(t, out.value), gap, stray, owed)
  }

  function Settle(s: Sched): Sched {
    s.(parent := s.parent - s.stats.dropCount, stats := s.stats.(dropCount := 0, dropLen := 0), freeing := false)
  }

  lemma {:induction false} TrimFits(s: Sched, gap: Clock, stray: int, owed: int)
    requires Inv(s, stray, owed)
    ensures var t := Trim(s, gap, stray, owed);
            && Inv(t, stray, owed) && Inv(Settle(t), stray, owed)
            && t.qlen <= t.limit == s.limit && |t.flows| == |s.flows|
    decreases s.qlen
  {
    if s.qlen <= s.limit {
      CountersKeepInv(s, Settle(s), stray, owed, owed);
    } else {
      TrimStep(s, gap, stray, owed);
      var (t, out) := FqDequeue(s, gap);
      TrimFits(CountTrimmed(t, out.value), gap, stray, owed);
    }
  }

  lemma ConfigureKeepsInv(s: Sched, cfg: Config, stray: int, owed: int)
    requires Inv(s, stray, owed) && ConfigOk(cfg)
    ensures Inv(Configure(s, cfg), stray, owed)
  {
    CountersKeepInv(s, Configure(s, cfg), stray, owed, owed);
  }

  /** `fq_codel_change`. */
  ghost function Change(s: Sched, cfg: Config, gap: Clock, stray: int, owed: int): Sched
    requires Inv(s, stray, owed) && ConfigOk(cfg)
  {
    ConfigureKeepsInv(s, cfg, stray, owed);
    Settle(Trim(Configure(s, cfg), gap, stray, owed))
  }

  ghost predicate SameSettings(s: Sched, t: Sched) {
    t.params == s.params && t.limit == s.limit && t.quantum == s.quantum && t.freeing == s.freeing
  }

  lemma PollKeepsSettings(s: Sched, i: nat, gap: Clock)
    requires i < |s.flows| == |s.backlogs| == |s.hist|
    ensures SameSettings(s, Poll(s, i, gap).0)
  {
  }

  lemma DeliverKeepsSettings(s: Sched, i: nat, out: Option<Packet>)
    requires (s.newFlows != [] || s.oldFlows != []) && i < |s.flows| == |s.hist|
    ensures SameSettings(s, if out.None? then Retire(s) else Report(Charge(s, i, out.value)))
  {
  }

  lemma BeginKeepsSettings(s: Sched, gap: Clock)
    requires WellFormed(s)
    ensures match Begin(s, gap)
            case Idle => true
            case Again(t) => SameSettings(s, t)
            case Got(t, _) => SameSettings(s, t)
  {
    if s.newFlows != [] || s.oldFlows != [] {
      var i := First(s);
      if s.flows[i].deficit <= 0 {
        BeginRefills(s, gap);
      } else {
        var (s1, out) := Poll(s, i, gap);
        PollFrame(s, i, gap);
        PollKeepsSettings(s, i, gap);
        DeliverKeepsSettings(s1, i, out);
        BeginPolls(s, gap, i, s1, out);
      }
    }
  }

  lemma {:induction false} DequeueKeepsSettings(s: Sched, gap: Clock)
    requires Shape(s)
    ensures SameSettings(s, FqDequeue(s, gap).0)
    decreases Measure(s)
  {
    BeginKeepsSettings(s, gap);
    match Begin(s, gap)
    case Idle =>
    case Got(_, _) =>
    case Again(t) =>
      BeginProgresses(s, gap);
      DequeueKeepsSettings(t, gap);
  }

  lemma {:induction false} TrimKeepsSettings(s: Sched, gap: Clock, stray: int, owed: int)
    requires Inv(s, stray, owed)
    ensures SameSettings(s, Trim(s, gap, stray, owed))
    decreases s.qlen
  {
    if s.qlen > s.limit {
      TrimStep(s, gap, stray, owed);
      DequeueKeepsSettings(s, gap);
      var (t, out) := FqDequeue(s, gap);
      TrimKeepsSettings(CountTrimmed(t, out.value), gap, stray, owed);
    }
  }

  /** A time is the one asked for in microseconds, counted in units of 1024 nanoseconds, or what it was. */
  predicate TimeInForce(asked: Option<u32>, before: u32, now: u32) {
    if asked.None? then now == before else 1024 * now <= 1000 * asked.value < 1024 * (now + 1)
  }

  /** Each setting asked for is in force, a quantum below 256 being raised to that; the others are what they were. */
  ghost predicate InForce(cfg: Config, s: Sched, t: Sched) {
    && TimeInForce(cfg.target, s.params.target, t.params.target)
    && TimeInForce(cfg.ceThreshold, s.params.ceThreshold, t.params.ceThreshold)
    && TimeInForce(cfg.interval, s.params.interval, t.params.interval)
    && t.params.mtu == s.params.mtu
    && (if cfg.ecn.None? then t.params.ecn == s.params.ecn else t.params.ecn == cfg.ecn.value)
    && (if cfg.limit.None? then t.limit == s.limit else t.limit == cfg.limit.value)
    && (if cfg.quantum.None? then t.quantum == s.quantum
        else t.quantum >= 256 && t.quantum >= cfg.quantum.value && (t.quantum == 256 || t.quantum == cfg.quantum.value))
  }

  lemma ConfiguredInForce(s: Sched, cfg: Config)
    ensures InForce(cfg, s, Configure(s, cfg))
  {
  }

  /** After a change the settings asked for are in force and the queue fits the limit; and if it fitted before, no
      packet, list, deficit or control variable has been touched, though the parent has been told of the drops that
      were pending. */
  lemma ChangeSets(s: Sched, cfg: Config, gap: Clock, stray: int, owed: int)
    requires Inv(s, stray, owed) && ConfigOk(cfg)
    ensures var t := Change(s, cfg, gap, stray, owed);
            && InForce(cfg, s, t) && t.qlen <= t.limit
            && (s.qlen <= t.limit ==>
                  t == s.(params := t.params, limit := t.limit, quantum := t.quantum, freeing := false,
                          parent := s.parent - s.stats.dropCount, stats := s.stats.(dropCount := 0, dropLen := 0)))
  {
    ConfigureKeepsInv(s, cfg, stray, owed);
    ConfiguredInForce(s, cfg);
    TrimKeepsSettings(Configure(s, cfg), gap, stray, owed);
    TrimFits(Configure(s, cfg), gap, stray, owed);
  }

  // ---------- reset ----------

  function Flush(q: seq<Packet>): (ds: seq<Departure>)
    ensures |ds| == |q| && Packets(ds) == q
  {
    seq(|q|, i requires 0 <= i < |q| => Departure(q[i], Flushed))
  }

  lemma {:induction false} FlushDropsNone(ds: seq<Departure>, q: seq<Packet>)
    ensures Dropped(ds + Flush(q)) == Dropped(ds)
  {
    if q == [] {
      assert ds + Flush(q) == ds;
    } else {
      var r := q[..|q| - 1];
      assert ds + Flush(q) == (ds + Flush(r)) + [Departure(q[|q| - 1], Flushed)];
      DroppedAppend(ds + Flush(r), Departure(q[|q| - 1], Flushed));
      FlushDropsNone(ds, r);
    }
  }

  /** The history of a flow after a reset that has freed the packets `q`. */
  function Wiped(h: History, q: seq<Packet>): History {
    h.(log := h.log + [Cleared], departed := h.departed + Flush(q))
  }

  /** Flow `i` emptied and its control variables zeroed; its deficit stays. */
  function FlushFlow(s: Sched, i: nat): Sched
    requires i < |s.flows| == |s.hist|
  {
    s.(flows := s.flows[i := s.flows[i].(queue := [], vars := InitialVars)],
       total := s.total - Bytes(s.flows[i].queue),
       hist := s.hist[i := Wiped(s.hist[i], s.flows[i].queue)])
  }

  function FlushFrom(s: Sched, i: nat): Sched
    requires i <= |s.flows| == |s.hist|
    decreases |s.flows| - i
  {
    if i == |s.flows| then s else FlushFrom(FlushFlow(s, i), i + 1)
  }

  /** `fq_codel_reset`; the parent resets its own count on the same occasion. */
  function Reset(s: Sched): Sched
    requires |s.flows| == |s.hist|
  {
    var t := FlushFrom(s.(newFlows := [], oldFlows := []), 0);
    t.(backlogs := seq(|s.backlogs|, _ => 0), qlen := 0, parent := 0)
  }

  lemma {:induction false} FlushFromFlows(s: Sched, i: nat)
    requires i <= |s.flows| == |s.hist|
    ensures var t := FlushFrom(s, i);
            && t == s.(flows := t.flows, hist := t.hist, total := t.total)
            && |t.flows| == |t.hist| == |s.flows|
            && (forall j :: 0 <= j < |s.flows| ==>
                  if j < i then t.flows[j] == s.flows[j] && t.hist[j] == s.hist[j]
                  else t.flows[j] == s.flows[j].(queue := [], vars := InitialVars)
                       && t.hist[j] == Wiped(s.hist[j], s.flows[j].queue))
    decreases |s.flows| - i
  {
    if i < |s.flows| { FlushFromFlows(FlushFlow(s, i), i + 1); }
  }

  /** A flush takes out the bytes `b` of the flows. */
  lemma {:induction false} FlushFromTotal(s: Sched, i: nat, b: seq<int>)
    requires i <= |s.flows| == |s.hist| == |b| && forall j :: i <= j < |b| ==> b[j] == Bytes(s.flows[j].queue)
    ensures FlushFrom(s, i).total == s.total - Sum(b[i..])
    decreases |s.flows| - i
  {
    if i < |s.flows| {
      var s1 := FlushFlow(s, i);
      assert b[i..][1..] == b[i + 1..];
      FlushFromTotal(s1, i + 1, b);
    }
  }

  lemma {:induction false} SumOfZeros(l: seq<int>)
    requires forall i :: 0 <= i < |l| ==> l[i] == 0
    ensures Sum(l) == 0
  {
    if l != [] { SumOfZeros(l[1..]); }
  }

  /** A reset empties the discipline. The parent's count stays right exactly if no reported-late
      drops were pending: the code keeps `drop_count` across a reset. */
  lemma ResetKeepsInv(s: Sched, stray: int, owed: int)
    requires Inv(s, stray, owed)
    ensures Inv(Reset(s), stray, -s.stats.dropCount)
    ensures Reset(s).qlen == 0 && Reset(s).total == 0 && |Reset(s).flows| == |s.flows|
    ensures Inv(Reset(s), stray, 0) <==> s.stats.dropCount == 0
  {
    var t := Reset(s);
    ResetFlows(s);
    SumOfZeros(Lengths(t.flows));
    SumOfZeros(t.backlogs);
    ResetTotal(s, stray, owed);
    ResetDropCounts(s, t);
    forall j | 0 <= j < |t.flows| ensures FlowBooks(t, j) && FlowHistory(t, j) { ResetFlow(s, t, j); }
  }

  lemma ResetFlow(s: Sched, t: Sched, j: nat)
    requires |t.flows| == |t.hist| == |t.backlogs| == |s.flows| == |s.backlogs| == |s.hist| && j < |s.flows|
    requires FlowBooks(s, j) && FlowHistory(s, j) && t.time == s.time && t.backlogs[j] == 0
    requires t.flows[j] == s.flows[j].(queue := [], vars := InitialVars)
    requires t.hist[j] == Wiped(s.hist[j], s.flows[j].queue)
    ensures FlowBooks(t, j) && FlowHistory(t, j)
  {
    assert Packets(t.hist[j].departed) == Packets(s.hist[j].departed) + s.flows[j].queue;
    ClearedLog(CellOf(s, j), CellOf(t, j), t.time);
    ClearedSchedule(s.hist[j].log, s.flows[j].vars, t.time);
  }

  lemma ClearedLog(c: Cell, d: Cell, now: nat)
    requires HistoryOk(c, now) && d.log == c.log + [Cleared] && d.vars.firstAbove == 0
    ensures HistoryOk(d, now)
  {
    JustifiedAppend(c.log, Cleared);
  }

  lemma ResetFlows(s: Sched)
    requires Shape(s)
    ensures var t := Reset(s);
            && t == s.(newFlows := [], oldFlows := [], flows := t.flows, hist := t.hist, total := t.total,
                       backlogs := t.backlogs, qlen := 0, parent := 0)
            && |t.flows| == |t.hist| == |t.backlogs| == |s.flows|
            && (forall j :: 0 <= j < |s.flows| ==>
                  && t.flows[j] == s.flows[j].(queue := [], vars := InitialVars)
                  && t.backlogs[j] == 0
                  && t.hist[j] == Wiped(s.hist[j], s.flows[j].queue))
  {
    FlushFromFlows(s.(newFlows := [], oldFlows := []), 0);
  }

  lemma ResetTotal(s: Sched, stray: int, owed: int)
    requires Inv(s, stray, owed)
    ensures Reset(s).total == 0
  {
    var s0 := s.(newFlows := [], oldFlows := []);
    forall j | 0 <= j < |s.flows| ensures s.backlogs[j] == Bytes(s0.flows[j].queue) { assert FlowBooks(s, j); }
    FlushFromTotal(s0, 0, s.backlogs);
    assert s.backlogs[0..] == s.backlogs;
  }

  lemma ResetDropCounts(s: Sched, t: Sched)
    requires |s.flows| == |s.hist| == |t.hist|
    requires forall j :: 0 <= j < |s.hist| ==>
               t.hist[j].departed == s.hist[j].departed + Flush(s.flows[j].queue)
    ensures DropCounts(t.hist) == DropCounts(s.hist)
  {
    forall j | 0 <= j < |s.hist| ensures Dropped(t.hist[j].departed) == Dropped(s.hist[j].departed) {
      FlushDropsNone(s.hist[j].departed, s.flows[j].queue);
    }
  }
}
