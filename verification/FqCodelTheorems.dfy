/** What holds in every state any run of the discipline can reach. */
module FqCodelTheorems {
  import opened SerialTime
  import opened Newton
  import opened Codel
  import opened CodelLemmas
  import opened CodelSchedule
  import opened FqCodel
  import opened FqCodelInv
  import opened FqCodelRun

  // ---------- runs ----------

  datatype Op =
    | OpEnqueue(classid: nat, pkt: Incoming, bypass: bool)
    | OpDequeue
    | OpChange(cfg: Config)
    | OpReset

  /** The discipline with the two quantities that are not its own: packets dropped before they
      belonged to any flow, and the error in the parent's count that resets have left. */
  datatype World = World(s: Sched, stray: int, owed: int)

  ghost predicate Good(w: World) {
    Inv(w.s, w.stray, w.owed) && w.s.qlen <= w.s.limit && !w.s.freeing
  }

  /** What the discipline asks of its callers: a flow number from the classifier, and settings
      its machine words can carry. */
  predicate Legal(w: World, op: Op) {
    match op
    case OpEnqueue(classid, _, _) => classid <= |w.s.flows|
    case OpChange(cfg) => ConfigOk(cfg)
    case _ => true
  }

  /** The parent takes note of `k` packets it was handed. */
  function Handed(s: Sched, k: nat): Sched {
    s.(parent := s.parent - k)
  }

  lemma HandedKeepsInv(s: Sched, k: nat, stray: int, owed: int)
    requires Inv(s, stray, owed + k)
    ensures Inv(Handed(s, k), stray, owed)
  {
    CountersKeepInv(s, Handed(s, k), stray, owed + k, owed);
  }

  ghost function ApplyEnqueue(w: World, classid: nat, pkt: Incoming, bypass: bool, gap: Clock): (w': World)
    requires Good(w) && classid <= |w.s.flows|
    ensures Good(w') && |w'.s.flows| == |w.s.flows|
  {
    AlwaysEnqueueable(w.s, classid, pkt, gap, w.stray, w.owed);
    EnqueueKeepsInv(w.s, classid, pkt, bypass, gap, w.stray, w.owed);
    World(Enqueue(w.s, classid, pkt, bypass, gap).0, w.stray + (if classid == 0 && bypass then 1 else 0), w.owed)
  }

  ghost function ApplyDequeue(w: World, gap: Clock): (w': World)
    requires Good(w)
    ensures Good(w') && |w'.s.flows| == |w.s.flows|
  {
    WorkConservation(w.s, gap, w.stray, w.owed);
    DequeueKeepsSettings(w.s, gap);
    var (t, out) := FqDequeue(w.s, gap);
    HandedKeepsInv(t, |Opt(out)|, w.stray, w.owed);
    World(Handed(t, |Opt(out)|), w.stray, w.owed)
  }

  ghost function ApplyChange(w: World, cfg: Config, gap: Clock): (w': World)
    requires Good(w) && ConfigOk(cfg)
    ensures Good(w') && |w'.s.flows| == |w.s.flows|
  {
    ConfigureKeepsInv(w.s, cfg, w.stray, w.owed);
    TrimFits(Configure(w.s, cfg), gap, w.stray, w.owed);
    World(Change(w.s, cfg, gap, w.stray, w.owed), w.stray, w.owed)
  }

  ghost function ApplyReset(w: World): (w': World)
    requires Good(w)
    ensures Good(w') && |w'.s.flows| == |w.s.flows|
  {
    ResetKeepsInv(w.s, w.stray, w.owed);
    ResetFlows(w.s);
    World(Reset(w.s), w.stray, -w.s.stats.dropCount)
  }

  ghost function Apply(w: World, op: Op, gap: Clock): (w': World)
    requires Good(w) && Legal(w, op)
    ensures Good(w') && |w'.s.flows| == |w.s.flows|
  {
    match op
    case OpEnqueue(classid, pkt, bypass) => ApplyEnqueue(w, classid, pkt, bypass, gap)
    case OpDequeue => ApplyDequeue(w, gap)
    case OpChange(cfg) => ApplyChange(w, cfg, gap)
    case OpReset => ApplyReset(w)
  }

  ghost predicate AllLegal(w: World, ops: seq<Op>) {
    forall k :: 0 <= k < |ops| ==> Legal(w, ops[k])
  }

  ghost function Run(w: World, ops: seq<Op>, gap: Clock): (w': World)
    requires Good(w) && AllLegal(w, ops)
    ensures Good(w') && |w'.s.flows| == |w.s.flows|
    decreases |ops|
  {
    if ops == [] then w else
      var w1 := Apply(w, ops[0], gap);
      LegalRest(w, w1, ops);
      Run(w1, ops[1..], gap)
  }

  lemma LegalRest(w: World, w1: World, ops: seq<Op>)
    requires AllLegal(w, ops) && ops != [] && |w1.s.flows| == |w.s.flows|
    ensures AllLegal(w1, ops[1..])
  {
    forall k | 0 <= k < |ops[1..]| ensures Legal(w1, ops[1..][k]) {
      assert Legal(w, ops[k + 1]);
    }
  }

  lemma InitialTotals(flows: nat, limit: nat, quantum: u32, params: Params)
    ensures Totals(Initial(flows, limit, quantum, params), 0, 0)
  {
    var s := Initial(flows, limit, quantum, params);
    SumOfZeros(Lengths(s.flows));
    SumOfZeros(s.backlogs);
    SumOfZeros(DropCounts(s.hist));
  }

  lemma InitialFlow(flows: nat, limit: nat, quantum: u32, params: Params, i: nat)
    requires i < flows
    ensures var s := Initial(flows, limit, quantum, params); FlowBooks(s, i) && FlowHistory(s, i)
  {
  }

  lemma InitialIsGood(flows: nat, limit: nat, quantum: u32, params: Params)
    requires 0 < flows && 0 < quantum != HALF
    ensures Good(World(Initial(flows, limit, quantum, params), 0, 0))
  {
    var s := Initial(flows, limit, quantum, params);
    InitialTotals(flows, limit, quantum, params);
    forall i | 0 <= i < flows ensures FlowBooks(s, i) && FlowHistory(s, i) { InitialFlow(flows, limit, quantum, params, i); }
  }

  // ---------- what every reachable state satisfies ----------

  /** Packets delivered, in the order of delivery. */
  function Delivered(ds: seq<Departure>): seq<Packet> {
    if ds == [] then [] else (if ds[0].fate.Returned? then [ds[0].pkt] else []) + Delivered(ds[1..])
  }

  /** `a` can be had from `b` by leaving packets out. */
  predicate Subsequence(a: seq<Packet>, b: seq<Packet>) {
    a == [] || (b != [] && ((a[0] == b[0] && Subsequence(a[1..], b[1..])) || Subsequence(a, b[1..])))
  }

  lemma {:induction false} DeliveredInOrder(ds: seq<Departure>, q: seq<Packet>)
    ensures Subsequence(Delivered(ds), Packets(ds) + q)
  {
    if ds != [] {
      DeliveredInOrder(ds[1..], q);
      var all := Packets(ds) + q;
      assert all[1..] == Packets(ds[1..]) + q && all[0] == ds[0].pkt;
      if ds[0].fate.Returned? {
        assert Delivered(ds)[0] == ds[0].pkt && Delivered(ds)[1..] == Delivered(ds[1..]);
      } else {
        assert Delivered(ds) == Delivered(ds[1..]);
      }
    }
  }

  function Count(ds: seq<Departure>, fate: Fate): nat {
    if ds == [] then 0 else (if ds[0].fate == fate then 1 else 0) + Count(ds[1..], fate)
  }

  lemma {:induction false} FatesPartition(ds: seq<Departure>)
    ensures |ds| == Count(ds, Returned) + Count(ds, CodelDropped) + Count(ds, OverLimit) + Count(ds, Trimmed) + Count(ds, Flushed)
  {
    if ds != [] { FatesPartition(ds[1..]); }
  }

  /** Over every run from the start: the counters are the sums they should be; every packet that
      arrived at a flow is in its queue or has exactly one recorded fate, and the delivered ones left
      in the order they came; a flow with packets is listed exactly once; every drop or mark was justified, and came
      when it should; the drop rate respects the control law; and the limit holds. */
  lemma ReachableStates(flows: nat, limit: nat, quantum: u32, params: Params, ops: seq<Op>, gap: Clock, i: nat)
    requires i < flows && 0 < quantum != HALF
    requires AllLegal(World(Initial(flows, limit, quantum, params), 0, 0), ops)
    ensures Good(World(Initial(flows, limit, quantum, params), 0, 0))
    ensures var w := Run(World(Initial(flows, limit, quantum, params), 0, 0), ops, gap);
            var s := w.s;
            && |s.flows| == |s.backlogs| == |s.hist| == flows
            && s.qlen == Sum(Lengths(s.flows)) <= s.limit
            && s.total == Sum(s.backlogs)
            && s.backlogs[i] == Bytes(s.flows[i].queue)
            && s.drops == Sum(DropCounts(s.hist)) + w.stray
            && s.parent == s.qlen + s.stats.dropCount + w.owed
            && s.hist[i].arrived == Packets(s.hist[i].departed) + s.flows[i].queue
            && |s.hist[i].arrived| == |s.flows[i].queue|
                 + Count(s.hist[i].departed, Returned) + Count(s.hist[i].departed, CodelDropped)
                 + Count(s.hist[i].departed, OverLimit) + Count(s.hist[i].departed, Trimmed)
                 + Count(s.hist[i].departed, Flushed)
            && Subsequence(Delivered(s.hist[i].departed), s.hist[i].arrived)
            && (s.flows[i].queue != [] ==> i in s.newFlows || i in s.oldFlows)
            && Distinct(s.newFlows + s.oldFlows)
            && AllJustified(s.hist[i].log) && AllAdmissible(s.hist[i].log)
            && OnCurve(s.flows[i].vars.count, s.flows[i].vars.rec)
  {
    InitialIsGood(flows, limit, quantum, params);
    var w0 := World(Initial(flows, limit, quantum, params), 0, 0);
    var s := Run(w0, ops, gap).s;
    assert FlowBooks(s, i) && FlowHistory(s, i);
    FatesPartition(s.hist[i].departed);
    DeliveredInOrder(s.hist[i].departed, s.flows[i].queue);
    CurveInvMeansOnCurve(s.flows[i].vars.count, s.flows[i].vars.lastcount, s.flows[i].vars.rec);
  }

  // ---------- what an enqueue does ----------

  /** Flow `i` gets its packet `pkt` at the end. If it stood on no list it is the last of the new ones now, with a
      quantum of credit and no drops to its name; otherwise it stands where it stood with what it had. */
  ghost predicate Joins(s: Sched, t: Sched, i: nat, pkt: Packet) {
    && i < |s.flows| == |t.flows| && t.flows[i].queue == s.flows[i].queue + [pkt] && t.oldFlows == s.oldFlows
    && (forall j :: 0 <= j < |s.flows| && j != i ==> t.flows[j] == s.flows[j])
    && if i in s.newFlows || i in s.oldFlows
       then t.newFlows == s.newFlows && t.flows[i] == s.flows[i].(queue := t.flows[i].queue) && t.newFlowCount == s.newFlowCount
       else t.newFlows == s.newFlows + [i] && t.flows[i] == Flow(t.flows[i].queue, Signed(s.quantum), 0, s.flows[i].vars)
            && t.newFlowCount == s.newFlowCount + 1
  }

  /** Flow `fat` loses its oldest packet and is the one of largest backlog; nothing else changes. */
  ghost predicate LosesHead(s: Sched, t: Sched, fat: nat) {
    && |t.flows| == |s.flows| == |s.backlogs| && fat < |s.flows|
    && (forall j :: 0 <= j < |s.flows| ==> s.backlogs[j] <= s.backlogs[fat])
    && s.flows[fat].queue != []
    && t.flows[fat] == s.flows[fat].(queue := s.flows[fat].queue[1..], dropped := s.flows[fat].dropped + 1)
    && (forall j :: 0 <= j < |s.flows| && j != fat ==> t.flows[j] == s.flows[j])
    && t.drops == s.drops + 1 && t.overLimit == s.overLimit + 1
  }

  /** A classified packet always enters its flow, last (`s2`). If that overfills the queue, exactly one packet
      leaves, the oldest of a flow whose backlog is then largest, and the caller hears of congestion if
      and only if that flow is its own; otherwise nothing leaves. */
  lemma EnqueueOutcome(w: World, classid: nat, pkt: Incoming, bypass: bool, gap: Clock)
    requires Good(w) && 0 < classid <= |w.s.flows| && Enqueueable(w.s, classid, pkt, gap)
    ensures var (t, verdict) := Enqueue(w.s, classid, pkt, bypass, gap);
            var s2 := Append(ReadClock(w.s, gap), classid - 1, Stamped(pkt, t.time));
            && Joins(w.s, s2, classid - 1, Packet(pkt.tag, pkt.len, t.time, pkt.ect))
            && t.time == w.s.time + gap(w.s.ticks)
            && t.newFlows == s2.newFlows && t.oldFlows == s2.oldFlows && t.newFlowCount == s2.newFlowCount
            && (w.s.qlen < w.s.limit ==> verdict == Success && t.flows == s2.flows && t.drops == w.s.drops && t.overLimit == w.s.overLimit)
            && (w.s.qlen >= w.s.limit ==>
                  exists fat: nat :: LosesHead(s2, t, fat) && (verdict == CongestionNotice <==> fat == classid - 1))
  {
    EnqueueReady(w.s, classid, pkt, gap, w.stray, w.owed);
    var s1 := ReadClock(w.s, gap);
    var s2 := Append(s1, classid - 1, Stamped(pkt, s1.time));
    BacklogsNonNegative(s2, w.stray, w.owed - 1);
    AdmitOutcome(s2, classid);
  }

  lemma AdmitOutcome(s: Sched, classid: nat)
    requires |s.flows| == |s.backlogs| == |s.hist| > 0
    requires forall i :: 0 <= i < |s.backlogs| ==> s.backlogs[i] >= 0
    requires s.flows[FatFlow(s.backlogs, |s.backlogs|)].queue != []
    ensures var (t, verdict) := Admit(s, classid);
            && t.newFlows == s.newFlows && t.oldFlows == s.oldFlows && t.newFlowCount == s.newFlowCount
            && (s.qlen <= s.limit ==> verdict == Success && t.flows == s.flows && t.drops == s.drops && t.overLimit == s.overLimit)
            && (s.qlen > s.limit ==>
                  exists fat: nat :: LosesHead(s, t, fat) && (verdict == CongestionNotice <==> fat == classid - 1))
            && t.time == s.time
  {
    FatFlowIsFattest(s.backlogs, |s.backlogs|);
    var (t, verdict) := Admit(s, classid);
    if s.qlen > s.limit {
      assert LosesHead(s, t, FatFlow(s.backlogs, |s.backlogs|));
    }
  }

  /** What CoDel sheds from a flow counts to its name, and all it does it does at the time of a reading of the clock made for it, if
      there is a packet to examine at all. */
  lemma PollCountsDrops(s: Sched, i: nat, gap: Clock)
    requires i < |s.flows| == |s.backlogs| == |s.hist|
    ensures var t := Poll(s, i, gap).0;
            && |t.flows| == |t.hist| == |s.flows|
            && t.flows[i].dropped - s.flows[i].dropped
               == (Sheds(t.hist[i].log, true) + Sheds(t.hist[i].log, false)) - (Sheds(s.hist[i].log, true) + Sheds(s.hist[i].log, false))
            && GrewAt(s.hist[i].log, t.hist[i].log, t.time)
            && (if s.flows[i].queue == [] then t.time == s.time && t.ticks == s.ticks
                else t.time == s.time + gap(s.ticks) && t.ticks == s.ticks + 1)
  {
    var s1 := if s.flows[i].queue == [] then s else ReadClock(s, gap);
    DequeueCounts(CellOf(s1, i), s1.params, s1.time);
    DequeueGrows(CellOf(s1, i), s1.params, s1.time);
  }
}
