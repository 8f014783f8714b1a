/** What a CoDel dequeue keeps: the books (nothing is lost, nothing overtakes, the last
    packet is never dropped) and the grounds of every drop. */
module CodelLemmas {
  import opened SerialTime
  import opened Newton
  import opened Codel

  function Bytes(q: seq<Packet>): nat {
    if q == [] then 0 else q[0].len + Bytes(q[1..])
  }

  function Packets(ds: seq<Departure>): (ps: seq<Packet>)
    ensures |ps| == |ds|
  {
    seq(|ds|, i requires 0 <= i < |ds| => ds[i].pkt)
  }

  /** How many of the departures were drops that the drop counter counts. */
  function Dropped(ds: seq<Departure>): nat {
    if ds == [] then 0
    else Dropped(ds[..|ds| - 1]) + (if ds[|ds| - 1].fate in {CodelDropped, OverLimit} then 1 else 0)
  }

  function Opt(skb: Option<Packet>): seq<Packet> {
    if skb.None? then [] else [skb.value]
  }

  lemma DroppedAppend(ds: seq<Departure>, d: Departure)
    ensures Dropped(ds + [d]) == Dropped(ds) + (if d.fate in {CodelDropped, OverLimit} then 1 else 0)
  {
    assert (ds + [d])[..|ds|] == ds;
  }

  lemma {:induction false} BytesAppend(q: seq<Packet>, pkt: Packet)
    ensures Bytes(q + [pkt]) == Bytes(q) + pkt.len
  {
    if q == [] {
      assert Bytes([pkt]) == pkt.len + Bytes([]);
    } else {
      assert (q + [pkt])[1..] == q[1..] + [pkt];
      BytesAppend(q[1..], pkt);
    }
  }

  // ---------- the books ----------

  /** What a dequeue of one flow must leave alone: the other flows' share of the totals, the
      drops counted elsewhere, the drops already reported, and the order of arrival. */
  datatype Ledger = Ledger(otherQlen: int, otherBytes: nat, otherDrops: int, reported: int,
                           notDropped: int, arrived: seq<Packet>)

  /** The books of a flow while `held` has been taken out of its queue and examined. */
  ghost predicate Balanced(c: Cell, held: seq<Packet>, l: Ledger) {
    && c.qlen == l.otherQlen + |c.queue|
    && c.backlog == Bytes(c.queue)
    && c.total == l.otherBytes + Bytes(c.queue)
    && c.drops == l.otherDrops + Dropped(c.departed)
    && c.drops == l.reported + c.stats.dropCount
    && |c.departed| == l.notDropped + Dropped(c.departed)
    && Packets(c.departed) + held + c.queue == l.arrived
  }

  lemma FetchBalances(c: Cell, p: Params, now: nat, l: Ledger)
    requires Balanced(c, [], l)
    ensures var (c', skb, ok) := Fetch(c, p, now);
            Balanced(c', Opt(skb), l)
            && (skb.Some? <==> c.queue != [])
            && (ok ==> c'.total > p.mtu && skb.Some?)
            && (skb.None? ==> c'.total == c.total)
            && (skb.Some? ==> c.queue == [skb.value] + c'.queue)
  {
  }

  lemma DropBalances(c: Cell, pkt: Packet, now: nat, l: Ledger)
    requires Balanced(c, [pkt], l)
    ensures Balanced(DropPacket(c, pkt, now), [], l)
  {
    DroppedAppend(c.departed, Departure(pkt, CodelDropped));
    assert Packets(c.departed + [Departure(pkt, CodelDropped)]) == Packets(c.departed) + [pkt];
  }

  /** The drop loop keeps the books, and comes back without a packet only while other
      flows hold more than an MTU. */
  lemma {:induction false} DropLoopBalances(c: Cell, pkt: Packet, p: Params, now: nat, l: Ledger)
    requires Balanced(c, [pkt], l) && c.total > p.mtu
    ensures var (c', out) := DropLoop(c, pkt, p, now);
            Balanced(c', Opt(out), l) && (out.None? ==> c'.total > p.mtu)
    decreases |c.queue|
  {
    if DueToDrop(c.vars, now) {
      var c1 := c.(vars := Quicken(c.vars));
      if !(p.ecn && pkt.ect) {
        DropBalances(c1, pkt, now, l);
        var d := DropPacket(c1, pkt, now);
        FetchBalances(d, p, now, l);
        var (c2, next, ok) := Fetch(d, p, now);
        if ok { DropLoopBalances(PlanNext(c2, p), next.value, p, now, l); }
      }
    }
  }

  lemma FirstDropBalances(c: Cell, pkt: Packet, p: Params, now: nat, l: Ledger)
    requires Balanced(c, [pkt], l) && c.total > p.mtu
    ensures var (c', out) := FirstDrop(c, pkt, p, now);
            Balanced(c', Opt(out), l) && (out.None? ==> c'.total > p.mtu)
  {
    if !(p.ecn && pkt.ect) {
      DropBalances(c, pkt, now, l);
      FetchBalances(DropPacket(c, pkt, now), p, now, l);
    }
  }

  /** A dequeue accounts for every packet, in order, and comes back empty-handed from a flow that
      had packets only if more than an MTU of other flows' bytes is left behind. */
  lemma DequeueBalances(c: Cell, p: Params, now: nat, l: Ledger)
    requires Balanced(c, [], l)
    ensures var (c', out) := Dequeue(c, p, now);
            Balanced(c', Opt(out), l)
            && (out.None? && c.queue != [] ==> c'.total > p.mtu)
            && (out.None? ==> c'.queue == [])
            && (c.queue == [] ==> out.None? && c'.total == c.total)
            && |c'.queue| + |Opt(out)| <= |c.queue|
  {
    if c.queue != [] {
      FetchBalances(c, p, now, l);
      var (c1, skb, ok) := Fetch(c, p, now);
      ActBalances(c1, skb.value, ok, p, now, l);
      CeCheckBalances(Act(c1, skb.value, ok, p, now).0, Act(c1, skb.value, ok, p, now).1, p, l);
    }
  }

  lemma ActBalances(c: Cell, pkt: Packet, ok: bool, p: Params, now: nat, l: Ledger)
    requires Balanced(c, [pkt], l) && (ok ==> c.total > p.mtu)
    ensures var (c', out) := Act(c, pkt, ok, p, now);
            Balanced(c', Opt(out), l)
            && (out.None? ==> c'.total > p.mtu && c'.queue == [])
            && |c'.queue| + |Opt(out)| <= |c.queue| + 1
  {
    if ok {
      if c.vars.dropping {
        DropLoopBalances(c, pkt, p, now, l);
        DropLoopShrinks(c, pkt, p, now);
      } else {
        FirstDropBalances(c, pkt, p, now, l);
      }
    }
  }

  lemma CeCheckBalances(c: Cell, skb: Option<Packet>, p: Params, l: Ledger)
    requires Balanced(c, Opt(skb), l)
    ensures var c' := CeCheck(c, skb, p); Balanced(c', Opt(skb), l) && c'.queue == c.queue && c'.total == c.total
  {
  }

  lemma {:induction false} DropLoopShrinks(c: Cell, pkt: Packet, p: Params, now: nat)
    ensures var (c', out) := DropLoop(c, pkt, p, now);
            |c'.queue| + |Opt(out)| <= |c.queue| + 1 && (out.None? ==> c'.queue == [])
    decreases |c.queue|
  {
    if DueToDrop(c.vars, now) && !(p.ecn && pkt.ect) {
      var (c2, next, ok) := Fetch(DropPacket(c.(vars := Quicken(c.vars)), pkt, now), p, now);
      if ok { DropLoopShrinks(PlanNext(c2, p), next.value, p, now); }
    }
  }

  // ---------- the counters ----------

  function Sheds(log: seq<Event>, marked: bool): nat {
    if log == [] then 0
    else Sheds(log[..|log| - 1], marked) + if log[|log| - 1].Shed? && log[|log| - 1].marked == marked then 1 else 0
  }

  function BytesShed(log: seq<Event>): nat {
    if log == [] then 0
    else BytesShed(log[..|log| - 1]) + if log[|log| - 1].Shed? && !log[|log| - 1].marked then log[|log| - 1].pkt.len else 0
  }

  /** The longest packet examined. */
  function Longest(log: seq<Event>): nat {
    if log == [] then 0 else
      var l := Longest(log[..|log| - 1]);
      if log[|log| - 1].Exam? && log[|log| - 1].pkt.len > l then log[|log| - 1].pkt.len else l
  }

  /** From `c` to `d` the counters have gone up by what was logged, and the longest packet seen is kept. */
  ghost predicate Counted(c: Cell, d: Cell) {
    && d.stats.ecnMark - Sheds(d.log, true) == c.stats.ecnMark - Sheds(c.log, true)
    && d.stats.dropCount - Sheds(d.log, false) == c.stats.dropCount - Sheds(c.log, false)
    && d.drops - Sheds(d.log, false) == c.drops - Sheds(c.log, false)
    && d.stats.dropLen - BytesShed(d.log) == c.stats.dropLen - BytesShed(c.log)
    && (Longest(c.log) <= c.stats.maxpacket ==> Longest(d.log) <= d.stats.maxpacket)
    && (d.stats.maxpacket == c.stats.maxpacket || c.stats.maxpacket < d.stats.maxpacket <= Longest(d.log))
  }

  /** One entry, with what it does to the counters. */
  lemma EntryCounted(c: Cell, e: Event, d: Cell)
    requires d.log == c.log + [e]
    requires d.stats.ecnMark == c.stats.ecnMark + (if e.Shed? && e.marked then 1 else 0)
    requires d.stats.dropCount - c.stats.dropCount == d.drops - c.drops == if e.Shed? && !e.marked then 1 else 0
    requires d.stats.dropLen == c.stats.dropLen + (if e.Shed? && !e.marked then e.pkt.len else 0)
    requires d.stats.maxpacket == if e.Exam? && e.pkt.len > c.stats.maxpacket then e.pkt.len else c.stats.maxpacket
    ensures Counted(c, d)
  {
    assert d.log[..|c.log|] == c.log;
  }

  lemma CountedOn(b: Cell, c: Cell, d: Cell)
    requires Counted(b, c) && Counted(c, d) && Longest(c.log) <= Longest(d.log)
    ensures Counted(b, d)
  {
  }

  lemma LongestGrows(c: Cell, e: Event, d: Cell)
    requires d.log == c.log + [e]
    ensures Longest(c.log) <= Longest(d.log)
  {
    assert d.log[..|c.log|] == c.log;
  }

  lemma FetchCounted(c: Cell, p: Params, now: nat)
    ensures var d := Fetch(c, p, now).0; Counted(c, d) && Longest(c.log) <= Longest(d.log)
  {
    var d := Fetch(c, p, now).0;
    var e := d.log[|c.log|];
    assert d.log == c.log + [e];
    EntryCounted(c, e, d);
    LongestGrows(c, e, d);
  }

  lemma ShedCounted(c: Cell, pkt: Packet, now: nat)
    ensures Counted(c, MarkPacket(c, pkt, now)) && Longest(c.log) <= Longest(MarkPacket(c, pkt, now).log)
    ensures Counted(c, DropPacket(c, pkt, now)) && Longest(c.log) <= Longest(DropPacket(c, pkt, now).log)
  {
    EntryCounted(c, Shed(now, pkt, true), MarkPacket(c, pkt, now));
    LongestGrows(c, Shed(now, pkt, true), MarkPacket(c, pkt, now));
    EntryCounted(c, Shed(now, pkt, false), DropPacket(c, pkt, now));
    LongestGrows(c, Shed(now, pkt, false), DropPacket(c, pkt, now));
  }

  lemma PlanCounted(c: Cell, p: Params, now: nat)
    ensures Counted(c, PlanNext(c, p)) && Longest(c.log) <= Longest(PlanNext(c, p).log)
    ensures Counted(c, Enter(c, p, now)) && Longest(c.log) <= Longest(Enter(c, p, now).log)
  {
    EntryCounted(c, PlanNext(c, p).log[|c.log|], PlanNext(c, p));
    LongestGrows(c, PlanNext(c, p).log[|c.log|], PlanNext(c, p));
    EntryCounted(c, Enter(c, p, now).log[|c.log|], Enter(c, p, now));
    LongestGrows(c, Enter(c, p, now).log[|c.log|], Enter(c, p, now));
  }

  /** The delay last measured is that of the packet in hand. */
  predicate Measured(c: Cell, pkt: Packet, now: nat) {
    c.vars.ldelay == Wrap(Wrap(now) - Wrap(pkt.stamp))
  }

  lemma ReplaceCounted(c: Cell, pkt: Packet, p: Params, now: nat)
    ensures var (d, next, ok) := Fetch(DropPacket(c, pkt, now), p, now);
            && Counted(c, d) && Longest(c.log) <= Longest(d.log) && (next.Some? ==> Measured(d, next.value, now))
  {
    var b := DropPacket(c, pkt, now);
    ShedCounted(c, pkt, now);
    FetchCounted(b, p, now);
    CountedOn(c, b, Fetch(b, p, now).0);
  }

  lemma {:induction false} DropLoopCounted(c: Cell, pkt: Packet, p: Params, now: nat)
    requires Measured(c, pkt, now)
    ensures var (d, out) := DropLoop(c, pkt, p, now);
            Counted(c, d) && Longest(c.log) <= Longest(d.log) && (out.Some? ==> Measured(d, out.value, now))
    decreases |c.queue|
  {
    if DueToDrop(c.vars, now) {
      var c1 := c.(vars := Quicken(c.vars));
      if p.ecn && pkt.ect {
        ShedCounted(c1, pkt, now);
        PlanCounted(MarkPacket(c1, pkt, now), p, now);
        CountedOn(c1, MarkPacket(c1, pkt, now), PlanNext(MarkPacket(c1, pkt, now), p));
      } else {
        ReplaceCounted(c1, pkt, p, now);
        var (c2, next, ok) := Fetch(DropPacket(c1, pkt, now), p, now);
        if ok {
          var c3 := PlanNext(c2, p);
          PlanCounted(c2, p, now);
          CountedOn(c1, c2, c3);
          DropLoopCounted(c3, next.value, p, now);
          CountedOn(c1, c3, DropLoop(c3, next.value, p, now).0);
        }
      }
    }
  }

  lemma FirstDropCounted(c: Cell, pkt: Packet, p: Params, now: nat)
    requires Measured(c, pkt, now)
    ensures var (d, out) := FirstDrop(c, pkt, p, now);
            Counted(c, d) && Longest(c.log) <= Longest(d.log) && (out.Some? ==> Measured(d, out.value, now))
  {
    if p.ecn && pkt.ect {
      ShedCounted(c, pkt, now);
      PlanCounted(MarkPacket(c, pkt, now), p, now);
      CountedOn(c, MarkPacket(c, pkt, now), FirstDrop(c, pkt, p, now).0);
    } else {
      ReplaceCounted(c, pkt, p, now);
      var c1 := Fetch(DropPacket(c, pkt, now), p, now).0;
      PlanCounted(c1, p, now);
      CountedOn(c, c1, Enter(c1, p, now));
    }
  }

  lemma ActCounted(c: Cell, pkt: Packet, ok: bool, p: Params, now: nat)
    requires Measured(c, pkt, now)
    ensures var (d, out) := Act(c, pkt, ok, p, now);
            Counted(c, d) && Longest(c.log) <= Longest(d.log) && (out.Some? ==> Measured(d, out.value, now))
            && d.stats.ceMark == c.stats.ceMark
  {
    if ok {
      if c.vars.dropping { DropLoopCounted(c, pkt, p, now); } else { FirstDropCounted(c, pkt, p, now); }
    }
    ActKeepsCe(c, pkt, ok, p, now);
  }

  lemma ActKeepsCe(c: Cell, pkt: Packet, ok: bool, p: Params, now: nat)
    ensures Act(c, pkt, ok, p, now).0.stats.ceMark == c.stats.ceMark
  {
    if ok && c.vars.dropping { DropLoopKeepsCe(c, pkt, p, now); }
  }

  lemma {:induction false} DropLoopKeepsCe(c: Cell, pkt: Packet, p: Params, now: nat)
    ensures DropLoop(c, pkt, p, now).0.stats.ceMark == c.stats.ceMark
    decreases |c.queue|
  {
    if DueToDrop(c.vars, now) && !(p.ecn && pkt.ect) {
      var (c2, next, ok) := Fetch(DropPacket(c.(vars := Quicken(c.vars)), pkt, now), p, now);
      if ok { DropLoopKeepsCe(PlanNext(c2, p), next.value, p, now); }
    }
  }

  /** A packet is marked for its delay: it accepts a mark and has been queued for more than the threshold. */
  predicate MarkedLate(out: Option<Packet>, now: nat, threshold: u32) {
    out.Some? && out.value.ect && out.value.stamp + threshold < now
  }

  /** The clock can measure the packet's delay and the threshold. */
  predicate Measurable(out: Option<Packet>, now: nat, threshold: u32) {
    out.Some? && 0 <= now - out.value.stamp < HALF && threshold < HALF
  }

  ghost predicate CeCounted(c: Cell, d: Cell, out: Option<Packet>, now: nat, threshold: u32) {
    && 0 <= d.stats.ceMark - c.stats.ceMark <= 1
    && (d.stats.ceMark > c.stats.ceMark ==> out.Some? && out.value.ect)
    && (Measurable(out, now, threshold) ==> (d.stats.ceMark > c.stats.ceMark <==> MarkedLate(out, now, threshold)))
  }

  lemma CeCheckCounted(c: Cell, out: Option<Packet>, p: Params, now: nat)
    requires out.Some? ==> Measured(c, out.value, now)
    ensures Counted(c, CeCheck(c, out, p)) && CeCounted(c, CeCheck(c, out, p), out, now, p.ceThreshold)
  {
    if Measurable(out, now, p.ceThreshold) { DelayInRealTime(now, out.value.stamp, p.ceThreshold); }
  }

  lemma PollCounted(c: Cell, p: Params, now: nat, c1: Cell, pkt: Packet, ok: bool, d: Cell, out: Option<Packet>)
    requires Fetch(c, p, now) == (c1, Some(pkt), ok) && Act(c1, pkt, ok, p, now) == (d, out)
    ensures Counted(c, d) && Longest(c.log) <= Longest(d.log) && d.stats.ceMark == c.stats.ceMark
    ensures out.Some? ==> Measured(d, out.value, now)
  {
    FetchCounted(c, p, now);
    FetchKeepsCe(c, p, now);
    ActCounted(c1, pkt, ok, p, now);
    CountedOn(c, c1, d);
  }

  lemma FetchKeepsCe(c: Cell, p: Params, now: nat)
    ensures var (d, skb, ok) := Fetch(c, p, now);
            d.stats.ceMark == c.stats.ceMark && (skb.Some? ==> Measured(d, skb.value, now))
  {
  }

  /** The counters of a dequeue are those of its log: marks, drops, bytes dropped, the longest packet examined. And a
      packet handed out counts as marked for its delay exactly if it accepts a mark and was queued for more than the
      threshold, if the clock can measure that. */
  lemma DequeueCounts(c: Cell, p: Params, now: nat)
    ensures var (d, out) := Dequeue(c, p, now); Counted(c, d) && CeCounted(c, d, out, now, p.ceThreshold)
  {
    var (d, out) := Dequeue(c, p, now);
    if c.queue == [] {
      EntryCounted(c, EmptyPoll(c.vars.firstAbove), d);
    } else {
      var (c1, skb, ok) := Fetch(c, p, now);
      var c2 := Act(c1, skb.value, ok, p, now).0;
      PollCounted(c, p, now, c1, skb.value, ok, c2, out);
      CeCheckCounted(c2, out, p, now);
      CountedOn(c, c2, d);
    }
  }

  lemma DelayInRealTime(now: nat, stamp: nat, threshold: u32)
    requires 0 <= now - stamp < HALF && threshold < HALF
    ensures After(Wrap(Wrap(now) - Wrap(stamp)), threshold) <==> stamp + threshold < now
  {
    WrapDifference(now, stamp);
    WrapUnique(threshold, 0, threshold);
    SerialOrder(now - stamp, threshold);
  }

  // ---------- the time ----------

  /** The log has only grown, and what was examined or shed since was so at `now`. */
  ghost predicate GrewAt(old': seq<Event>, log: seq<Event>, now: nat) {
    && |old'| <= |log| && log[..|old'|] == old'
    && forall k :: |old'| <= k < |log| && (log[k].Exam? || log[k].Shed?) ==> log[k].time == now
  }

  lemma GrowsByOne(a: seq<Event>, b: seq<Event>, e: Event, now: nat)
    requires GrewAt(a, b, now) && (e.Exam? || e.Shed? ==> e.time == now)
    ensures GrewAt(a, b + [e], now)
  {
  }

  lemma FetchGrows(a: seq<Event>, c: Cell, p: Params, now: nat)
    requires GrewAt(a, c.log, now)
    ensures GrewAt(a, Fetch(c, p, now).0.log, now)
  {
    var d := Fetch(c, p, now).0;
    assert d.log == c.log + [d.log[|c.log|]];
    GrowsByOne(a, c.log, d.log[|c.log|], now);
  }

  lemma ShedGrows(a: seq<Event>, c: Cell, pkt: Packet, p: Params, now: nat)
    requires GrewAt(a, c.log, now)
    ensures GrewAt(a, MarkPacket(c, pkt, now).log, now) && GrewAt(a, DropPacket(c, pkt, now).log, now)
    ensures GrewAt(a, PlanNext(c, p).log, now) && GrewAt(a, Enter(c, p, now).log, now)
  {
    GrowsByOne(a, c.log, Shed(now, pkt, true), now);
    GrowsByOne(a, c.log, Shed(now, pkt, false), now);
    GrowsByOne(a, c.log, PlanNext(c, p).log[|c.log|], now);
    GrowsByOne(a, c.log, Enter(c, p, now).log[|c.log|], now);
  }

  lemma {:induction false} DropLoopGrows(a: seq<Event>, c: Cell, pkt: Packet, p: Params, now: nat)
    requires GrewAt(a, c.log, now)
    ensures GrewAt(a, DropLoop(c, pkt, p, now).0.log, now)
    decreases |c.queue|
  {
    if DueToDrop(c.vars, now) {
      var c1 := c.(vars := Quicken(c.vars));
      ShedGrows(a, c1, pkt, p, now);
      if p.ecn && pkt.ect {
        ShedGrows(a, MarkPacket(c1, pkt, now), pkt, p, now);
      } else {
        var d := DropPacket(c1, pkt, now);
        FetchGrows(a, d, p, now);
        var (c2, next, ok) := Fetch(d, p, now);
        if ok {
          ShedGrows(a, c2, pkt, p, now);
          DropLoopGrows(a, PlanNext(c2, p), next.value, p, now);
        }
      }
    }
  }

  lemma FirstDropGrows(a: seq<Event>, c: Cell, pkt: Packet, p: Params, now: nat)
    requires GrewAt(a, c.log, now)
    ensures GrewAt(a, FirstDrop(c, pkt, p, now).0.log, now)
  {
    ShedGrows(a, c, pkt, p, now);
    if p.ecn && pkt.ect {
      ShedGrows(a, MarkPacket(c, pkt, now), pkt, p, now);
    } else {
      var d := DropPacket(c, pkt, now);
      FetchGrows(a, d, p, now);
      ShedGrows(a, Fetch(d, p, now).0, pkt, p, now);
    }
  }

  /** All that a dequeue examines and sheds, it does at the one time it is given. */
  lemma DequeueGrows(c: Cell, p: Params, now: nat)
    ensures GrewAt(c.log, Dequeue(c, p, now).0.log, now)
  {
    if c.queue == [] {
      GrowsByOne(c.log, c.log, EmptyPoll(c.vars.firstAbove), now);
    } else {
      FetchGrows(c.log, c, p, now);
      var (c1, skb, ok) := Fetch(c, p, now);
      if ok {
        if c1.vars.dropping { DropLoopGrows(c.log, c1, skb.value, p, now); } else { FirstDropGrows(c.log, c1, skb.value, p, now); }
      }
    }
  }

  // ---------- the grounds of a drop ----------

  /** A packet examined with more than an MTU queued behind it, and really late, if the target is one the clock can
      measure. */
  predicate Above(e: Event) {
    e.Exam? && e.left > e.p.mtu && (e.p.target < HALF ==> e.time - e.pkt.stamp >= e.p.target)
  }

  /** From entry `j` on, every packet examined was late, no test ran dry, a mark was in force whenever the flow was
      found empty, and there was no reset. */
  ghost predicate AboveSince(log: seq<Event>, j: nat) {
    && j < |log| && log[j].Exam?
    && forall m :: j <= m < |log| ==>
         !log[m].RanDry? && !log[m].Cleared? && (log[m].Exam? ==> Above(log[m])) && (log[m].EmptyPoll? ==> log[m].mark != 0)
  }

  /** The last entry, plans aside: what is planned after an examination does not come between it and its consequence. */
  function Latest(log: seq<Event>): int {
    if log != [] && log[|log| - 1].Planned? then |log| - 2 else |log| - 1
  }

  /** Grounds for shedding `pkt` after `log`: its own examination is the last entry, and it came
      more than the interval in force at `j` (if the clock can measure it) after the examination `j`, since which
      everything examined was late. */
  ghost predicate GroundsFrom(log: seq<Event>, pkt: Packet, j: nat) {
    && AboveSince(log, j)
    && 0 <= Latest(log) && log[Latest(log)].Exam? && log[Latest(log)].pkt == pkt
    && (log[j].p.interval <= HALF ==> log[Latest(log)].time - log[j].time > log[j].p.interval)
  }

  ghost predicate Grounds(log: seq<Event>, pkt: Packet) {
    exists j: nat :: GroundsFrom(log, pkt, j)
  }

  /** Every shed packet in the history was shed on good grounds. */
  ghost predicate AllJustified(log: seq<Event>) {
    forall k :: 0 <= k < |log| && log[k].Shed? ==> Grounds(log[..k], log[k].pkt)
  }

  /** The mark `firstAbove` (0 for none) remembers an examination since which all were late. */
  ghost predicate Remembers(log: seq<Event>, mark: u32, j: nat) {
    AboveSince(log, j) && mark == Wrap(log[j].time + log[j].p.interval)
  }

  ghost predicate HistoryOk(c: Cell, now: nat) {
    && AllJustified(c.log)
    && (forall e :: e in c.log && e.Exam? ==> e.time <= now)
    && (c.vars.firstAbove != 0 ==> exists j: nat :: Remembers(c.log, c.vars.firstAbove, j))
  }

  lemma JustifiedAppend(log: seq<Event>, e: Event)
    requires AllJustified(log) && (e.Shed? ==> Grounds(log, e.pkt))
    ensures AllJustified(log + [e])
  {
    forall k | 0 <= k < |log + [e]| && (log + [e])[k].Shed?
      ensures Grounds((log + [e])[..k], (log + [e])[k].pkt)
    {
      assert (log + [e])[..k] == log[..k];
      if k == |log| { assert log[..k] == log; }
    }
  }

  lemma LateIsAbove(now: nat, stamp: nat, target: u32)
    requires target < HALF && stamp <= now
    requires !Before(Wrap(Wrap(now) - Wrap(stamp)), target)
    ensures now - stamp >= target
  {
    WrapDifference(now, stamp);
    SojournTestExact(target);
    var s: nat := now - stamp;
    assert !Before(Wrap(s), target);
  }

  lemma AboveSinceAppend(log: seq<Event>, e: Event, j: nat)
    requires AboveSince(log, j) && !e.RanDry? && !e.Cleared? && (e.Exam? ==> Above(e)) && (e.EmptyPoll? ==> e.mark != 0)
    ensures AboveSince(log + [e], j)
  {
  }

  /** An examination keeps the history in order and, with a positive verdict, gives grounds. */
  lemma ExamKeepsHistory(c: Cell, pkt: Packet, p: Params, now: nat)
    requires HistoryOk(c, now) && pkt.stamp <= now
    ensures var (c', ok) := ShouldDrop(c, Some(pkt), p, now);
            HistoryOk(c', now) && (ok ==> Grounds(c'.log, pkt))
  {
    var (c', ok) := ShouldDrop(c, Some(pkt), p, now);
    var e := c'.log[|c.log|];
    assert c'.log == c.log + [e];
    JustifiedAppend(c.log, e);
    if c'.vars.firstAbove != 0 {
      if p.target < HALF { LateIsAbove(now, pkt.stamp, p.target); }
      assert Above(e);
      if c.vars.firstAbove == 0 {
        assert Wrap(Wrap(now) + p.interval) == Wrap(now + p.interval) by {
          WrapUnique(p.interval, 0, p.interval);
          WrapDifference(now, p.interval);
        }
        assert Remembers(c'.log, c'.vars.firstAbove, |c.log|);
      } else {
        var j: nat :| Remembers(c.log, c.vars.firstAbove, j);
        AboveSinceAppend(c.log, e, j);
        assert Remembers(c'.log, c'.vars.firstAbove, j);
        if ok {
          assert c.log[j] in c.log;
          if c.log[j].p.interval <= HALF { IntervalElapsed(c.log[j].time, now, c.log[j].p.interval); }
          assert GroundsFrom(c'.log, pkt, j);
        }
      }
    }
  }

  /** Entries other than examinations and dry tests leave the memory of the mark intact. */
  lemma NoteKeepsHistory(c: Cell, e: Event, c': Cell, now: nat)
    requires HistoryOk(c, now)
    requires e == EmptyPoll(c.vars.firstAbove) || e.Planned? || (e.Shed? && Grounds(c.log, e.pkt))
    requires c'.log == c.log + [e] && c'.vars.firstAbove == c.vars.firstAbove
    ensures HistoryOk(c', now)
  {
    JustifiedAppend(c.log, e);
    if c.vars.firstAbove != 0 {
      var j: nat :| Remembers(c.log, c.vars.firstAbove, j);
      AboveSinceAppend(c.log, e, j);
      assert Remembers(c'.log, c'.vars.firstAbove, j);
    }
  }

  /** A plan takes no grounds away. */
  lemma PlanKeepsGrounds(c: Cell, e: Event, c': Cell, now: nat, pkt: Packet)
    requires HistoryOk(c, now) && Grounds(c.log, pkt) && e.Planned? && c.log[|c.log| - 1].Exam?
    requires c'.log == c.log + [e] && c'.vars.firstAbove == c.vars.firstAbove
    ensures HistoryOk(c', now) && Grounds(c'.log, pkt)
  {
    NoteKeepsHistory(c, e, c', now);
    var j: nat :| GroundsFrom(c.log, pkt, j);
    AboveSinceAppend(c.log, e, j);
    assert GroundsFrom(c'.log, pkt, j);
  }

  ghost predicate StampsOk(q: seq<Packet>, now: nat) {
    forall pkt :: pkt in q ==> pkt.stamp <= now
  }

  lemma FetchKeepsHistory(c: Cell, p: Params, now: nat)
    requires HistoryOk(c, now) && StampsOk(c.queue, now)
    ensures var (c', skb, ok) := Fetch(c, p, now);
            HistoryOk(c', now) && StampsOk(c'.queue, now) && (ok ==> Grounds(c'.log, skb.value))
  {
    var (c1, skb) := TakeHead(c);
    if skb.None? {
      JustifiedAppend(c.log, RanDry);
    } else {
      ExamKeepsHistory(c1, skb.value, p, now);
    }
  }

  lemma {:induction false} DropLoopKeepsHistory(c: Cell, pkt: Packet, p: Params, now: nat)
    requires HistoryOk(c, now) && StampsOk(c.queue, now) && Grounds(c.log, pkt)
    ensures HistoryOk(DropLoop(c, pkt, p, now).0, now)
    decreases |c.queue|
  {
    if DueToDrop(c.vars, now) {
      var c1 := c.(vars := Quicken(c.vars));
      if p.ecn && pkt.ect {
        var d := MarkPacket(c1, pkt, now);
        NoteKeepsHistory(c, Shed(now, pkt, true), d, now);
        PlanKeepsHistory(d, p, now);
      } else {
        var d := DropPacket(c1, pkt, now);
        NoteKeepsHistory(c, Shed(now, pkt, false), d, now);
        FetchKeepsHistory(d, p, now);
        var (c2, next, ok) := Fetch(d, p, now);
        if ok {
          PlanKeepsGrounds(c2, PlanNext(c2, p).log[|c2.log|], PlanNext(c2, p), now, next.value);
          DropLoopKeepsHistory(PlanNext(c2, p), next.value, p, now);
        }
      }
    }
  }

  lemma PlanKeepsHistory(c: Cell, p: Params, now: nat)
    requires HistoryOk(c, now)
    ensures HistoryOk(PlanNext(c, p), now) && HistoryOk(Enter(c, p, now), now)
  {
    NoteKeepsHistory(c, PlanNext(c, p).log[|c.log|], PlanNext(c, p), now);
    NoteKeepsHistory(c, Enter(c, p, now).log[|c.log|], Enter(c, p, now), now);
  }

  lemma FirstDropKeepsHistory(c: Cell, pkt: Packet, p: Params, now: nat)
    requires HistoryOk(c, now) && StampsOk(c.queue, now) && Grounds(c.log, pkt)
    ensures HistoryOk(FirstDrop(c, pkt, p, now).0, now)
  {
    if p.ecn && pkt.ect {
      NoteKeepsHistory(c, Shed(now, pkt, true), MarkPacket(c, pkt, now), now);
      PlanKeepsHistory(MarkPacket(c, pkt, now), p, now);
    } else {
      NoteKeepsHistory(c, Shed(now, pkt, false), DropPacket(c, pkt, now), now);
      FetchKeepsHistory(DropPacket(c, pkt, now), p, now);
      PlanKeepsHistory(Fetch(DropPacket(c, pkt, now), p, now).0, p, now);
    }
  }

  /** Over every run, a packet is shed only on good grounds, whatever the wraps of the
      32-bit clock and although 0 doubles as "no mark". */
  lemma DequeueKeepsHistory(c: Cell, p: Params, now: nat)
    requires HistoryOk(c, now) && StampsOk(c.queue, now)
    ensures HistoryOk(Dequeue(c, p, now).0, now)
  {
    if c.queue == [] {
      NoteKeepsHistory(c, EmptyPoll(c.vars.firstAbove), Dequeue(c, p, now).0, now);
    } else {
      FetchKeepsHistory(c, p, now);
      var (c1, skb, ok) := Fetch(c, p, now);
      if ok {
        if c1.vars.dropping { DropLoopKeepsHistory(c1, skb.value, p, now); }
        else { FirstDropKeepsHistory(c1, skb.value, p, now); }
      }
    }
  }

  /** The verdict is not only sound but prompt: once an interval has passed since the
      remembered examination, a late packet is condemned. */
  lemma VerdictFires(c: Cell, pkt: Packet, p: Params, now: nat, j: nat)
    requires HistoryOk(c, now) && pkt.stamp <= now && p.target < HALF
    requires c.vars.firstAbove != 0 && Remembers(c.log, c.vars.firstAbove, j)
    requires c.log[j].p.interval < now - c.log[j].time < c.log[j].p.interval + HALF
    requires now - pkt.stamp < HALF
    ensures ShouldDrop(c, Some(pkt), p, now).1
            <==> now - pkt.stamp >= p.target && c.total - pkt.len > p.mtu
  {
    IntervalFires(c.log[j].time, now, c.log[j].p.interval);
    ShortSojourn(now, pkt.stamp, p.target);
  }

  lemma ShortSojourn(now: nat, stamp: nat, target: u32)
    requires 0 <= now - stamp < HALF && target < HALF
    ensures Before(Wrap(Wrap(now) - Wrap(stamp)), target) <==> now - stamp < target
  {
    WrapDifference(now, stamp);
    WrapUnique(now - stamp, 0, now - stamp);
    WrapUnique(target, 0, target);
    SerialOrder(target, now - stamp);
  }

  // ---------- what an empty poll does not forget ----------

  /** The next verdict after a dequeue has found the flow empty is negative, whatever the packet, the time, the
      settings and the backlog, exactly if no mark was set. */
  lemma EmptyPollForgetsIff(c: Cell, p: Params, now: nat)
    requires c.queue == []
    ensures var c1 := Dequeue(c, p, now).0;
            (forall total: int, pkt: Packet, p': Params, later: nat ::
               !ShouldDrop(c1.(total := total), Some(pkt), p', later).1)
            <==> c.vars.firstAbove == 0
  {
    if c.vars.firstAbove != 0 {
      var c1, later, pkt := MarkStillFires(c, p, now, p, 1, p.mtu + 2);
      assert ShouldDrop(c1.(total := p.mtu + 2), Some(pkt), p, later).1;
    }
  }

  /** Under any settings, and for any backlog that leaves more than an MTU behind: a packet that comes after the poll,
      is just late when it is examined, and the first to be examined since. The mark condemns it. */
  lemma MarkStillFires(c: Cell, p: Params, now: nat, p': Params, len: PacketLength, total: int)
    returns (c1: Cell, later: nat, pkt: Packet)
    requires c.queue == [] && c.vars.firstAbove != 0 && total - len > p'.mtu
    ensures c1 == Dequeue(c, p, now).0 && now <= pkt.stamp <= later && pkt.len == len
    ensures ShouldDrop(c1.(total := total), Some(pkt), p', later).1
  {
    c1 := Dequeue(c, p, now).0;
    var due := now + p'.target;
    later := due + Wrap(c.vars.firstAbove + 1 - Wrap(due));
    pkt := Packet(0, len, later - p'.target, false);
    JustAfter(c.vars.firstAbove, due);
    WrapDifference(later, pkt.stamp);
    WrapUnique(p'.target, 0, p'.target);
    WrapUnique(0, 0, 0);
  }

  lemma JustAfter(mark: u32, now: nat)
    ensures After(Wrap(now + Wrap(mark + 1 - Wrap(now))), mark)
  {
    WrapDifference(now, mark + 1 - now);
    WrapDifference(mark + 1, now);
    assert Wrap(now + Wrap(mark + 1 - Wrap(now))) == Wrap(mark + 1) by {
      var d := mark + 1 - Wrap(now);
      WrapDifference(now, d);
      WrapDifference(Wrap(now), d);
      WrapUnique(Wrap(now), 0, Wrap(now));
      var k := Wrap(d);
      WrapDifference(now, k);
      WrapUnique(k, 0, k);
    }
    WrapDifference(mark + 1, mark);
    WrapUnique(mark, 0, mark);
    WrapUnique(1, 0, 1);
  }

  /** The stretch from `j` on includes a time when the flow was found empty. */
  ghost predicate SpansEmptyPoll(log: seq<Event>, j: nat) {
    exists m :: j <= m < |log| && log[m].EmptyPoll?
  }

  /** There are grounds for shedding the packet, and all of them reach back past a time when the flow was found empty. */
  ghost predicate GroundsSpanPoll(log: seq<Event>, pkt: Packet) {
    Grounds(log, pkt) && forall j: nat :: GroundsFrom(log, pkt, j) ==> SpansEmptyPoll(log, j)
  }

  /** What comes right after an empty poll has no grounds but from before it. */
  lemma GroundsAreOlder(log: seq<Event>, pkt: Packet)
    requires |log| >= 2 && log[|log| - 2].EmptyPoll? && Grounds(log, pkt)
    requires log[|log| - 1].Exam? && log[|log| - 1].p.interval <= HALF
    ensures GroundsSpanPoll(log, pkt)
  {
    forall j: nat | GroundsFrom(log, pkt, j) ensures SpansEmptyPoll(log, j) {
      assert j < |log| - 1;
      assert log[|log| - 2].EmptyPoll?;
    }
  }

  lemma VerdictSpansPoll(c: Cell, now: nat, pkt: Packet, p': Params, later: nat)
    requires HistoryOk(c, now) && c.log != [] && c.log[|c.log| - 1].EmptyPoll? && now <= later && pkt.stamp <= later
    requires p'.interval <= HALF && ShouldDrop(c, Some(pkt), p', later).1
    ensures GroundsSpanPoll(ShouldDrop(c, Some(pkt), p', later).0.log, pkt)
  {
    LaterHistory(c, now, c, later);
    ExamKeepsHistory(c, pkt, p', later);
    GroundsAreOlder(ShouldDrop(c, Some(pkt), p', later).0.log, pkt);
  }

  /** And a mark found by an empty poll can always come to that: whatever settings with a measurable interval are in
      force, and whatever backlog leaves more than an MTU behind, a packet can come after the poll that is condemned
      on such grounds. */
  lemma MarkSpansPoll(c: Cell, p: Params, now: nat, p': Params, len: PacketLength, total: int)
    requires HistoryOk(c, now) && c.queue == [] && c.vars.firstAbove != 0
    requires p'.interval <= HALF && total - len > p'.mtu
    ensures exists pkt: Packet, later: nat ::
              var (c2, ok) := ShouldDrop(Dequeue(c, p, now).0.(total := total), Some(pkt), p', later);
              now <= pkt.stamp <= later && pkt.len == len && ok && GroundsSpanPoll(c2.log, pkt)
  {
    var c1, later, pkt := MarkStillFires(c, p, now, p', len, total);
    DequeueKeepsHistory(c, p, now);
    LaterHistory(c1, now, c1.(total := total), now);
    VerdictSpansPoll(c1.(total := total), now, pkt, p', later);
  }

  lemma LaterHistory(c: Cell, now: nat, d: Cell, later: nat)
    requires HistoryOk(c, now) && now <= later && d.log == c.log && d.vars == c.vars
    ensures HistoryOk(d, later)
  {
  }

  /** Where the code departs from section 5.5 of RFC 8289: a dequeue that finds the flow empty
      does not forget the mark. Here the flow stands empty in between, yet the next late packet is
      dropped as if the queue had stood all the time. */
  lemma EmptyPollDoesNotForget()
    ensures
      var p := Params(10, 0x7FFF_FFFF, 100, 0, false);
      var a, b := Packet(1, 500, 0, false), Packet(2, 500, 1060, false);
      var stats := Stats(0, 0, 0, 0, 0);
      var c0 := Cell([a], InitialVars, 500, 10, 5000, stats, 0, [], []);
      var (c1, first) := Dequeue(c0, p, 1000);
      var (c2, second) := Dequeue(c1, p, 1050);
      var c3 := c2.(queue := [b], backlog := 500, qlen := c2.qlen + 1, total := c2.total + 500);
      var (c4, third) := Dequeue(c3, p, 1200);
      first == Some(a) && second == None && third == None && Departure(b, CodelDropped) in c4.departed
      && EmptyPoll(1100) in c4.log
  {
    var p := Params(10, 0x7FFF_FFFF, 100, 0, false);
    var a, b := Packet(1, 500, 0, false), Packet(2, 500, 1060, false);
    var c0 := Cell([a], InitialVars, 500, 10, 5000, Stats(0, 0, 0, 0, 0), 0, [], []);
    var (c1, first) := Dequeue(c0, p, 1000);
    assert c1.vars.firstAbove == 1100 && !c1.vars.dropping && c1.log == [Exam(1000, a, 4500, p, false)];
    var (c2, second) := Dequeue(c1, p, 1050);
    assert c2.log == [Exam(1000, a, 4500, p, false), EmptyPoll(1100)];
    var c3 := c2.(queue := [b], backlog := 500, qlen := c2.qlen + 1, total := c2.total + 500);
    var (f, skb, ok) := Fetch(c3, p, 1200);
    assert ok && f.queue == [] && skb == Some(b);
    var d := DropPacket(f, b, 1200);
    assert d.departed == [Departure(b, CodelDropped)];
    assert d.log[1] == EmptyPoll(1100);
    assert Fetch(d, p, 1200).0.log[1] == EmptyPoll(1100);
  }
}
