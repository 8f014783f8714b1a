/** What a commit keeps of the indexes and counters, however it ends. */
module BundleKeeps {
  import opened FlowTable
  import opened FlowMod
  import opened FlowModRevert
  import opened FlowModInv
  import opened FlowSpec
  import opened FlowRefine
  import opened FlowShape
  import opened FlowSound
  import opened GroupMod
  import opened Bundle
  import opened BundleFailure

  // ---------- after any commit ----------

  lemma StartMsgKeepsOrder(s: Switch, next: nat, v: nat, msg: Msg)
    requires Orderly(s, next, v) && MsgReady(s, msg) && StartMsg(s, next, v, msg).Ok?
    ensures var d := StartMsg(s, next, v, msg).value; Orderly(d.s, d.next, v)
  {
    match msg {
      case FlowMsg(m) =>
        StartRecorded(s, next, v, m);
        StartKeepsOrder(s, next, v, m, Start(s, next, v, m).value);
      case GroupMsg(g) =>
        GroupStartRunnable(s, next, v, g);
        GroupStartKeepsOrder(s, next, v, g);
    }
  }

  lemma GroupRevertKeepsOrder(s: Switch, next: nat, v: nat, t1: Switch, u: GUndo, end: nat)
    requires GroupsOk(s, next, v) && Orderly(t1, end, v) && next <= end
    requires GroupRevertible(t1, u) && Covers(s, GroupRevert(t1, u))
    ensures Orderly(GroupRevert(t1, u), end, v)
  {
    var t := GroupRevert(t1, u);
    SameGroups(s, t, next, end, v);
    forall id: nat ensures Indexed(t, id) { assert Indexed(t1, id); }
  }

  lemma FlowRevertKeepsOrder(s: Switch, next: nat, v: nat, m: FlowMod, t1: Switch, end: nat)
    requires Runnable(s, next) && ModReady(s, m) && Start(s, next, v, m).Ok?
    requires Covers(Start(s, next, v, m).value.s, t1) && Orderly(t1, end, v)
    ensures var u := Start(s, next, v, m).value.undo; Revertible(t1, m, u) && Orderly(Revert(t1, m, u), end, v)
  {
    var st := Start(s, next, v, m).value;
    StartRecorded(s, next, v, m);
    FlowFits(s, next, v, m, st, t1);
    RevertHasShape(t1, m, st.undo);
    RevertKeepsOrder(t1, Revert(t1, m, st.undo), end, v, SetOf(st.undo.olds), Dropped(m, st.undo));
  }

  lemma RevertMsgKeepsOrder(s: Switch, next: nat, v: nat, msg: Msg, d: Done, t1: Switch, end: nat)
    requires Orderly(s, next, v) && MsgReady(s, msg) && StartMsg(s, next, v, msg) == Ok(d)
    requires Covers(d.s, t1) && Orderly(t1, end, v) && next <= end
    ensures MsgRevertible(t1, msg, d.undo) && Orderly(RevertMsg(t1, msg, d.undo), end, v)
  {
    match msg {
      case FlowMsg(m) => FlowRevertKeepsOrder(s, next, v, m, t1, end);
      case GroupMsg(g) =>
        var st := StartedGroup(s, next, v, g, d);
        GroupFits(s, next, v, g, t1);
        GroupRevertKeepsOrder(s, next, v, t1, st.undo, end);
    }
  }

  lemma {:induction false} BeginKeepsOrder(s: Switch, next: nat, v: nat, msgs: seq<Msg>)
    requires Orderly(s, next, v) && AllReady(s, msgs)
    ensures var b := BeginAll(s, next, v, msgs); Orderly(b.s, b.next, v) && b.s.version == s.version
    decreases |msgs|
  {
    if msgs != [] {
      assert MsgReady(s, msgs[0]);
      match StartMsg(s, next, v, msgs[0])
      case Err(_) =>
      case Ok(d) =>
        StartMsgKeepsOrder(s, next, v, msgs[0]);
        StartMsgRunnable(s, next, v, msgs[0]);
        StartMsgVersion(s, next, v, msgs[0]);
        ReadyRest(s, d.s, msgs);
        BeginKeepsOrder(d.s, d.next, v, msgs[1..]);
    }
  }

  lemma StartMsgVersion(s: Switch, next: nat, v: nat, msg: Msg)
    requires Runnable(s, next) && MsgReady(s, msg) && StartMsg(s, next, v, msg).Ok?
    ensures StartMsg(s, next, v, msg).value.s.version == s.version
  {
    match msg {
      case FlowMsg(m) => StartRecorded(s, next, v, m);
      case GroupMsg(g) => GroupStartRunnable(s, next, v, g);
    }
  }

  lemma {:induction false} RevertedKeepsOrder(s: Switch, next: nat, v: nat, msgs: seq<Msg>, end: nat) returns (t: Switch)
    requires Orderly(s, next, v) && AllReady(s, msgs) && end == BeginAll(s, next, v, msgs).next
    ensures Reverted(s, next, v, msgs, t) && Covers(s, t) && Orderly(t, end, v)
    decreases |msgs|
  {
    if msgs == [] {
      t := s;
      NothingReverted(s, next, v, msgs);
    } else {
      assert MsgReady(s, msgs[0]);
      match StartMsg(s, next, v, msgs[0]) {
        case Err(_) =>
          t := s;
          NothingReverted(s, next, v, msgs);
        case Ok(d) =>
          StartMsgKeepsOrder(s, next, v, msgs[0]);
          StartMsgRunnable(s, next, v, msgs[0]);
          ReadyRest(s, d.s, msgs);
          BeginNextGrows(d.s, d.next, v, msgs[1..]);
          var t1 := RevertedKeepsOrder(d.s, d.next, v, msgs[1..], end);
          MsgFits(s, next, v, msgs[0], d, t1);
          RevertMsgKeepsOrder(s, next, v, msgs[0], d, t1, end);
          RevertedStep(s, next, v, msgs, d, t1);
          t := RevertMsg(t1, msgs[0], d.undo);
      }
    }
  }

  /** Whatever bundle is committed, and however it ends, the cookie index, the dates and the groups stay in order. */
  lemma CommitKeepsOrder(s: Switch, next: nat, msgs: seq<Msg>)
    requires Orderly(s, next, s.version + 1) && AllReady(s, msgs)
    ensures var r := Commit(s, next, msgs);
            r.Some? && Orderly(r.value.s, r.value.next, r.value.s.version + 1)
  {
    var v := s.version + 1;
    var b := BeginAll(s, next, v, msgs);
    CommitConcludes(s, next, msgs, b);
    BeginKeepsOrder(s, next, v, msgs);
    if b.error.None? {
      PublishKeepsOrder(b.s, b.next, v, v);
      OrderlyLater(b.s, b.next, v, b.next, v + 1);
      PublishKeepsOrder(b.s, b.next, v + 1, v);
    } else {
      var t := RevertedKeepsOrder(s, next, v, msgs, b.next);
      FailedIsReverted(s, next, msgs, t);
    }
  }

  lemma PublishKeepsOrder(s: Switch, next: nat, v: nat, version: nat)
    requires Orderly(s, next, v)
    ensures Orderly(s.(version := version), next, v)
  {
    var t := s.(version := version);
    forall id: nat ensures Indexed(t, id) { assert Indexed(s, id); }
    forall k | 0 <= k < |t.nGroups| ensures t.nGroups[k] == |OfKind(t, k)| { assert OfKind(t, k) == OfKind(s, k); }
  }

  // ---------- after a commit that fails without having evicted ----------

  /** The marks of eviction on the rules of `s` are in `t` what they are in `s`. */
  ghost predicate SameMarks(s: Switch, t: Switch) {
    forall id :: id in s.rules ==> id in t.rules && t.rules[id].evicted == s.rules[id].evicted
  }

  ghost predicate Evicts(s: Switch, next: nat, v: nat, m: FlowMod)
    requires TablesInRange(s) && ModReady(s, m)
  {
    match m
    case Add(c) => Evicting(s, v, c)
    case Modify(cr, c, mayAdd, _) => mayAdd && Collect(s, cr, next) == [] && Evicting(s, v, c)
    case Delete(_) => false
  }

  lemma ReplaceSameMarks(s: Switch, v: nat, prior: Option<Id>, c: Content, id: Id)
    requires c.key.table < |s.nFlows| && id !in s.rules && (prior.Some? ==> prior.value in s.rules)
    ensures SameMarks(s, Replace(s, v, prior, c, id))
  {
    ReplaceIsReplaced(s, v, prior, c, id);
  }

  lemma AddSameMarks(s: Switch, next: nat, v: nat, c: Content, isAdd: bool)
    requires Runnable(s, next) && c.key.table < |s.tables| && AddStart(s, next, v, c, isAdd).Ok? && !Evicting(s, v, c)
    ensures SameMarks(s, AddStart(s, next, v, c, isAdd).value.s)
  {
    match FindExactly(s, c.key, v) {
      case Some(id) =>
        assert IsExactly(s, c.key, v, id);
        ReplaceSameMarks(s, v, Some(id), Successor(s.rules[id], c, isAdd, true), next);
      case None => ReplaceSameMarks(s, v, None, c, next);
    }
  }

  lemma {:induction false} ReplaceAllSameMarks(s: Switch, v: nat, olds: seq<Id>, news: seq<Id>, cs: seq<Content>)
    requires Replaceable(s, olds, news, cs) && Separate(s, olds, news)
    ensures SameMarks(s, ReplaceAll(s, v, olds, news, cs))
    decreases |olds|
  {
    if olds != [] {
      ReplaceFrame(s, v, olds, news, cs);
      ReplaceAllSameMarks(Replace(s, v, Some(olds[0]), cs[0], news[0]), v, olds[1..], news[1..], cs[1..]);
    }
  }

  lemma {:induction false} DeleteAllSameMarks(s: Switch, v: nat, ids: seq<Id>)
    requires AllIn(s, ids)
    ensures SameMarks(s, DeleteAll(s, v, ids))
    decreases |ids|
  {
    if ids != [] { DeleteAllSameMarks(DeleteOne(s, v, ids[0]), v, ids[1..]); }
  }

  lemma ModifySameMarks(s: Switch, next: nat, v: nat, m: FlowMod, olds: seq<Id>)
    requires Runnable(s, next) && m.Modify? && m.c.key.table < |s.tables| && AllIn(s, olds) && Distinct(olds)
    requires ModifyThese(s, next, v, m, olds).Ok?
    ensures SameMarks(s, ModifyThese(s, next, v, m, olds).value.s)
  {
    ReplaceAllSameMarks(s, v, olds, NewIds(next, |olds|), Copies(s, olds, m.c, m.modifyCookie));
  }

  lemma StartSameMarks(s: Switch, next: nat, v: nat, m: FlowMod)
    requires Runnable(s, next) && ModReady(s, m) && Start(s, next, v, m).Ok? && !Evicts(s, next, v, m)
    ensures SameMarks(s, Start(s, next, v, m).value.s)
  {
    match m {
      case Add(c) => AddSameMarks(s, next, v, c, true);
      case Modify(cr, _, _, _) =>
        CollectIsIn(s, cr, next);
        if Collect(s, cr, next) != [] { ModifySameMarks(s, next, v, m, Collect(s, cr, next)); }
        else if m.mayAdd { AddSameMarks(s, next, v, m.c, false); }
      case Delete(cr) =>
        CollectIsIn(s, cr, next);
        DeleteAllSameMarks(s, v, Collect(s, cr, next));
    }
  }

  /** `t` is an echo of `s` in which no rule has been marked. */
  ghost predicate CleanEcho(s: Switch, t: Switch, v: nat, left: map<Id, Content>) {
    Echo(s, t, v, left) && SameMarks(s, t)
  }

  lemma EchoSwappable(s: Switch, next: nat, v: nat, m: FlowMod, st: Started, t1: Switch, left: map<Id, Content>)
    requires Sound(s, next, v) && Recorded(s, next, v, m, st) && AllInserted(s, SetOf(st.undo.olds))
    requires SameMarks(s, st.s) && CleanEcho(st.s, t1, v, left)
    ensures Swappable(t1, SetOf(st.undo.olds), Dropped(m, st.undo))
  {
    OldsAreRemoved(s, st.s, v, SetOf(st.undo.olds), SetOf(st.undo.news));
    LeavesAre(s, next, v, m, st);
    forall id | id in SetOf(st.undo.olds) ensures id in t1.rules && !t1.rules[id].state.Inserted? && !t1.rules[id].evicted {
      assert Heaped(s, id) && IsInserted(s, id);
      assert Unmarked(t1.rules[id]).state == st.s.rules[id].state;
    }
    forall id | id in Dropped(m, st.undo) ensures IsInserted(t1, id) {
      assert Newborn(st.s.rules[id], v);
      assert Unmarked(t1.rules[id]).state == st.s.rules[id].state;
    }
  }

  lemma MarksStep(s: Switch, next: nat, v: nat, m: FlowMod, st: Started, t1: Switch, t: Switch)
    requires Recorded(s, next, v, m, st) && SameMarks(s, st.s) && SameMarks(st.s, t1)
    requires RevertShape(t1, t, SetOf(st.undo.olds), Dropped(m, st.undo))
    ensures SameMarks(s, t)
  {
    LeavesAre(s, next, v, m, st);
    forall id | id in s.rules ensures id in t.rules && t.rules[id].evicted == s.rules[id].evicted {
      assert id in st.s.rules && id in t1.rules && id !in SetOf(st.undo.news);
      if id in SetOf(st.undo.olds) { assert t.rules[id] == Reborn(t1.rules[id]); }
    }
  }

  lemma FlowRevertKeepsSound(s: Switch, next: nat, v: nat, m: FlowMod, t1: Switch, left: map<Id, Content>, end: nat)
    requires Sound(s, next, v) && ModReady(s, m) && Start(s, next, v, m).Ok? && !Evicts(s, next, v, m)
    requires CleanEcho(Start(s, next, v, m).value.s, t1, v, left) && Sound(t1, end, v)
    ensures var u := Start(s, next, v, m).value.undo;
            Revertible(t1, m, u) && Sound(Revert(t1, m, u), end, v) && SameMarks(s, Revert(t1, m, u))
  {
    var st := Start(s, next, v, m).value;
    StartKeepsSound(s, next, v, m);
    StartSameMarks(s, next, v, m);
    StartedRevertKeepsSound(s, next, v, m, st, t1, left, end);
  }

  lemma StartedRevertKeepsSound(s: Switch, next: nat, v: nat, m: FlowMod, st: Started, t1: Switch, left: map<Id, Content>, end: nat)
    requires Sound(s, next, v) && Recorded(s, next, v, m, st) && AllInserted(s, SetOf(st.undo.olds)) && SameMarks(s, st.s)
    requires CleanEcho(st.s, t1, v, left) && Sound(t1, end, v)
    ensures Revertible(t1, m, st.undo)
    ensures Sound(Revert(t1, m, st.undo), end, v) && SameMarks(s, Revert(t1, m, st.undo))
  {
    EchoCovers(st.s, t1, v, left);
    FlowFits(s, next, v, m, st, t1);
    EchoSwappable(s, next, v, m, st, t1, left);
    RevertKeepsSound(t1, end, v, m, st.undo);
    RevertHasShape(t1, m, st.undo);
    MarksStep(s, next, v, m, st, t1, Revert(t1, m, st.undo));
  }

  lemma GroupRevertKeepsSound(s: Switch, next: nat, v: nat, g: GMod, d: Done, t1: Switch, end: nat)
    requires Sound(s, next, v) && g.kind < |s.nGroups| && StartMsg(s, next, v, GroupMsg(g)) == Ok(d)
    requires Covers(d.s, t1) && SameMarks(d.s, t1) && Sound(t1, end, v) && next <= end
    ensures MsgRevertible(t1, GroupMsg(g), d.undo)
    ensures var t := RevertMsg(t1, GroupMsg(g), d.undo); Sound(t, end, v) && SameMarks(s, t)
  {
    var st := StartedGroup(s, next, v, g, d);
    GroupFits(s, next, v, g, t1);
    GroupStartRunnable(s, next, v, g);
    UngroupKeepsSound(s, next, v, t1, st.undo, end);
  }

  lemma UngroupKeepsSound(s: Switch, next: nat, v: nat, t1: Switch, u: GUndo, end: nat)
    requires GroupsOk(s, next, v) && Sound(t1, end, v) && next <= end
    requires GroupRevertible(t1, u) && Covers(s, GroupRevert(t1, u))
    ensures Sound(GroupRevert(t1, u), end, v)
  {
    GroupRevertKeepsOrder(s, next, v, t1, u, end);
    RulesAsBefore(t1, GroupRevert(t1, u));
  }

  lemma RulesAsBefore(s: Switch, t: Switch)
    requires (forall id: nat :: Heaped(s, id)) && CountsOk(s)
    requires t.rules == s.rules && t.evictable == s.evictable && t.tables == s.tables && t.nFlows == s.nFlows
    ensures (forall id: nat :: Heaped(t, id)) && CountsOk(t)
  {
    forall id: nat ensures Heaped(t, id) { assert Heaped(s, id); }
    forall k | 0 <= k < |t.nFlows| ensures t.nFlows[k] == |InTable(t, k)| { assert InTable(t, k) == InTable(s, k); }
  }

  ghost predicate NoneEvicted(s: Switch, next: nat, v: nat, msgs: seq<Msg>)
    requires Runnable(s, next) && AllReady(s, msgs)
    decreases |msgs|
  {
    msgs == [] || (
      assert MsgReady(s, msgs[0]);
      match StartMsg(s, next, v, msgs[0])
      case Err(_) => true
      case Ok(d) =>
        StartMsgRunnable(s, next, v, msgs[0]);
        ReadyRest(s, d.s, msgs);
        && (msgs[0].FlowMsg? ==> !Evicts(s, next, v, msgs[0].m))
        && NoneEvicted(d.s, d.next, v, msgs[1..]))
  }

  lemma RevertMsgKeepsSound(s: Switch, next: nat, v: nat, msg: Msg, d: Done, t1: Switch, left: map<Id, Content>, end: nat)
    requires Sound(s, next, v) && MsgReady(s, msg) && StartMsg(s, next, v, msg) == Ok(d)
    requires msg.FlowMsg? ==> !Evicts(s, next, v, msg.m)
    requires CleanEcho(d.s, t1, v, left) && Sound(t1, end, v) && next <= end
    ensures MsgRevertible(t1, msg, d.undo)
    ensures var t := RevertMsg(t1, msg, d.undo); Sound(t, end, v) && CleanEcho(s, t, v, MsgLeaves(msg, d) + left)
  {
    EchoMsg(s, next, v, msg, d, t1, left);
    match msg {
      case FlowMsg(m) => FlowRevertKeepsSound(s, next, v, m, t1, left, end);
      case GroupMsg(g) =>
        EchoCovers(d.s, t1, v, left);
        GroupRevertKeepsSound(s, next, v, g, d, t1, end);
    }
  }

  lemma {:induction false} BeginKeepsSound(s: Switch, next: nat, v: nat, msgs: seq<Msg>)
    requires Sound(s, next, v) && AllReady(s, msgs)
    ensures var b := BeginAll(s, next, v, msgs); Sound(b.s, b.next, v)
    decreases |msgs|
  {
    if msgs != [] {
      assert MsgReady(s, msgs[0]);
      match StartMsg(s, next, v, msgs[0])
      case Err(_) =>
      case Ok(d) =>
        StartMsgKeepsSound(s, next, v, msgs[0]);
        StartMsgRunnable(s, next, v, msgs[0]);
        ReadyRest(s, d.s, msgs);
        BeginKeepsSound(d.s, d.next, v, msgs[1..]);
    }
  }

  lemma {:induction false} RevertedKeepsSound(s: Switch, next: nat, v: nat, msgs: seq<Msg>, end: nat) returns (t: Switch)
    requires Sound(s, next, v) && AllReady(s, msgs) && NoneEvicted(s, next, v, msgs)
    requires end == BeginAll(s, next, v, msgs).next
    ensures Reverted(s, next, v, msgs, t) && Sound(t, end, v) && CleanEcho(s, t, v, Leftover(s, next, v, msgs))
    decreases |msgs|
  {
    if msgs == [] {
      t := s;
      NothingReverted(s, next, v, msgs);
      NoEcho(s, v);
    } else {
      assert MsgReady(s, msgs[0]);
      match StartMsg(s, next, v, msgs[0]) {
        case Err(_) =>
          t := s;
          NothingReverted(s, next, v, msgs);
          NoEcho(s, v);
        case Ok(d) =>
          StartMsgKeepsSound(s, next, v, msgs[0]);
          StartMsgRunnable(s, next, v, msgs[0]);
          ReadyRest(s, d.s, msgs);
          BeginNextGrows(d.s, d.next, v, msgs[1..]);
          var t1 := RevertedKeepsSound(d.s, d.next, v, msgs[1..], end);
          RevertMsgKeepsSound(s, next, v, msgs[0], d, t1, Leftover(d.s, d.next, v, msgs[1..]), end);
          RevertedStep(s, next, v, msgs, d, t1);
          t := RevertMsg(t1, msgs[0], d.undo);
      }
    }
  }

  // ---------- after a commit that fails having evicted ----------

  /** Where a heap is inexact for good: an inserted rule marked as evicted stands in it twice, or a rule that is gone
      does. */
  ghost predicate HeapScarAt(s: Switch, t: Switch, next: nat, id: Id) {
    && t.evictable[id] > 0
    && if id in t.rules then IsInserted(t, id) && t.rules[id].evicted && t.evictable[id] >= 2 && (id < next ==> IsInserted(s, id))
       else id >= next
  }

  ghost predicate HeapScarred(s: Switch, t: Switch, next: nat) {
    exists id: nat :: HeapScarAt(s, t, next, id)
  }

  lemma HeapScarIsSeen(s: Switch, t: Switch, next: nat)
    requires HeapScarred(s, t, next)
    ensures !forall id: nat :: Heaped(t, id)
  {
    var id: nat :| HeapScarAt(s, t, next, id);
    assert !Heaped(t, id);
  }

  /** Reverting an earlier message leaves the scar, or takes the rule and leaves an entry. */
  lemma FlowHeapScarStays(s: Switch, next: nat, v: nat, m: FlowMod, st: Started, t1: Switch, t: Switch)
    requires Runnable(s, next) && Recorded(s, next, v, m, st) && HeapScarred(st.s, t1, st.next)
    requires RevertShape(t1, t, SetOf(st.undo.olds), Dropped(m, st.undo))
    ensures HeapScarred(s, t, next)
  {
    var id: nat :| HeapScarAt(st.s, t1, st.next, id);
    LeavesAre(s, next, v, m, st);
    OldsAreRemoved(s, st.s, v, SetOf(st.undo.olds), SetOf(st.undo.news));
    if id in Dropped(m, st.undo) { assert t.evictable[id] == Less(t1.evictable[id], 1); }
    assert HeapScarAt(s, t, next, id);
  }

  lemma MsgHeapScarStays(s: Switch, next: nat, v: nat, msg: Msg, d: Done, t1: Switch)
    requires Runnable(s, next) && MsgReady(s, msg) && StartMsg(s, next, v, msg) == Ok(d)
    requires Covers(d.s, t1) && HeapScarred(d.s, t1, d.next)
    ensures MsgRevertible(t1, msg, d.undo) && HeapScarred(s, RevertMsg(t1, msg, d.undo), next)
  {
    match msg {
      case FlowMsg(m) =>
        var st := Start(s, next, v, m).value;
        StartRecorded(s, next, v, m);
        FlowFits(s, next, v, m, st, t1);
        RevertHasShape(t1, m, st.undo);
        FlowHeapScarStays(s, next, v, m, st, t1, Revert(t1, m, st.undo));
      case GroupMsg(g) =>
        var st := StartedGroup(s, next, v, g, d);
        GroupStartRunnable(s, next, v, g);
        GroupFits(s, next, v, g, t1);
        var id: nat :| HeapScarAt(d.s, t1, d.next, id);
        assert HeapScarAt(s, GroupRevert(t1, st.undo), next, id);
    }
  }

  lemma VictimScars(s: Switch, next: nat, v: nat, m: FlowMod, st: Started, t1: Switch, w: Id, left: map<Id, Content>)
    requires !m.Delete? && Recorded(s, next, v, m, st) && Echo(st.s, t1, v, left)
    requires st.undo == Undo([w], [next]) && w < next && IsInserted(s, w) && Evictable(s.tables, s.rules[w].c)
    requires w in st.s.rules && st.s.rules[w].evicted
    ensures Revertible(t1, m, st.undo) && HeapScarred(s, Revert(t1, m, st.undo), next)
  {
    EchoCovers(st.s, t1, v, left);
    StillRevertible(st.s, t1, m, st.undo);
    assert w in SetOf(st.undo.olds) && Unmarked(st.s.rules[w]).c == s.rules[w].c;
    RevertOfOne(t1, m, w, next);
    UnreplaceMarked(t1, w, next);
    assert HeapScarAt(s, Revert(t1, m, st.undo), next, w);
  }

  lemma EvictionIs(s: Switch, next: nat, v: nat, m: FlowMod, st: Started) returns (w: Id)
    requires Sound(s, next, v) && ModReady(s, m) && Start(s, next, v, m) == Ok(st) && Evicts(s, next, v, m)
    ensures !m.Delete? && st.undo == Undo([w], [next]) && w < next
    ensures IsInserted(s, w) && Evictable(s.tables, s.rules[w].c) && w in st.s.rules && st.s.rules[w].evicted
  {
    EvictedIs(s, next, v, m.c, m.Add?);
    w := st.undo.olds[0];
    assert st.undo.olds == [w];
  }

  lemma EvictionScarsHeap(s: Switch, next: nat, v: nat, m: FlowMod, st: Started, t1: Switch, left: map<Id, Content>)
    requires Sound(s, next, v) && ModReady(s, m) && Start(s, next, v, m) == Ok(st) && Evicts(s, next, v, m)
    requires Echo(st.s, t1, v, left)
    ensures Revertible(t1, m, st.undo) && HeapScarred(s, Revert(t1, m, st.undo), next)
  {
    var w := EvictionIs(s, next, v, m, st);
    StartRecorded(s, next, v, m);
    VictimScars(s, next, v, m, st, t1, w, left);
  }

  lemma EvictingMsgScars(s: Switch, next: nat, v: nat, m: FlowMod, d: Done, t1: Switch, left: map<Id, Content>)
    requires Sound(s, next, v) && ModReady(s, m) && StartMsg(s, next, v, FlowMsg(m)) == Ok(d) && Evicts(s, next, v, m)
    requires Echo(d.s, t1, v, left)
    ensures MsgRevertible(t1, FlowMsg(m), d.undo) && HeapScarred(s, RevertMsg(t1, FlowMsg(m), d.undo), next)
  {
    EvictionScarsHeap(s, next, v, m, Start(s, next, v, m).value, t1, left);
  }

  lemma {:induction false} EvictedScars(s: Switch, next: nat, v: nat, msgs: seq<Msg>, t: Switch)
    requires Sound(s, next, v) && AllReady(s, msgs) && !NoneEvicted(s, next, v, msgs) && Reverted(s, next, v, msgs, t)
    ensures HeapScarred(s, t, next)
    decreases |msgs|
  {
    assert MsgReady(s, msgs[0]);
    var d := StartMsg(s, next, v, msgs[0]).value;
    StartMsgKeepsSound(s, next, v, msgs[0]);
    StartMsgRunnable(s, next, v, msgs[0]);
    ReadyRest(s, d.s, msgs);
    var t1 := RevertAllEchoes(d.s, d.next, v, msgs[1..]);
    var left := Leftover(d.s, d.next, v, msgs[1..]);
    if NoneEvicted(d.s, d.next, v, msgs[1..]) {
      EvictingMsgScars(s, next, v, msgs[0].m, d, t1, left);
    } else {
      EvictedScars(d.s, d.next, v, msgs[1..], t1);
      EchoCovers(d.s, t1, v, left);
      MsgHeapScarStays(s, next, v, msgs[0], d, t1);
    }
    RevertedStep(s, next, v, msgs, d, t1);
  }

  lemma FailedEnd(s: Switch, next: nat, v: nat, msgs: seq<Msg>, t: Switch, end: nat) returns (r: Committed)
    requires Runnable(s, next) && AllReady(s, msgs) && v == s.version + 1 && Reverted(s, next, v, msgs, t) && Covers(s, t)
    requires BeginAll(s, next, v, msgs).error.Some? && end == BeginAll(s, next, v, msgs).next
    ensures Commit(s, next, msgs) == Some(r) && r.s == t && r.next == end && r.s.version == s.version && r.error.Some?
  {
    FailedIsReverted(s, next, msgs, t);
    r := Commit(s, next, msgs).value;
  }

  lemma FailedSoundIff(s: Switch, next: nat, v: nat, msgs: seq<Msg>) returns (r: Committed)
    requires Sound(s, next, v) && AllReady(s, msgs) && v == s.version + 1 && BeginAll(s, next, v, msgs).error.Some?
    ensures Commit(s, next, msgs) == Some(r) && r.s.version == s.version && r.error.Some?
    ensures Sound(r.s, r.next, v) <==> NoneEvicted(s, next, v, msgs)
  {
    var end := BeginAll(s, next, v, msgs).next;
    if NoneEvicted(s, next, v, msgs) {
      var t := RevertedKeepsSound(s, next, v, msgs, end);
      EchoCovers(s, t, v, Leftover(s, next, v, msgs));
      r := FailedEnd(s, next, v, msgs, t, end);
    } else {
      var t := RevertAllFits(s, next, v, msgs);
      EvictedScars(s, next, v, msgs, t);
      HeapScarIsSeen(s, t, next);
      r := FailedEnd(s, next, v, msgs, t, end);
    }
  }

  lemma SucceedingIsSound(s: Switch, next: nat, v: nat, msgs: seq<Msg>) returns (r: Committed)
    requires Sound(s, next, v) && AllReady(s, msgs) && v == s.version + 1 && BeginAll(s, next, v, msgs).error.None?
    ensures Commit(s, next, msgs) == Some(r) && r.error.None? && Sound(r.s, r.next, r.s.version + 1)
  {
    var b := BeginAll(s, next, v, msgs);
    CommitKeepsOrder(s, next, msgs);
    CommitConcludes(s, next, msgs, b);
    BeginKeepsSound(s, next, v, msgs);
    RulesAsBefore(b.s, b.s.(version := v));
    r := Commit(s, next, msgs).value;
  }

  /** It fails after an eviction. */
  ghost predicate FailsEvicting(s: Switch, next: nat, v: nat, msgs: seq<Msg>)
    requires Runnable(s, next) && AllReady(s, msgs)
  {
    BeginAll(s, next, v, msgs).error.Some? && !NoneEvicted(s, next, v, msgs)
  }

  lemma EndsSound(s: Switch, next: nat, v: nat, msgs: seq<Msg>) returns (r: Committed)
    requires Sound(s, next, v) && AllReady(s, msgs) && v == s.version + 1
    ensures Commit(s, next, msgs) == Some(r)
    ensures Sound(r.s, r.next, r.s.version + 1) <==> !FailsEvicting(s, next, v, msgs)
  {
    if BeginAll(s, next, v, msgs).error.None? {
      r := SucceedingIsSound(s, next, v, msgs);
    } else {
      r := FailedSoundIff(s, next, v, msgs);
    }
  }

  /** After any commit counters and heaps are exact if and only if it did not fail after an eviction. */
  lemma CommitSoundIff(s: Switch, next: nat, msgs: seq<Msg>)
    requires Sound(s, next, s.version + 1) && AllReady(s, msgs)
    ensures var r := Commit(s, next, msgs);
            r.Some? && (Sound(r.value.s, r.value.next, r.value.s.version + 1) <==> !FailsEvicting(s, next, s.version + 1, msgs))
  {
    var r := EndsSound(s, next, s.version + 1, msgs);
  }
}
