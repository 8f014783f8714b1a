/** Every state a switch can reach: bundles, postponed removals and evictions in any order. */
module FlowRuns {
  import opened FlowTable
  import opened FlowMod
  import opened FlowModRevert
  import opened FlowModInv
  import opened FlowSpec
  import opened FlowRefine
  import opened GroupMod
  import opened Bundle
  import opened FlowShape
  import opened FlowSound
  import opened BundleFailure
  import opened BundleKeeps
  import opened BundleGroups
  import opened BundleTidy

  // ---------- postponed removal ----------

  predicate Over(vs: Versions, version: nat) {
    vs.remove.Some? && vs.remove.value <= version
  }

  /** Rules and groups whose removal has been published may leave the classifier at any time. */
  ghost predicate Reclaimable(s: Switch, ids: set<Id>, gids: set<Id>) {
    && (forall id :: id in ids ==> id in s.rules && Over(s.rules[id].versions, s.version))
    && (forall g :: g in gids ==> g in s.groups && Over(s.groups[g].versions, s.version))
  }

  function Reclaim(s: Switch, ids: set<Id>, gids: set<Id>): Switch {
    s.(rules := s.rules - ids, groups := s.groups - gids)
  }

  /** Removing what no current version shows keeps everything in order and is not seen by any lookup of
      the published version or later. */
  lemma ReclaimUnseen(s: Switch, next: nat, ids: set<Id>, gids: set<Id>)
    requires Inv(s, next, s.version + 1) && Reclaimable(s, ids, gids)
    ensures var t := Reclaim(s, ids, gids);
            && Inv(t, next, s.version + 1)
            && forall w: nat :: w >= s.version ==> PlainAt(t, w) == PlainAt(s, w)
  {
    var t := Reclaim(s, ids, gids);
    var v := s.version + 1;
    InvIsSound(s, next, v);
    ReclaimKeepsSound(s, next, v, ids, gids);
    forall x: nat ensures Agrees(t, x) { assert Agrees(s, x) && Indexed(t, x) && Heaped(t, x); }
    ReclaimKeepsRules(s, next, v, ids, gids);
    ReclaimKeepsViews(s, ids, gids);
  }

  lemma ReclaimKeepsViews(s: Switch, ids: set<Id>, gids: set<Id>)
    requires Reclaimable(s, ids, gids)
    ensures forall w: nat :: w >= s.version ==> PlainAt(Reclaim(s, ids, gids), w) == PlainAt(s, w)
  {
    var t := Reclaim(s, ids, gids);
    forall w: nat | w >= s.version ensures PlainAt(t, w) == PlainAt(s, w) {
      assert forall id :: id in ids ==> !VisibleAt(s.rules[id].versions, w);
      assert forall g :: g in gids ==> !VisibleAt(s.groups[g].versions, w);
      assert ViewIds(t, w) == ViewIds(s, w);
      assert GroupIds(t, w) == GroupIds(s, w);
    }
  }

  lemma ReclaimKeepsRules(s: Switch, next: nat, v: nat, ids: set<Id>, gids: set<Id>)
    requires Inv(s, next, v) && Reclaimable(s, ids, gids)
    ensures RulesOk(Reclaim(s, ids, gids), v)
  {
    var t := Reclaim(s, ids, gids);
    forall gid | GroupKnown(s, gid) ensures GroupKnown(t, gid) {
      var g :| g in s.groups && s.groups[g].gid == gid && s.groups[g].versions.remove.None?;
      assert g in t.groups;
    }
    forall id | id in t.rules && t.rules[id].state.Inserted? ensures ActionsOk(t, t.rules[id].c.actions) {
      assert ActionsOk(s, s.rules[id].c.actions);
    }
  }

  lemma ReclaimKeepsOrder(s: Switch, next: nat, v: nat, ids: set<Id>, gids: set<Id>)
    requires Orderly(s, next, v) && Reclaimable(s, ids, gids)
    ensures Orderly(Reclaim(s, ids, gids), next, v)
  {
    var t := Reclaim(s, ids, gids);
    forall id: nat ensures Indexed(t, id) { assert Indexed(s, id); }
    forall k | 0 <= k < |t.nGroups| ensures t.nGroups[k] == |OfKind(t, k)| { assert OfKind(t, k) == OfKind(s, k); }
  }

  lemma ReclaimKeepsSound(s: Switch, next: nat, v: nat, ids: set<Id>, gids: set<Id>)
    requires Sound(s, next, v) && Reclaimable(s, ids, gids)
    ensures Sound(Reclaim(s, ids, gids), next, v)
  {
    var t := Reclaim(s, ids, gids);
    ReclaimKeepsOrder(s, next, v, ids, gids);
    forall id: nat ensures Heaped(t, id) { assert Heaped(s, id) && Indexed(s, id); }
    forall k | 0 <= k < |t.nFlows| ensures t.nFlows[k] == |InTable(t, k)| {
      forall id | id in s.rules && s.rules[id].state.Inserted? ensures id in t.rules { assert Indexed(s, id); }
      assert InTable(t, k) == InTable(s, k);
    }
  }

  // ---------- occupancy ----------

  /** An add never pushes a table's count above its limit, or above what it was. */
  lemma AddOccupancy(s: Switch, next: nat, v: nat, c: Content, isAdd: bool)
    requires Inv(s, next, v) && c.key.table < |s.tables| && AddStart(s, next, v, c, isAdd).Ok?
    ensures var t, k := AddStart(s, next, v, c, isAdd).value.s, c.key.table;
            && (t.nFlows[k] <= s.nFlows[k] || t.nFlows[k] <= s.tables[k].maxFlows)
            && t.nFlows[k] == |InTable(t, k)|
            && forall j :: 0 <= j < |s.nFlows| && j != k ==> t.nFlows[j] == s.nFlows[j]
  {
    AddFaithful(s, next, v, c, isAdd);
  }

  /** The rules `evict_rules_from_table` picks, at most `n`. */
  ghost function PickVictims(s: Switch, t: nat, n: nat): seq<Id>
    requires t < |s.tables|
    decreases n
  {
    if n == 0 then [] else
      match Victim(s, t)
      case None => []
      case Some(w) => [w] + PickVictims(s.(evictable := s.evictable - multiset{w}), t, n - 1)
  }

  ghost function Excess(s: Switch, t: nat): nat
    requires t < |s.tables| && t < |s.nFlows|
  {
    if s.nFlows[t] <= s.tables[t].maxFlows then 0 else s.nFlows[t] - s.tables[t].maxFlows
  }

  /** The picks, each an inserted rule of the table, none twice; too few only when no candidate is left. */
  lemma {:induction false} PicksAreVictims(s: Switch, e: multiset<Id>, t: nat, n: nat)
    requires t < |s.tables| && e <= s.evictable && forall id: nat :: Heaped(s, id)
    ensures GoodPicks(s, e, t, n, PickVictims(s.(evictable := e), t, n))
    decreases n
  {
    var u := s.(evictable := e);
    if n > 0 && Victim(u, t).Some? {
      var w := Victim(u, t).value;
      assert Heaped(s, w);
      var e' := e - multiset{w};
      assert u.(evictable := u.evictable - multiset{w}) == s.(evictable := e');
      PicksAreVictims(s, e', t, n - 1);
      OneMorePick(s, e, t, n, w, PickVictims(s.(evictable := e'), t, n - 1));
    } else if n > 0 {
      NoneToPick(s, e, t);
    }
  }

  lemma NoneToPick(s: Switch, e: multiset<Id>, t: nat)
    requires t < |s.tables| && e <= s.evictable && forall id: nat :: Heaped(s, id)
    requires Victim(s.(evictable := e), t).None?
    ensures forall id: nat :: !CanBeVictim(s.(evictable := e), t, id)
  {
    if !s.tables[t].eviction {
      forall id: nat ensures !CanBeVictim(s.(evictable := e), t, id) { assert Heaped(s, id); }
    }
  }

  ghost predicate GoodPicks(s: Switch, e: multiset<Id>, t: nat, n: nat, ps: seq<Id>)
    requires t < |s.tables|
  {
    && |ps| <= n
    && (forall i :: 0 <= i < |ps| ==> IsInserted(s, ps[i]) && s.rules[ps[i]].c.key.table == t && e[ps[i]] > 0)
    && (forall i, j :: 0 <= i < j < |ps| ==> ps[i] != ps[j])
    && (|ps| < n ==> forall id :: CanBeVictim(s.(evictable := e), t, id) ==> id in ps)
  }

  lemma OneMorePick(s: Switch, e: multiset<Id>, t: nat, n: nat, w: Id, rest: seq<Id>)
    requires t < |s.tables| && n > 0 && IsInserted(s, w) && s.rules[w].c.key.table == t && e[w] > 0
    requires GoodPicks(s, e - multiset{w}, t, n - 1, rest) && e[w] == 1
    ensures GoodPicks(s, e, t, n, [w] + rest)
  {
    var e' := e - multiset{w};
    if |rest| < n - 1 {
      forall id | CanBeVictim(s.(evictable := e), t, id) ensures id in [w] + rest {
        if id != w { assert CanBeVictim(s.(evictable := e'), t, id); }
      }
    }
  }

  datatype Evicted = Evicted(s: Switch, full: bool)

  lemma {:induction false} PicksAreRules(s: Switch, t: nat, n: nat)
    requires t < |s.tables| && TablesInRange(s)
    ensures AllIn(s, PickVictims(s, t, n))
    decreases n
  {
    if n > 0 && Victim(s, t).Some? {
      var w := Victim(s, t).value;
      assert CanBeVictim(s, t, w);
      PicksAreRules(s.(evictable := s.evictable - multiset{w}), t, n - 1);
    }
  }

  /** `evict_rules_from_table`. The picked rules are deleted in a new, published version. */
  ghost function EvictTable(s: Switch, t: nat): Evicted
    requires t < |s.tables| && TablesInRange(s)
  {
    PicksAreRules(s, t, Excess(s, t));
    var ps := PickVictims(s, t, Excess(s, t));
    Evicted(if ps == [] then s else DeleteAll(s, s.version + 1, ps).(version := s.version + 1),
            |ps| < Excess(s, t))
  }

  lemma {:induction false} DeleteAllCount(s: Switch, v: nat, ids: seq<Id>, t: nat)
    requires AllIn(s, ids) && t < |s.nFlows| && forall i :: 0 <= i < |ids| ==> s.rules[ids[i]].c.key.table == t
    ensures |DeleteAll(s, v, ids).nFlows| == |s.nFlows| && DeleteAll(s, v, ids).nFlows[t] == s.nFlows[t] - |ids|
    decreases |ids|
  {
    if ids != [] { DeleteAllCount(DeleteOne(s, v, ids[0]), v, ids[1..], t); }
  }

  /** Rules have gone, with the new version, only from the table, and only ones that could be evicted. */
  ghost predicate OnlyVictims(s: Switch, u: Switch, t: nat) {
    && u.rules.Keys == s.rules.Keys
    && forall id :: id in s.rules ==>
         u.rules[id] == s.rules[id] || (CanBeVictim(s, t, id) && u.rules[id] == Gone(s.rules[id], s.version + 1))
  }

  /** What an eviction from table `t` achieves, with no more than is needed. */
  ghost predicate MakesRoom(s: Switch, next: nat, t: nat, r: Evicted)
    requires t < |s.tables| && t < |s.nFlows|
  {
    && Inv(r.s, next, r.s.version + 1)
    && |r.s.nFlows| == |s.nFlows|
    && (!r.full ==> r.s.nFlows[t] <= s.tables[t].maxFlows)
    && (r.full ==> forall id :: !CanBeVictim(r.s, t, id))
    && (r.full <==> r.s.nFlows[t] > s.tables[t].maxFlows)
    && (r.s.nFlows[t] < s.nFlows[t] ==> r.s.nFlows[t] >= s.tables[t].maxFlows)
    && OnlyVictims(s, r.s, t)
  }

  /** After an eviction the table is within its limit, or it is reported full and every rule left in it is one that
      cannot be evicted. */
  lemma EvictionMakesRoom(s: Switch, next: nat, t: nat)
    requires Inv(s, next, s.version + 1) && t < |s.tables|
    ensures MakesRoom(s, next, t, EvictTable(s, t))
  {
    var v := s.version + 1;
    var ps := Picked(s, next, v, t, Excess(s, t));
    EvictTableIs(s, t, v, ps);
    if ps != [] { EvictedMakesRoom(s, next, v, t, ps); } else { NothingEvicted(s, next, t); }
  }

  lemma EvictTableIs(s: Switch, t: nat, v: nat, ps: seq<Id>)
    requires t < |s.tables| && TablesInRange(s) && v == s.version + 1 && ps == PickVictims(s, t, Excess(s, t)) && AllIn(s, ps)
    ensures EvictTable(s, t) == Evicted(if ps == [] then s else DeleteAll(s, v, ps).(version := v), |ps| < Excess(s, t))
  {
  }

  lemma NothingEvicted(s: Switch, next: nat, t: nat)
    requires Inv(s, next, s.version + 1) && t < |s.tables|
    requires Excess(s, t) > 0 ==> forall id :: !CanBeVictim(s, t, id)
    ensures MakesRoom(s, next, t, Evicted(s, 0 < Excess(s, t)))
  {
  }

  lemma EvictedMakesRoom(s: Switch, next: nat, v: nat, t: nat, ps: seq<Id>)
    requires Inv(s, next, v) && v == s.version + 1 && t < |s.tables| && AllIn(s, ps) && InsertedAll(s, ps)
    requires GoodPicks(s, s.evictable, t, Excess(s, t), ps)
    requires |ps| < Excess(s, t) ==> forall id :: CanBeVictim(s, t, id) ==> id in ps
    ensures MakesRoom(s, next, t, Evicted(DeleteAll(s, v, ps).(version := v), |ps| < Excess(s, t)))
  {
    var d := DeleteAll(s, v, ps);
    EvictedInOrder(s, next, v, t, ps);
    if |ps| < Excess(s, t) { NoCandidateLeft(s, next, d, v, ps, t); }
    PickedAreGone(s, v, t, ps);
    RoomMade(s, next, v, t, |ps|, d.(version := v));
  }

  lemma PickedAreGone(s: Switch, v: nat, t: nat, ps: seq<Id>)
    requires v == s.version + 1 && t < |s.tables| && t < |s.nFlows| && AllIn(s, ps) && GoodPicks(s, s.evictable, t, Excess(s, t), ps)
    ensures OnlyVictims(s, DeleteAll(s, v, ps).(version := v), t)
  {
    DeleteAllLeaves(s, v, ps);
    var u := DeleteAll(s, v, ps).(version := v);
    forall id | id in s.rules
      ensures u.rules[id] == s.rules[id] || (CanBeVictim(s, t, id) && u.rules[id] == Gone(s.rules[id], v))
    {
      if id in ps {
        var i :| 0 <= i < |ps| && ps[i] == id;
        assert IsInserted(s, ps[i]);
      }
    }
  }

  lemma RoomMade(s: Switch, next: nat, v: nat, t: nat, n: nat, u: Switch)
    requires u.version == v && Inv(u, next, v + 1) && t < |s.tables| && |s.nFlows| == |u.nFlows| == |s.tables|
    requires u.nFlows[t] == s.nFlows[t] - n && n <= Excess(s, t)
    requires n < Excess(s, t) ==> forall id :: !CanBeVictim(u, t, id)
    requires OnlyVictims(s, u, t)
    ensures MakesRoom(s, next, t, Evicted(u, n < Excess(s, t)))
  {
  }

  lemma Picked(s: Switch, next: nat, v: nat, t: nat, n: nat) returns (ps: seq<Id>)
    requires Inv(s, next, v) && t < |s.tables|
    ensures ps == PickVictims(s, t, n) && GoodPicks(s, s.evictable, t, n, ps) && InsertedAll(s, ps) && AllIn(s, ps)
    ensures |ps| < n ==> forall id :: CanBeVictim(s, t, id) ==> id in ps
  {
    InvIsSound(s, next, v);
    PicksAreVictims(s, s.evictable, t, n);
    assert s.(evictable := s.evictable) == s;
    ps := PickVictims(s, t, n);
  }

  lemma EvictedInOrder(s: Switch, next: nat, v: nat, t: nat, ps: seq<Id>)
    requires Inv(s, next, v) && t < |s.tables| && InsertedAll(s, ps) && AllIn(s, ps)
    requires forall i :: 0 <= i < |ps| ==> s.rules[ps[i]].c.key.table == t
    ensures var d := DeleteAll(s, v, ps);
            && Inv(d, next, v) && Inv(d.(version := v), next, v + 1)
            && |d.nFlows| == |s.nFlows| && d.nFlows[t] == s.nFlows[t] - |ps|
  {
    DeleteAllFaithful(s, next, v, ps);
    DeleteAllCount(s, v, ps, t);
    Republished(DeleteAll(s, v, ps), next, v, v);
    InvLater(DeleteAll(s, v, ps).(version := v), next, v);
  }

  lemma NoCandidateLeft(s: Switch, next: nat, d: Switch, v: nat, ps: seq<Id>, t: nat)
    requires Inv(s, next, v) && AllIn(s, ps) && d == DeleteAll(s, v, ps) && Inv(d, next, v) && t < |s.tables|
    requires forall id :: CanBeVictim(s, t, id) ==> id in ps
    ensures forall id :: !CanBeVictim(d.(version := v), t, id)
  {
    DeleteAllLeaves(s, v, ps);
    forall id: nat ensures !CanBeVictim(d.(version := v), t, id) {
      assert Agrees(d, id) && Agrees(s, id);
    }
  }

  /** Deleted rules are removed, the others untouched. */
  lemma {:induction false} DeleteAllLeaves(s: Switch, v: nat, ids: seq<Id>)
    requires AllIn(s, ids)
    ensures var d := DeleteAll(s, v, ids);
            && d.rules.Keys == s.rules.Keys && d.tables == s.tables
            && (forall id :: id in s.rules && id in ids ==> d.rules[id] == Gone(s.rules[id], v))
            && (forall id :: id in s.rules && id !in ids ==> d.rules[id] == s.rules[id])
            && (forall id :: id in s.rules ==> d.rules[id].c == s.rules[id].c)
            && (forall id :: id in s.rules && s.rules[id].state.Removed? ==> d.rules[id].state.Removed?)
    decreases |ids|
  {
    if ids != [] { DeleteAllLeaves(DeleteOne(s, v, ids[0]), v, ids[1..]); }
  }

  lemma {:induction false} DeleteAllKeepsOrder(s: Switch, next: nat, v: nat, ids: seq<Id>)
    requires AllIn(s, ids) && Orderly(s, next, v)
    ensures Orderly(DeleteAll(s, v, ids), next, v)
    decreases |ids|
  {
    if ids != [] {
      DeleteOneKeepsOrder(s, next, v, ids[0]);
      DeleteOneShape(s, v, ids[0]);
      DeleteAllKeepsOrder(DeleteOne(s, v, ids[0]), next, v, ids[1..]);
    }
  }

  lemma DeleteOneKeepsOrder(s: Switch, next: nat, v: nat, id: Id)
    requires Orderly(s, next, v) && id in s.rules && s.rules[id].c.key.table < |s.nFlows|
    ensures Orderly(DeleteOne(s, v, id), next, v)
  {
    var t := DeleteOne(s, v, id);
    DeleteOneShape(s, v, id);
    StartKeepsDates(s, t, v, {id}, {});
    StartKeepsVacant(s, t, next, next, {id}, {});
    SameGroups(s, t, next, next, v);
  }

  lemma EvictKeepsOrder(s: Switch, next: nat, t: nat)
    requires Orderly(s, next, s.version + 1) && t < |s.tables|
    ensures var r := EvictTable(s, t).s; Orderly(r, next, r.version + 1)
  {
    var v := s.version + 1;
    var ps := PickVictims(s, t, Excess(s, t));
    PicksAreRules(s, t, Excess(s, t));
    if ps != [] {
      DeleteAllKeepsOrder(s, next, v, ps);
      OrderlyLater(DeleteAll(s, v, ps), next, v, next, v + 1);
      PublishKeepsOrder(DeleteAll(s, v, ps), next, v + 1, v);
    }
  }

  lemma EvictKeepsSound(s: Switch, next: nat, t: nat)
    requires Sound(s, next, s.version + 1) && t < |s.tables|
    ensures var r := EvictTable(s, t).s; Sound(r, next, r.version + 1)
  {
    var n := Excess(s, t);
    EvictKeepsOrder(s, next, t);
    PicksAreVictims(s, s.evictable, t, n);
    PicksAreRules(s, t, n);
    assert s.(evictable := s.evictable) == s;
    var ps := PickVictims(s, t, n);
    if ps != [] { PickedKeepsSound(s, s.version + 1, ps); }
  }

  lemma PickedKeepsSound(s: Switch, v: nat, ps: seq<Id>)
    requires (forall id: nat :: Heaped(s, id)) && CountsOk(s) && AllIn(s, ps) && InsertedAll(s, ps)
    ensures var d := DeleteAll(s, v, ps).(version := v); (forall id: nat :: Heaped(d, id)) && CountsOk(d)
  {
    var d := DeleteAll(s, v, ps);
    DeleteAllShape(s, v, ps, d);
    StartKeepsHeap(s, d, v, SetOf(ps), {});
    DeleteAllKeepsCounts(s, v, ps);
    RulesAsBefore(d, d.(version := v));
  }

  // ---------- runs ----------

  datatype Op = OpBundle(msgs: seq<Msg>) | OpReclaim(ids: set<Id>, gids: set<Id>) | OpEvict(table: nat)

  datatype World = World(s: Switch, next: nat)

  ghost predicate Steady(w: World) {
    Orderly(w.s, w.next, w.s.version + 1)
  }

  ghost predicate OpReady(w: World, op: Op) {
    match op
    case OpBundle(msgs) => AllReady(w.s, msgs)
    case OpReclaim(ids, gids) => Reclaimable(w.s, ids, gids)
    case OpEvict(t) => t < |w.s.tables|
  }

  ghost function Apply(w: World, op: Op): (w': World)
    requires Steady(w) && OpReady(w, op)
    ensures Steady(w')
  {
    match op
    case OpBundle(msgs) =>
      CommitKeepsOrder(w.s, w.next, msgs);
      var r := Commit(w.s, w.next, msgs).value;
      World(r.s, r.next)
    case OpReclaim(ids, gids) =>
      ReclaimKeepsOrder(w.s, w.next, w.s.version + 1, ids, gids);
      World(Reclaim(w.s, ids, gids), w.next)
    case OpEvict(t) =>
      EvictKeepsOrder(w.s, w.next, t);
      World(EvictTable(w.s, t).s, w.next)
  }

  ghost predicate RunReady(w: World, ops: seq<Op>)
    requires Steady(w)
    decreases |ops|
  {
    ops == [] || (OpReady(w, ops[0]) && RunReady(Apply(w, ops[0]), ops[1..]))
  }

  ghost function Run(w: World, ops: seq<Op>): (w': World)
    requires Steady(w) && RunReady(w, ops)
    ensures Steady(w')
    decreases |ops|
  {
    if ops == [] then w else Run(Apply(w, ops[0]), ops[1..])
  }

  // ---------- runs in which no bundle fails that has evicted ----------

  ghost predicate Sparing(w: World, op: Op)
    requires Steady(w) && OpReady(w, op)
  {
    op.OpBundle? ==> !FailsEvicting(w.s, w.next, w.s.version + 1, op.msgs)
  }

  ghost predicate SparingRun(w: World, ops: seq<Op>)
    requires Steady(w) && RunReady(w, ops)
    decreases |ops|
  {
    ops == [] || (Sparing(w, ops[0]) && SparingRun(Apply(w, ops[0]), ops[1..]))
  }

  ghost predicate Exact(w: World) {
    Sound(w.s, w.next, w.s.version + 1)
  }

  lemma AppliesTo(w: World, msgs: seq<Msg>, r: Committed)
    requires Steady(w) && AllReady(w.s, msgs) && Commit(w.s, w.next, msgs) == Some(r)
    ensures Apply(w, OpBundle(msgs)) == World(r.s, r.next)
  {
  }

  lemma BundleKeepsExact(w: World, msgs: seq<Msg>)
    requires Steady(w) && Exact(w) && OpReady(w, OpBundle(msgs)) && Sparing(w, OpBundle(msgs))
    ensures Exact(Apply(w, OpBundle(msgs)))
  {
    var r := EndsSound(w.s, w.next, w.s.version + 1, msgs);
    AppliesTo(w, msgs, r);
  }

  lemma ApplyKeepsExact(w: World, op: Op)
    requires Steady(w) && Exact(w) && OpReady(w, op) && Sparing(w, op)
    ensures Exact(Apply(w, op))
  {
    match op {
      case OpBundle(msgs) => BundleKeepsExact(w, msgs);
      case OpReclaim(ids, gids) => ReclaimKeepsSound(w.s, w.next, w.s.version + 1, ids, gids);
      case OpEvict(t) => EvictKeepsSound(w.s, w.next, t);
    }
  }

  lemma {:induction false} RunKeepsExact(w: World, ops: seq<Op>)
    requires Steady(w) && Exact(w) && RunReady(w, ops) && SparingRun(w, ops)
    ensures Exact(Run(w, ops))
    decreases |ops|
  {
    if ops != [] {
      ApplyKeepsExact(w, ops[0]);
      RunKeepsExact(Apply(w, ops[0]), ops[1..]);
    }
  }

  // ---------- runs in which bundles that fail are tidy ----------

  ghost predicate Tidying(w: World, op: Op)
    requires Steady(w) && OpReady(w, op)
  {
    op.OpBundle? ==> !FailsUntidily(w.s, w.next, w.s.version + 1, op.msgs)
  }

  /** Every bundle that fails has evicted nothing, and leaves behind only rules that have keys of their own and name
      known groups. */
  ghost predicate TidyRun(w: World, ops: seq<Op>)
    requires Steady(w) && RunReady(w, ops)
    decreases |ops|
  {
    ops == [] || (Tidying(w, ops[0]) && TidyRun(Apply(w, ops[0]), ops[1..]))
  }

  ghost predicate Good(w: World) {
    Inv(w.s, w.next, w.s.version + 1)
  }

  lemma GoodIsSteady(w: World)
    requires Good(w)
    ensures Steady(w) && Exact(w)
  {
    InvIsSound(w.s, w.next, w.s.version + 1);
  }

  lemma GoodAfter(s: Switch, next: nat, v: nat, msgs: seq<Msg>) returns (w: World)
    requires Inv(s, next, v) && v == s.version + 1 && AllReady(s, msgs) && !FailsUntidily(s, next, v, msgs)
    ensures Good(w) && Commit(s, next, msgs).Some? && w == World(Commit(s, next, msgs).value.s, Commit(s, next, msgs).value.next)
  {
    var r := EndsWhole(s, next, v, msgs);
    w := World(r.s, r.next);
  }

  lemma BundleKeepsGood(w: World, msgs: seq<Msg>)
    requires Good(w) && Steady(w) && OpReady(w, OpBundle(msgs)) && Tidying(w, OpBundle(msgs))
    ensures Good(Apply(w, OpBundle(msgs)))
  {
    var w' := GoodAfter(w.s, w.next, w.s.version + 1, msgs);
    AppliesTo(w, msgs, Commit(w.s, w.next, msgs).value);
  }

  lemma EvictKeepsGood(w: World, t: nat)
    requires Good(w) && t < |w.s.tables|
    ensures Good(World(EvictTable(w.s, t).s, w.next))
  {
    EvictionMakesRoom(w.s, w.next, t);
  }

  lemma ReclaimKeepsGood(w: World, ids: set<Id>, gids: set<Id>)
    requires Good(w) && Reclaimable(w.s, ids, gids)
    ensures Good(World(Reclaim(w.s, ids, gids), w.next))
  {
    ReclaimUnseen(w.s, w.next, ids, gids);
  }

  lemma ApplyKeepsGood(w: World, op: Op)
    requires Good(w) && Steady(w) && OpReady(w, op) && Tidying(w, op)
    ensures Good(Apply(w, op))
  {
    match op {
      case OpBundle(msgs) => BundleKeepsGood(w, msgs);
      case OpReclaim(ids, gids) => ReclaimKeepsGood(w, ids, gids);
      case OpEvict(t) => EvictKeepsGood(w, t);
    }
  }

  lemma {:induction false} RunKeepsGood(w: World, ops: seq<Op>)
    requires Good(w) && Steady(w) && RunReady(w, ops) && TidyRun(w, ops)
    ensures Good(Run(w, ops))
    decreases |ops|
  {
    if ops != [] {
      ApplyKeepsGood(w, ops[0]);
      RunKeepsGood(Apply(w, ops[0]), ops[1..]);
    }
  }

  // ---------- reachable states ----------

  function Fresh(tables: seq<TableConfig>, maxGroups: seq<nat>): Switch {
    Switch(map[], {}, multiset{}, seq(|tables|, _ => 0), map[], seq(|maxGroups|, _ => 0), tables, maxGroups, 0)
  }

  lemma FreshIsGood(tables: seq<TableConfig>, maxGroups: seq<nat>)
    ensures Good(World(Fresh(tables, maxGroups), 0))
  {
    var s := Fresh(tables, maxGroups);
    forall k | 0 <= k < |s.nFlows| ensures s.nFlows[k] == |InTable(s, k)| { assert InTable(s, k) == {}; }
    forall k | 0 <= k < |s.nGroups| ensures s.nGroups[k] == |OfKind(s, k)| { assert OfKind(s, k) == {}; }
  }

  ghost function Powered(tables: seq<TableConfig>, maxGroups: seq<nat>): (w: World)
    ensures Steady(w)
  {
    FreshIsGood(tables, maxGroups);
    GoodIsSteady(World(Fresh(tables, maxGroups), 0));
    World(Fresh(tables, maxGroups), 0)
  }

  /** The rules of table `t` that lookups in version `v` see. */
  ghost function ShownIn(s: Switch, v: nat, t: nat): set<Id> {
    set id | id in ViewIds(s, v) && s.rules[id].c.key.table == t
  }

  /** The cookie index holds exactly the inserted rules; these are the ones that the next version would show; each
      group counter is the number of its kind's current groups; and no version shows two groups with one number. */
  ghost predicate Ordered(s: Switch, i: Id, g: Id, h: Id, w: nat, k: nat) {
    && (i in s.cookies <==> IsInserted(s, i))
    && (i in ViewIds(s, s.version + 1) <==> IsInserted(s, i))
    && (k < |s.nGroups| ==> s.nGroups[k] == |OfKind(s, k)|)
    && (g in GroupIds(s, w) && h in GroupIds(s, w) && s.groups[g].gid == s.groups[h].gid ==> g == h)
  }

  lemma OrderlyMeans(s: Switch, next: nat, v: nat, i: Id, g: Id, h: Id, w: nat, k: nat)
    requires Orderly(s, next, v) && v == s.version + 1
    ensures Ordered(s, i, g, h, w, k)
  {
    assert Indexed(s, i);
    if i in s.rules { assert Timely(s.rules[i].versions, v); }
    if g in GroupIds(s, w) && h in GroupIds(s, w) {
      assert VisibleAt(s.groups[g].versions, w) && VisibleAt(s.groups[h].versions, w);
    }
  }

  /** Index, views and groups are in order in every reachable state, whatever bundles have failed. */
  lemma ReachableAnyhow(tables: seq<TableConfig>, maxGroups: seq<nat>, ops: seq<Op>, i: Id, g: Id, h: Id, w: nat, k: nat)
    requires RunReady(Powered(tables, maxGroups), ops)
    ensures Ordered(Run(Powered(tables, maxGroups), ops).s, i, g, h, w, k)
  {
    var r := Run(Powered(tables, maxGroups), ops);
    OrderlyMeans(r.s, r.next, r.s.version + 1, i, g, h, w, k);
  }

  /** The counter of table `t` is the number of its rules that the next version would show, and the eviction heap
      holds rule `i` once if it is inserted and can be evicted, and else not at all. */
  ghost predicate Tallied(s: Switch, i: Id, t: nat) {
    && (t < |s.nFlows| ==> s.nFlows[t] == |ShownIn(s, s.version + 1, t)|)
    && s.evictable[i] == if IsInserted(s, i) && Evictable(s.tables, s.rules[i].c) then 1 else 0
  }

  /** If no bundle has failed after an eviction, counters and heaps are exact, too. */
  lemma ReachableSparing(tables: seq<TableConfig>, maxGroups: seq<nat>, ops: seq<Op>, i: Id, t: nat)
    requires RunReady(Powered(tables, maxGroups), ops) && SparingRun(Powered(tables, maxGroups), ops)
    ensures Tallied(Run(Powered(tables, maxGroups), ops).s, i, t)
  {
    FreshIsGood(tables, maxGroups);
    GoodIsSteady(Powered(tables, maxGroups));
    RunKeepsExact(Powered(tables, maxGroups), ops);
    ExactMeans(Run(Powered(tables, maxGroups), ops), i, t);
  }

  lemma ExactMeans(w: World, i: Id, t: nat)
    requires Exact(w)
    ensures Tallied(w.s, i, t)
  {
    assert Heaped(w.s, i);
    InsertedAreShown(w.s, w.s.version + 1, t);
  }

  lemma InsertedAreShown(s: Switch, v: nat, t: nat)
    requires Dated(s, v)
    ensures InTable(s, t) == ShownIn(s, v, t)
  {
    forall id | id in s.rules ensures VisibleAt(s.rules[id].versions, v) <==> s.rules[id].state.Inserted? {
      assert Indexed(s, id) && Timely(s.rules[id].versions, v);
    }
  }

  /** At most one rule with a given table, pattern and priority is visible in a version; each table's count is the
      number of its inserted rules, which are those the next version would show; inserted rules name current groups
      only; and each current group lists exactly the rules that refer to it. */
  ghost predicate Whole(s: Switch, i: Id, j: Id, w: nat, t: nat, gid: GroupId) {
    && (i in ViewIds(s, w) && j in ViewIds(s, w) && s.rules[i].c.key == s.rules[j].c.key ==> i == j)
    && (t < |s.nFlows| ==> s.nFlows[t] == |InTable(s, t)| && InTable(s, t) == ShownIn(s, s.version + 1, t))
    && (IsInserted(s, j) && gid in s.rules[j].c.actions.groups ==> GroupKnown(s, gid))
    && (i in s.groups && s.groups[i].versions.remove.None? ==>
          s.groups[i].members[j] == if IsInserted(s, j) then GroupsOf(s.rules[j].c)[s.groups[i].gid] else 0)
  }

  lemma PoweredStaysGood(tables: seq<TableConfig>, maxGroups: seq<nat>, ops: seq<Op>) returns (w: World)
    requires RunReady(Powered(tables, maxGroups), ops) && TidyRun(Powered(tables, maxGroups), ops)
    ensures w == Run(Powered(tables, maxGroups), ops) && Good(w)
  {
    FreshIsGood(tables, maxGroups);
    RunKeepsGood(Powered(tables, maxGroups), ops);
    w := Run(Powered(tables, maxGroups), ops);
  }

  /** If every bundle that has failed was tidy, keys, counts, group actions and the groups' lists are all in order. */
  lemma ReachableTidily(tables: seq<TableConfig>, maxGroups: seq<nat>, ops: seq<Op>, i: Id, j: Id, w: nat, t: nat, gid: GroupId)
    requires RunReady(Powered(tables, maxGroups), ops) && TidyRun(Powered(tables, maxGroups), ops)
    ensures Whole(Run(Powered(tables, maxGroups), ops).s, i, j, w, t, gid)
  {
    var r := PoweredStaysGood(tables, maxGroups, ops);
    GoodMeans(r.s, r.next, r.s.version + 1, i, j, w, t, gid);
  }

  lemma GoodMeans(s: Switch, next: nat, v: nat, i: Id, j: Id, w: nat, t: nat, gid: GroupId)
    requires Inv(s, next, v) && v == s.version + 1
    ensures Whole(s, i, j, w, t, gid)
  {
    NewestView(s, next, v);
    assert Agrees(s, j);
    if i in ViewIds(s, w) && j in ViewIds(s, w) { VisibleContentsDiffer(s, w, j); }
  }

  /** The code finds every group it looks up, in the starts of the bundle and in its reverts. */
  ghost predicate FindsNext(w: World, msgs: seq<Msg>)
    requires Steady(w) && AllReady(w.s, msgs)
  {
    FindsGroups(w.s, w.next, w.s.version + 1, msgs)
  }

  lemma GoodFindsGroups(w: World, msgs: seq<Msg>)
    requires Good(w) && Steady(w) && AllReady(w.s, msgs)
    ensures FindsNext(w, msgs)
  {
    InvInParts(w.s, w.next, w.s.version + 1);
    BundleFindsGroups(w.s, w.next, w.s.version + 1, msgs);
  }

  /** In such a state no group is missing, whatever bundle comes next. */
  lemma ReachableFindsGroups(tables: seq<TableConfig>, maxGroups: seq<nat>, ops: seq<Op>, msgs: seq<Msg>)
    requires RunReady(Powered(tables, maxGroups), ops) && TidyRun(Powered(tables, maxGroups), ops)
    requires AllReady(Run(Powered(tables, maxGroups), ops).s, msgs)
    ensures FindsNext(Run(Powered(tables, maxGroups), ops), msgs)
  {
    var w := PoweredStaysGood(tables, maxGroups, ops);
    GoodFindsGroups(w, msgs);
  }
}
