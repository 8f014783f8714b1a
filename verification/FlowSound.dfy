/** What starts and reverts keep of the indexes and counters, even where a revert does not undo its start. */
module FlowSound {
  import opened FlowTable
  import opened FlowMod
  import opened FlowModRevert
  import opened FlowModInv
  import opened FlowRefine
  import opened FlowShape

  /** No rule is dated after version `v`, and the cookie index holds just the inserted rules, those no version ends. */
  ghost predicate Dated(s: Switch, v: nat) {
    && (forall id: nat :: Indexed(s, id))
    && (forall id :: id in s.rules ==> Timely(s.rules[id].versions, v))
  }

  /** No heap holds an identity from `next` on. */
  ghost predicate Vacant(s: Switch, next: nat) {
    forall id: nat :: id >= next ==> s.evictable[id] == 0
  }

  /** What every start and every revert keeps. */
  ghost predicate Orderly(s: Switch, next: nat, v: nat) {
    Runnable(s, next) && Dated(s, v) && GroupsOk(s, next, v) && Vacant(s, next)
  }

  /** Heaps and counters are exact, too. */
  ghost predicate Sound(s: Switch, next: nat, v: nat) {
    Orderly(s, next, v) && (forall id: nat :: Heaped(s, id)) && CountsOk(s)
  }

  lemma InvIsSound(s: Switch, next: nat, v: nat)
    requires Inv(s, next, v)
    ensures Sound(s, next, v)
  {
    forall id: nat ensures Indexed(s, id) && Heaped(s, id) { assert Agrees(s, id); }
    forall id: nat | id >= next ensures s.evictable[id] == 0 { assert Agrees(s, id) && id !in s.rules; }
  }

  lemma OrderlyLater(s: Switch, next: nat, v: nat, next': nat, v': nat)
    requires Orderly(s, next, v) && next <= next' && v <= v'
    ensures Orderly(s, next', v')
  {
    forall id | id in s.rules ensures Timely(s.rules[id].versions, v') { assert Timely(s.rules[id].versions, v); }
    forall g | g in s.groups ensures Timely(s.groups[g].versions, v') { assert Timely(s.groups[g].versions, v); }
  }

  // ---------- the cookie index and the dates ----------

  lemma StartKeepsDates(s: Switch, t: Switch, v: nat, olds: set<Id>, news: set<Id>)
    requires Dated(s, v) && StartShape(s, t, v, olds, news)
    ensures Dated(t, v)
  {
    forall id: nat ensures Indexed(t, id) {
      assert Indexed(s, id);
      if id in olds { assert Unmarked(t.rules[id]).state.Removed? && Unmarked(t.rules[id]).versions.remove == Some(v); }
      else if id in news { assert Newborn(t.rules[id], v); }
    }
    forall id | id in t.rules ensures Timely(t.rules[id].versions, v) {
      if id in olds { assert Unmarked(t.rules[id]).versions == Versions(s.rules[id].versions.add, Some(v)); }
      else if id in news { assert Newborn(t.rules[id], v); }
      if id in s.rules { assert Timely(s.rules[id].versions, v); }
    }
  }

  lemma RevertKeepsDates(s: Switch, t: Switch, v: nat, olds: set<Id>, news: set<Id>)
    requires Dated(s, v) && RevertShape(s, t, olds, news)
    ensures Dated(t, v)
  {
    forall id: nat ensures Indexed(t, id) {
      assert Indexed(s, id);
      if id in olds { assert t.rules[id] == Reborn(s.rules[id]); }
    }
    forall id | id in t.rules ensures Timely(t.rules[id].versions, v) {
      assert Timely(s.rules[id].versions, v);
    }
  }

  lemma StartKeepsVacant(s: Switch, t: Switch, next: nat, end: nat, olds: set<Id>, news: set<Id>)
    requires Vacant(s, next) && next <= end && HeapStarted(s, t, olds, news) && forall id :: id in news ==> id < end
    ensures Vacant(t, end)
  {
    forall id: nat | id >= end ensures t.evictable[id] == 0 { assert s.evictable[id] == 0; }
  }

  lemma RevertKeepsVacant(s: Switch, t: Switch, next: nat, olds: set<Id>, news: set<Id>)
    requires Vacant(s, next) && HeapReverted(s, t, olds, news) && forall id: nat :: id >= next ==> id !in s.rules
    ensures Vacant(t, next)
  {
    forall id: nat | id >= next ensures t.evictable[id] == 0 { assert s.evictable[id] == 0 && id !in s.rules; }
  }

  lemma StartKeepsOrder(s: Switch, next: nat, v: nat, m: FlowMod, st: Started)
    requires Orderly(s, next, v) && Recorded(s, next, v, m, st)
    ensures Orderly(st.s, st.next, v)
  {
    RecordedRunnable(s, next, v, m, st);
    StartKeepsVacant(s, st.s, next, st.next, SetOf(st.undo.olds), SetOf(st.undo.news));
    StartKeepsDates(s, st.s, v, SetOf(st.undo.olds), SetOf(st.undo.news));
    SameGroups(s, st.s, next, st.next, v);
  }

  lemma RevertKeepsOrder(s: Switch, t: Switch, next: nat, v: nat, olds: set<Id>, news: set<Id>)
    requires Orderly(s, next, v) && RevertShape(s, t, olds, news)
    ensures Orderly(t, next, v)
  {
    RevertKeepsDates(s, t, v, olds, news);
    RevertKeepsVacant(s, t, next, olds, news);
    SameGroups(s, t, next, next, v);
    forall id | id in t.rules ensures t.rules[id].c.key.table < |t.tables| {
      assert id in s.rules && t.rules[id].c == s.rules[id].c;
    }
  }

  // ---------- the eviction heap ----------

  lemma StartKeepsHeap(s: Switch, t: Switch, v: nat, olds: set<Id>, news: set<Id>)
    requires (forall id: nat :: Heaped(s, id)) && StartShape(s, t, v, olds, news)
    ensures forall id: nat :: Heaped(t, id)
  {
    forall id: nat ensures Heaped(t, id) {
      assert Heaped(s, id);
      if id in olds { assert Unmarked(t.rules[id]).state.Removed?; }
      else if id in news { assert Newborn(t.rules[id], v); }
    }
  }

  /** The rules to come back are removed, and those to go are inserted. */
  ghost predicate Exchangeable(s: Switch, olds: set<Id>, news: set<Id>) {
    && (forall id :: id in olds ==> id in s.rules && !s.rules[id].state.Inserted?)
    && (forall id :: id in news ==> IsInserted(s, id))
  }

  /** Those to come back are unmarked, too. */
  ghost predicate Swappable(s: Switch, olds: set<Id>, news: set<Id>) {
    Exchangeable(s, olds, news) && forall id :: id in olds ==> !s.rules[id].evicted
  }

  lemma RevertKeepsHeap(s: Switch, t: Switch, olds: set<Id>, news: set<Id>)
    requires (forall id: nat :: Heaped(s, id)) && RevertShape(s, t, olds, news) && Swappable(s, olds, news)
    ensures forall id: nat :: Heaped(t, id)
  {
    forall id: nat ensures Heaped(t, id) {
      assert Heaped(s, id);
      if id in olds { assert t.rules[id] == Reborn(s.rules[id]); }
    }
  }

  // ---------- the counters ----------

  ghost predicate SamePlace(s: Switch, a: Id, b: Id) {
    a in s.rules && b in s.rules && s.rules[a].c.key.table == s.rules[b].c.key.table
  }

  lemma UnreplacedInTable(s: Switch, t: Switch, prior: Option<Id>, id: Id, k: nat)
    requires RulesReverted(s.rules, t.rules, Maybe(prior), {id}) && IsInserted(s, id)
    requires prior.Some? ==> SamePlace(s, prior.value, id) && !IsInserted(s, prior.value)
    ensures |InTable(t, k)| == |InTable(s, k)| - OneIf(prior.None? && s.rules[id].c.key.table == k)
  {
    var a, b := InTable(s, k), InTable(t, k);
    var come := if prior.Some? && s.rules[id].c.key.table == k then prior else None;
    forall x ensures x in b <==> (x in a && Some(id) != Some(x)) || come == Some(x) {
      if prior == Some(x) { assert t.rules[x] == Reborn(s.rules[x]); }
    }
    SwapSize(a, b, Some(id), come);
    assert id in a <==> s.rules[id].c.key.table == k;
  }

  lemma UnreplaceKeepsCounts(s: Switch, prior: Option<Id>, id: Id)
    requires CountsOk(s) && IsInserted(s, id) && s.rules[id].c.key.table < |s.nFlows|
    requires prior.Some? ==> prior.value != id && SamePlace(s, prior.value, id) && !IsInserted(s, prior.value)
    ensures CountsOk(Unreplace(s, prior, id))
  {
    var t := Unreplace(s, prior, id);
    UnreplaceShape(s, prior, id);
    forall k | 0 <= k < |t.nFlows| ensures t.nFlows[k] == |InTable(t, k)| { UnreplacedInTable(s, t, prior, id, k); }
  }

  /** Each rule to come back is removed, its replacement inserted, and both are in one table. */
  ghost predicate PairsOk(s: Switch, olds: seq<Id>, news: seq<Id>) {
    && |olds| == |news|
    && forall i :: 0 <= i < |olds| ==> SamePlace(s, olds[i], news[i]) && !IsInserted(s, olds[i]) && IsInserted(s, news[i])
  }

  lemma PairsStay(s: Switch, t: Switch, olds: seq<Id>, news: seq<Id>)
    requires olds != [] && PairsOk(s, olds, news) && Unreplaceable(s, olds, news) && Distinct(olds)
    requires RulesReverted(s.rules, t.rules, {olds[0]}, {news[0]})
    ensures PairsOk(t, olds[1..], news[1..])
  {
    forall i | 0 <= i < |olds[1..]|
      ensures SamePlace(t, olds[1..][i], news[1..][i]) && !IsInserted(t, olds[1..][i]) && IsInserted(t, news[1..][i])
    {
      assert SamePlace(s, olds[i + 1], news[i + 1]) && !IsInserted(s, olds[i + 1]) && IsInserted(s, news[i + 1]);
      assert olds[i + 1] != olds[0] && news[i + 1] != news[0] && olds[0] != news[i + 1] && olds[i + 1] != news[0];
    }
  }

  lemma UnreplacesCounted(s: Switch, olds: seq<Id>, news: seq<Id>, u: Switch) returns (t: Switch)
    requires olds != [] && Unreplaces(s, olds, news, u) && CountsOk(s) && PairsOk(s, olds, news)
    ensures Unreplaces(t, olds[1..], news[1..], u) && CountsOk(t) && PairsOk(t, olds[1..], news[1..])
  {
    t := Unreplace(s, Some(olds[0]), news[0]);
    assert SamePlace(s, olds[0], news[0]);
    UnreplaceKeepsCounts(s, Some(olds[0]), news[0]);
    UnreplaceShape(s, Some(olds[0]), news[0]);
    UnreplaceNext(s, t, olds, news);
    PairsStay(s, t, olds, news);
  }

  lemma {:induction false} UnreplaceAllKeepsCounts(s: Switch, olds: seq<Id>, news: seq<Id>, u: Switch)
    requires Unreplaces(s, olds, news, u) && CountsOk(s) && PairsOk(s, olds, news)
    ensures CountsOk(u)
    decreases |olds|
  {
    if olds != [] {
      var t := UnreplacesCounted(s, olds, news, u);
      UnreplaceAllKeepsCounts(t, olds[1..], news[1..], u);
    }
  }

  lemma UndeletedInTable(s: Switch, t: Switch, id: Id, k: nat)
    requires RulesReverted(s.rules, t.rules, {id}, {}) && !IsInserted(s, id)
    ensures |InTable(t, k)| == |InTable(s, k)| + OneIf(s.rules[id].c.key.table == k)
  {
    var a, b := InTable(s, k), InTable(t, k);
    var come := if s.rules[id].c.key.table == k then Some(id) else None;
    forall x ensures x in b <==> x in a || come == Some(x) {
      if x == id { assert t.rules[x] == Reborn(s.rules[x]); }
    }
    SwapSize(a, b, None, come);
  }

  lemma UndeleteKeepsCounts(s: Switch, id: Id)
    requires CountsOk(s) && id in s.rules && !IsInserted(s, id) && s.rules[id].c.key.table < |s.nFlows|
    ensures CountsOk(UndeleteOne(s, id))
  {
    var t := UndeleteOne(s, id);
    UndeleteOneShape(s, id);
    forall k | 0 <= k < |t.nFlows| ensures t.nFlows[k] == |InTable(t, k)| { UndeletedInTable(s, t, id, k); }
  }

  ghost predicate NoneInserted(s: Switch, ids: seq<Id>) {
    forall i :: 0 <= i < |ids| ==> !IsInserted(s, ids[i])
  }

  lemma {:induction false} UndeleteAllKeepsCounts(s: Switch, ids: seq<Id>)
    requires AllIn(s, ids) && Distinct(ids) && CountsOk(s) && NoneInserted(s, ids)
    ensures CountsOk(UndeleteAll(s, ids))
    decreases |ids|
  {
    if ids != [] {
      var t := UndeleteOne(s, ids[0]);
      UndeleteKeepsCounts(s, ids[0]);
      UndeleteOneShape(s, ids[0]);
      UndeleteNext(s, t, ids);
      NoneStays(s, t, ids);
      UndeleteAllKeepsCounts(t, ids[1..]);
    }
  }

  lemma NoneStays(s: Switch, t: Switch, ids: seq<Id>)
    requires ids != [] && Distinct(ids) && NoneInserted(s, ids) && RulesReverted(s.rules, t.rules, {ids[0]}, {})
    ensures NoneInserted(t, ids[1..])
  {
    forall i | 0 <= i < |ids[1..]| ensures !IsInserted(t, ids[1..][i]) {
      assert !IsInserted(s, ids[i + 1]) && ids[i + 1] != ids[0];
    }
  }

  lemma ReplaceKeepsCounts(s: Switch, v: nat, prior: Option<Id>, c: Content, id: Id)
    requires CountsOk(s) && c.key.table < |s.nFlows| && id !in s.rules
    requires prior.Some? ==> Counted(s.rules, c.key.table, prior.value)
    ensures CountsOk(Replace(s, v, prior, c, id))
  {
    ReplaceIsReplaced(s, v, prior, c, id);
    ReplacedKeepsCounts(s, Replace(s, v, prior, c, id), v, prior, c, id);
  }

  lemma EvictKeepsCounts(s: Switch, v: nat, w: Id, c: Content, id: Id)
    requires CountsOk(s) && c.key.table < |s.nFlows| && id !in s.rules && Counted(s.rules, c.key.table, w)
    ensures CountsOk(Replace(MarkEvicted(s, w), v, Some(w), c, id))
  {
    var m := MarkEvicted(s, w);
    forall k | 0 <= k < |m.nFlows| ensures m.nFlows[k] == |InTable(m, k)| { assert InTable(m, k) == InTable(s, k); }
    ReplaceKeepsCounts(m, v, Some(w), c, id);
  }

  /** The rules to be replaced are inserted, each in the table of its replacement. */
  ghost predicate CountedPairs(s: Switch, olds: seq<Id>, cs: seq<Content>) {
    |olds| == |cs| && forall i :: 0 <= i < |olds| ==> Counted(s.rules, cs[i].key.table, olds[i])
  }

  lemma {:induction false} ReplaceAllKeepsCounts(s: Switch, v: nat, olds: seq<Id>, news: seq<Id>, cs: seq<Content>)
    requires Replaceable(s, olds, news, cs) && Separate(s, olds, news) && CountsOk(s) && CountedPairs(s, olds, cs)
    ensures CountsOk(ReplaceAll(s, v, olds, news, cs))
    decreases |olds|
  {
    if olds != [] {
      var t := Replace(s, v, Some(olds[0]), cs[0], news[0]);
      ReplaceFrame(s, v, olds, news, cs);
      ReplaceKeepsCounts(s, v, Some(olds[0]), cs[0], news[0]);
      CountedStay(s, t, olds, cs);
      ReplaceAllKeepsCounts(t, v, olds[1..], news[1..], cs[1..]);
    }
  }

  lemma CountedStay(s: Switch, t: Switch, olds: seq<Id>, cs: seq<Content>)
    requires olds != [] && Distinct(olds) && CountedPairs(s, olds, cs)
    requires forall id :: id in s.rules && id != olds[0] ==> id in t.rules && t.rules[id] == s.rules[id]
    ensures CountedPairs(t, olds[1..], cs[1..])
  {
    forall i | 0 <= i < |olds[1..]| ensures Counted(t.rules, cs[1..][i].key.table, olds[1..][i]) {
      assert Counted(s.rules, cs[i + 1].key.table, olds[i + 1]) && olds[i + 1] != olds[0];
    }
  }

  lemma {:induction false} DeleteAllKeepsCounts(s: Switch, v: nat, ids: seq<Id>)
    requires AllIn(s, ids) && InsertedAll(s, ids) && CountsOk(s)
    ensures CountsOk(DeleteAll(s, v, ids))
    decreases |ids|
  {
    if ids != [] {
      var t := DeleteOne(s, v, ids[0]);
      DeleteIsDeleted(s, v, ids[0]);
      DeletedCounts(s, t, v, ids[0]);
      DeletedTail(s, t, v, ids);
      DeleteAllKeepsCounts(t, v, ids[1..]);
    }
  }

  // ---------- flow mods ----------

  ghost predicate AllInserted(s: Switch, ids: set<Id>) {
    forall id :: id in ids ==> IsInserted(s, id)
  }

  lemma AddKeepsCounts(s: Switch, next: nat, v: nat, c: Content, isAdd: bool)
    requires Sound(s, next, v) && c.key.table < |s.tables| && AddStart(s, next, v, c, isAdd).Ok?
    ensures var st := AddStart(s, next, v, c, isAdd).value; CountsOk(st.s) && AllInserted(s, SetOf(st.undo.olds))
  {
    match FindExactly(s, c.key, v) {
      case Some(id) =>
        assert IsExactly(s, c.key, v, id) && Indexed(s, id) && Timely(s.rules[id].versions, v);
        ReplaceKeepsCounts(s, v, Some(id), Successor(s.rules[id], c, isAdd, true), next);
      case None =>
        if s.nFlows[c.key.table] >= s.tables[c.key.table].maxFlows {
          var w := Victim(s, c.key.table).value;
          assert CanBeVictim(s, c.key.table, w) && Heaped(s, w);
          EvictKeepsCounts(s, v, w, c, next);
        } else {
          ReplaceKeepsCounts(s, v, None, c, next);
        }
    }
  }

  lemma CollectedInserted(s: Switch, next: nat, v: nat, cr: Criteria)
    requires Orderly(s, next, v)
    ensures var l := Collect(s, cr, next); InsertedAll(s, l) && AllIn(s, l) && AllInserted(s, SetOf(l))
  {
    var l := Collect(s, cr, next);
    CollectIsIn(s, cr, next);
    forall i | 0 <= i < |l| ensures IsInserted(s, l[i]) { assert Selected(s, cr, l[i]) && Indexed(s, l[i]); }
  }

  lemma ModifyKeepsCounts(s: Switch, next: nat, v: nat, m: FlowMod, olds: seq<Id>)
    requires Sound(s, next, v) && m.Modify? && AllIn(s, olds) && InsertedAll(s, olds)
    requires ModifyThese(s, next, v, m, olds).Ok?
    ensures CountsOk(ModifyThese(s, next, v, m, olds).value.s)
  {
    var cs := Copies(s, olds, m.c, m.modifyCookie);
    forall i | 0 <= i < |olds| ensures Counted(s.rules, cs[i].key.table, olds[i]) { assert IsInserted(s, olds[i]); }
    ReplaceAllKeepsCounts(s, v, olds, NewIds(next, |olds|), cs);
  }

  lemma StartKeepsCounts(s: Switch, next: nat, v: nat, m: FlowMod)
    requires Sound(s, next, v) && ModReady(s, m) && Start(s, next, v, m).Ok?
    ensures var st := Start(s, next, v, m).value; CountsOk(st.s) && AllInserted(s, SetOf(st.undo.olds))
  {
    match m {
      case Add(c) => AddKeepsCounts(s, next, v, c, true);
      case Modify(cr, _, _, _) =>
        CollectedInserted(s, next, v, cr);
        if Collect(s, cr, next) != [] { ModifyKeepsCounts(s, next, v, m, Collect(s, cr, next)); }
        else if m.mayAdd { AddKeepsCounts(s, next, v, m.c, false); }
      case Delete(cr) =>
        CollectedInserted(s, next, v, cr);
        DeleteAllKeepsCounts(s, v, Collect(s, cr, next));
    }
  }

  lemma StartKeepsSound(s: Switch, next: nat, v: nat, m: FlowMod)
    requires Sound(s, next, v) && ModReady(s, m) && Start(s, next, v, m).Ok?
    ensures var st := Start(s, next, v, m).value;
            Recorded(s, next, v, m, st) && Sound(st.s, st.next, v) && AllInserted(s, SetOf(st.undo.olds))
  {
    var st := Start(s, next, v, m).value;
    StartRecorded(s, next, v, m);
    StartKeepsOrder(s, next, v, m, st);
    StartKeepsHeap(s, st.s, v, SetOf(st.undo.olds), SetOf(st.undo.news));
    StartKeepsCounts(s, next, v, m);
  }

  lemma UnaddKeepsCounts(t: Switch, m: FlowMod, u: Undo)
    requires m.Add? && Revertible(t, m, u) && Paired(t, m, u)
    requires Swappable(t, SetOf(u.olds), SetOf(u.news)) && CountsOk(t)
    ensures CountsOk(Revert(t, m, u))
  {
    assert u.news[0] in SetOf(u.news);
    if u.olds != [] {
      assert u.olds[0] in SetOf(u.olds);
      UnreplaceKeepsCounts(t, Some(u.olds[0]), u.news[0]);
    } else {
      UnreplaceKeepsCounts(t, None, u.news[0]);
    }
  }

  lemma SwappablePairs(t: Switch, m: FlowMod, u: Undo)
    requires m.Modify? && u.olds != [] && Paired(t, m, u) && Exchangeable(t, SetOf(u.olds), SetOf(u.news))
    ensures PairsOk(t, u.olds, u.news)
  {
    forall i | 0 <= i < |u.olds| ensures !IsInserted(t, u.olds[i]) && IsInserted(t, u.news[i]) {
      assert u.olds[i] in SetOf(u.olds) && u.news[i] in SetOf(u.news);
    }
  }

  lemma RevertKeepsCounts(t: Switch, m: FlowMod, u: Undo)
    requires Revertible(t, m, u) && Distinct(u.olds) && Paired(t, m, u)
    requires Swappable(t, SetOf(u.olds), Dropped(m, u)) && CountsOk(t)
    ensures CountsOk(Revert(t, m, u))
  {
    match m {
      case Add(_) => UnaddKeepsCounts(t, m, u);
      case Modify(_, _, _, _) =>
        if u.olds != [] {
          SwappablePairs(t, m, u);
          UnreplaceAllKeepsCounts(t, u.olds, u.news, UnreplaceAll(t, u.olds, u.news));
        }
      case Delete(_) =>
        forall i | 0 <= i < |u.olds| ensures !IsInserted(t, u.olds[i]) { assert u.olds[i] in SetOf(u.olds); }
        UndeleteAllKeepsCounts(t, u.olds);
    }
  }

  lemma RevertKeepsSound(t: Switch, next: nat, v: nat, m: FlowMod, u: Undo)
    requires Sound(t, next, v) && Revertible(t, m, u) && Distinct(u.olds) && SetOf(u.olds) !! SetOf(u.news) && Paired(t, m, u)
    requires Swappable(t, SetOf(u.olds), Dropped(m, u))
    ensures Sound(Revert(t, m, u), next, v)
  {
    RevertHasShape(t, m, u);
    RevertKeepsOrder(t, Revert(t, m, u), next, v, SetOf(u.olds), Dropped(m, u));
    RevertKeepsHeap(t, Revert(t, m, u), SetOf(u.olds), Dropped(m, u));
    RevertKeepsCounts(t, m, u);
  }
}
