/** Starting a flow mod at version `v` does to the newest view what the plain meaning says, including
    every error, and to no earlier view anything at all. */
module FlowRefine {
  import opened FlowTable
  import opened FlowMod
  import opened FlowModRevert
  import opened FlowModInv
  import opened FlowMeaning
  import opened FlowSpec

  /** What lookups in version `w` would see. */
  ghost function PlainAt(s: Switch, w: nat): Plain {
    Plain(View(s, w), GroupView(s, w))
  }

  ghost function VictimContent(s: Switch, m: FlowMod): Option<Content> {
    if m.Delete? || m.c.key.table >= |s.tables| then None
    else match Victim(s, m.c.key.table) case None => None case Some(w) => if w in s.rules then Some(s.rules[w].c) else None
  }

  /** Versions before `v` and all groups look the same in `s` and `t`. */
  ghost predicate SamePast(s: Switch, t: Switch, v: nat) {
    && (forall w: nat :: w < v ==> View(t, w) == View(s, w))
    && (forall w: nat :: GroupView(t, w) == GroupView(s, w))
    && t.version == s.version && t.tables == s.tables && t.maxGroups == s.maxGroups
  }

  /** A started mod is what the plain meaning allows. */
  ghost predicate Faithful(s: Switch, v: nat, r: Outcome<Started>, plain: Outcome<Plain>) {
    match r
    case Err(e) => plain == Err(e)
    case Ok(st) => Inv(st.s, st.next, v) && SamePast(s, st.s, v) && plain == Ok(PlainAt(st.s, v))
  }

  // ---------- correspondence ----------

  lemma GroupsCorrespond(s: Switch, next: nat, v: nat)
    requires Inv(s, next, v)
    ensures forall gid :: GroupKnown(s, gid) <==> KnowsGroup(PlainAt(s, v), gid)
    ensures forall acts :: ActionsOk(s, acts) <==> PlainActionsOk(PlainAt(s, v), acts)
  {
    forall gid ensures GroupKnown(s, gid) <==> KnowsGroup(PlainAt(s, v), gid) {
      if GroupKnown(s, gid) {
        var g :| g in s.groups && s.groups[g].gid == gid && s.groups[g].versions.remove.None?;
        assert g in GroupIds(s, v);
        assert PlainGroup(s.groups[g]) in GroupView(s, v);
      }
      if KnowsGroup(PlainAt(s, v), gid) {
        var p :| p in GroupView(s, v) && p.gid == gid;
        var g :| g in GroupIds(s, v) && PlainGroup(s.groups[g]) == p;
        assert Timely(s.groups[g].versions, v);
      }
    }
  }

  lemma {:induction false} ImageSize(s: Switch, ids: set<Id>)
    requires ids <= s.rules.Keys
    requires forall i, j :: i in ids && j in ids && i != j ==> s.rules[i].c != s.rules[j].c
    ensures |set id | id in ids :: s.rules[id].c| == |ids|
  {
    var img := set id | id in ids :: s.rules[id].c;
    if ids != {} {
      var x :| x in ids;
      var rest := ids - {x};
      ImageSize(s, rest);
      assert img == (set id | id in rest :: s.rules[id].c) + {s.rules[x].c};
    }
  }

  /** The table counter is the number of rules the newest view has in the table. */
  lemma TableSize(s: Switch, next: nat, v: nat, t: nat)
    requires Inv(s, next, v) && t < |s.nFlows|
    ensures s.nFlows[t] == |PlainTable(PlainAt(s, v), t)|
  {
    NewestView(s, next, v);
    var ids := InTable(s, t);
    forall i, j | i in ids && j in ids && i != j ensures s.rules[i].c != s.rules[j].c {
      VisibleContentsDiffer(s, v, j);
    }
    ImageSize(s, ids);
    var img := set id | id in ids :: s.rules[id].c;
    forall x ensures x in img <==> x in PlainTable(PlainAt(s, v), t) {
      if x in img {
        var id :| id in ids && s.rules[id].c == x;
        assert id in ViewIds(s, v);
      }
      if x in PlainTable(PlainAt(s, v), t) {
        var id :| id in ViewIds(s, v) && s.rules[id].c == x;
        assert id in ids;
      }
    }
    assert img == PlainTable(PlainAt(s, v), t);
  }

  lemma FindCorresponds(s: Switch, next: nat, v: nat, key: Key)
    requires Inv(s, next, v)
    ensures FindExactly(s, key, v).None? ==> SameKey(PlainAt(s, v), key) == {}
    ensures FindExactly(s, key, v).Some? ==>
              var id := FindExactly(s, key, v).value;
              IsInserted(s, id) && s.rules[id].c.key == key && SameKey(PlainAt(s, v), key) == {s.rules[id].c}
    ensures MayReplace(s, v, FindExactly(s, key, v), Content(key, 0, Actions([], {}, [], 0), Attrs(0, 0, 0, false, 0)))
  {
    NewestView(s, next, v);
    match FindExactly(s, key, v) {
      case None =>
        forall x | x in View(s, v) ensures x.key != key {
          var id :| id in ViewIds(s, v) && s.rules[id].c == x;
          assert !IsExactly(s, key, v, id);
        }
        forall id | id in s.rules && s.rules[id].c.key == key ensures !VisibleAt(s.rules[id].versions, v) {
          assert !IsExactly(s, key, v, id);
        }
      case Some(id) =>
        assert IsExactly(s, key, v, id);
        VisibleContentsDiffer(s, v, id);
        assert id in ViewIds(s, v);
        forall y | y in ViewIds(s, v) && s.rules[y].c.key == key ensures y == id {}
    }
  }

  // ---------- add ----------

  lemma ReplacedFaithful(s: Switch, t: Switch, next: nat, v: nat, prior: Option<Id>, c: Content, undo: Undo)
    requires Inv(s, next, v) && MayReplace(s, v, prior, c)
    requires Replaced(s, t, v, prior, c, next) && Inv(t, next + 1, v)
    ensures var gone := if prior.Some? then {s.rules[prior.value].c} else {};
            Faithful(s, v, Ok(Started(t, next + 1, undo)), Ok(PlainAt(s, v).(rules := View(s, v) - gone + {c})))
  {
    ReplacedViews(s, t, next, v, prior, c, next);
  }

  lemma ReplaceFaithful(s: Switch, next: nat, v: nat, prior: Option<Id>, c: Content, undo: Undo)
    requires Inv(s, next, v) && MayReplace(s, v, prior, c) && c.key.table < |s.tables| && ActionsOk(s, c.actions)
    ensures var gone := if prior.Some? then {s.rules[prior.value].c} else {};
            Faithful(s, v, Ok(Started(Replace(s, v, prior, c, next), next + 1, undo)),
                     Ok(PlainAt(s, v).(rules := View(s, v) - gone + {c})))
  {
    ReplaceKeepsInv(s, next, v, prior, c, next);
    ReplaceIsReplaced(s, v, prior, c, next);
    ReplacedFaithful(s, Replace(s, v, prior, c, next), next, v, prior, c, undo);
  }

  /** Evicting differs from replacing only in the mark the victim keeps. */
  lemma EvictFaithful(s: Switch, next: nat, v: nat, w: Id, c: Content, undo: Undo)
    requires Inv(s, next, v) && MayReplace(s, v, Some(w), c) && c.key.table < |s.tables| && ActionsOk(s, c.actions)
    ensures Faithful(s, v, Ok(Started(Replace(MarkEvicted(s, w), v, Some(w), c, next), next + 1, undo)),
                     Ok(PlainAt(s, v).(rules := View(s, v) - {s.rules[w].c} + {c})))
  {
    assert Agrees(s, w);
    var t := Replace(s, v, Some(w), c, next);
    ReplaceFaithful(s, next, v, Some(w), c, undo);
    EvictIsReplace(s, v, w, c, next);
    ReplaceIsReplaced(s, v, Some(w), c, next);
    MarkedFaithful(s, t, next, v, w, undo, Ok(PlainAt(s, v).(rules := View(s, v) - {s.rules[w].c} + {c})));
  }

  lemma MarkedFaithful(s: Switch, t: Switch, next: nat, v: nat, w: Id, undo: Undo, plain: Outcome<Plain>)
    requires Faithful(s, v, Ok(Started(t, next + 1, undo)), plain) && w in t.rules && t.rules[w].state.Removed?
    ensures Faithful(s, v, Ok(Started(WithMark(t, w), next + 1, undo)), plain)
  {
    MarkIsHarmless(s, t, next, v, w);
    MarkSameViews(t, w);
  }

  function WithMark(t: Switch, w: Id): Switch
    requires w in t.rules
  {
    t.(rules := t.rules[w := t.rules[w].(evicted := true)])
  }

  lemma EvictIsReplace(s: Switch, v: nat, w: Id, c: Content, id: Id)
    requires Agrees(s, w) && IsInserted(s, w) && id !in s.rules && c.key.table < |s.nFlows|
    ensures Replace(MarkEvicted(s, w), v, Some(w), c, id) == WithMark(Replace(s, v, Some(w), c, id), w)
  {
    var a, b := Replace(MarkEvicted(s, w), v, Some(w), c, id), WithMark(Replace(s, v, Some(w), c, id), w);
    assert a.rules == b.rules;
    assert s.evictable - multiset{w} - multiset{w} == s.evictable - multiset{w};
  }

  lemma MarkSameViews(t: Switch, w: Id)
    requires w in t.rules
    ensures forall u: nat :: View(WithMark(t, w), u) == View(t, u)
  {
    forall u: nat ensures View(WithMark(t, w), u) == View(t, u) {
      assert ViewIds(WithMark(t, w), u) == ViewIds(t, u);
    }
  }

  lemma MarkIsHarmless(s: Switch, t: Switch, next: nat, v: nat, w: Id)
    requires Inv(t, next + 1, v) && w in t.rules && t.rules[w].state.Removed?
    ensures Inv(WithMark(t, w), next + 1, v)
  {
    var u := WithMark(t, w);
    forall x: nat ensures Agrees(u, x) { assert Agrees(t, x); }
    forall k | 0 <= k < |u.nFlows| ensures u.nFlows[k] == |InTable(u, k)| {
      assert InTable(u, k) == InTable(t, k);
    }
    forall k | 0 <= k < |u.nGroups| ensures u.nGroups[k] == |OfKind(u, k)| {
      assert OfKind(u, k) == OfKind(t, k);
    }
    forall gid ensures GroupKnown(t, gid) <==> GroupKnown(u, gid) {}
    assert RulesOk(u, v);
  }

  lemma AddFaithful(s: Switch, next: nat, v: nat, c: Content, isAdd: bool)
    requires Inv(s, next, v) && c.key.table < |s.tables|
    ensures Faithful(s, v, AddStart(s, next, v, c, isAdd),
                     PlainAdd(PlainAt(s, v), s.tables, c, isAdd,
                              match Victim(s, c.key.table) case None => None case Some(w) => Some(s.rules[w].c)))
  {
    GroupsCorrespond(s, next, v);
    FindCorresponds(s, next, v, c.key);
    NewestView(s, next, v);
    if ActionsOk(s, c.actions) {
      match FindExactly(s, c.key, v) {
        case Some(id) =>
          AddFoundFaithful(s, next, v, id, c, isAdd,
                           match Victim(s, c.key.table) case None => None case Some(w) => Some(s.rules[w].c));
        case None =>
          OverlapCorresponds(s, v, c);
          TableSize(s, next, v, c.key.table);
          if !(c.attrs.checkOverlap && Overlaps(s, c, v)) {
            if s.nFlows[c.key.table] >= s.tables[c.key.table].maxFlows {
              if Victim(s, c.key.table).Some? {
                VictimIsInserted(s, next, c.key.table);
                EvictFaithful(s, next, v, Victim(s, c.key.table).value, c, Undo([Victim(s, c.key.table).value], [next]));
              }
            } else {
              ReplaceFaithful(s, next, v, None, c, Undo([], [next]));
              assert View(s, v) - {} + {c} == View(s, v) + {c};
            }
          }
      }
    }
  }

  lemma AddFoundFaithful(s: Switch, next: nat, v: nat, id: Id, c: Content, isAdd: bool, victim: Option<Content>)
    requires Inv(s, next, v) && c.key.table < |s.tables| && ActionsOk(s, c.actions) && FindExactly(s, c.key, v) == Some(id)
    ensures Faithful(s, v, AddStart(s, next, v, c, isAdd), PlainAdd(PlainAt(s, v), s.tables, c, isAdd, victim))
  {
    GroupsCorrespond(s, next, v);
    FindCorresponds(s, next, v, c.key);
    NewestView(s, next, v);
    assert Agrees(s, id);
    AddOverFaithful(s, next, v, id, c, isAdd);
  }

  lemma OverlapCorresponds(s: Switch, v: nat, c: Content)
    ensures Overlaps(s, c, v) <==> exists x :: x in View(s, v) && Collide(c, x)
  {
    if Overlaps(s, c, v) {
      var id :| id in s.rules && VisibleAt(s.rules[id].versions, v) && OverlapsContent(c, s.rules[id].c);
      OverlapMeans(c, s.rules[id].c);
      assert id in ViewIds(s, v) && s.rules[id].c in View(s, v);
    }
    if x :| x in View(s, v) && Collide(c, x) {
      var id :| id in ViewIds(s, v) && s.rules[id].c == x;
      OverlapMeans(c, x);
    }
  }

  lemma OverMeans(was: Content, c: Content, isAdd: bool)
    requires was.key == c.key
    ensures Inherit(was, c, isAdd, true) == Over(was, c, isAdd)
  {
    InheritMeans(was, c, true);
  }

  lemma AddOverFaithful(s: Switch, next: nat, v: nat, id: Id, c: Content, isAdd: bool)
    requires Inv(s, next, v) && c.key.table < |s.tables| && ActionsOk(s, c.actions)
    requires IsInserted(s, id) && s.rules[id].c.key == c.key && SameKey(PlainAt(s, v), c.key) == {s.rules[id].c}
    requires MayReplace(s, v, Some(id), c)
    ensures var x := s.rules[id].c;
            Faithful(s, v, Ok(Started(Replace(s, v, Some(id), Inherit(x, c, isAdd, true), next), next + 1, Undo([id], [next]))),
                     Ok(PlainAt(s, v).(rules := View(s, v) - SameKey(PlainAt(s, v), c.key)
                          + set y | y in SameKey(PlainAt(s, v), c.key) :: Over(y, c, isAdd))))
  {
    var x := s.rules[id].c;
    var n := Over(x, c, isAdd);
    OverMeans(x, c, isAdd);
    assert MayReplace(s, v, Some(id), n);
    ReplaceFaithful(s, next, v, Some(id), n, Undo([id], [next]));
    assert (set y | y in SameKey(PlainAt(s, v), c.key) :: Over(y, c, isAdd)) == {n};
  }

  // ---------- delete ----------

  /** What taking out one rule amounts to. */
  ghost predicate Deleted(s: Switch, t: Switch, v: nat, id: Id) {
    && id in s.rules && t.rules.Keys == s.rules.Keys
    && (forall x :: x in s.rules ==> t.rules[x] == if x == id then Gone(s.rules[id], v) else s.rules[x])
    && s.rules[id].c.key.table < |s.nFlows|
    && t.nFlows == s.nFlows[s.rules[id].c.key.table := s.nFlows[s.rules[id].c.key.table] - 1]
    && t.tables == s.tables && t.version == s.version
    && SameButMembers(s, t)
  }

  lemma DeleteIsDeleted(s: Switch, v: nat, id: Id)
    requires id in s.rules && s.rules[id].c.key.table < |s.nFlows|
    ensures Deleted(s, DeleteOne(s, v, id), v, id)
  {
  }

  lemma DeletedCounts(s: Switch, t: Switch, v: nat, id: Id)
    requires CountsOk(s) && Deleted(s, t, v, id) && IsInserted(s, id)
    ensures CountsOk(t)
  {
    forall k | 0 <= k < |t.nFlows| ensures t.nFlows[k] == |InTable(t, k)| {
      var a, b := InTable(s, k), InTable(t, k);
      forall x ensures x in b <==> x in a && Some(id) != Some(x) {
        assert (x in a <==> Counted(s.rules, k, x)) && (x in b <==> Counted(t.rules, k, x));
      }
      SwapSize(a, b, Some(id), None);
    }
  }

  lemma DeletedRulesOk(s: Switch, t: Switch, next: nat, v: nat, id: Id)
    requires Inv(s, next, v) && Deleted(s, t, v, id) && IsInserted(s, id)
    ensures RulesOk(t, v)
  {
    assert Agrees(s, id);
    SameGroups(s, t, next, next, v);
    forall i, j | i in t.rules && j in t.rules && i != j && t.rules[i].c.key == t.rules[j].c.key
      ensures NeverTogether(t.rules[i].versions, t.rules[j].versions)
    {
      assert NeverTogether(s.rules[i].versions, s.rules[j].versions);
      forall w: nat ensures !(VisibleAt(t.rules[i].versions, w) && VisibleAt(t.rules[j].versions, w)) {
        assert VisibleAt(t.rules[i].versions, w) ==> VisibleAt(s.rules[i].versions, w);
        assert VisibleAt(t.rules[j].versions, w) ==> VisibleAt(s.rules[j].versions, w);
      }
    }
    forall x | x in t.rules && t.rules[x].state.Inserted? ensures ActionsOk(t, t.rules[x].c.actions) {
      assert s.rules[x].state.Inserted? && ActionsOk(s, s.rules[x].c.actions);
    }
  }

  lemma DeletedViews(s: Switch, t: Switch, next: nat, v: nat, id: Id)
    requires Inv(s, next, v) && Deleted(s, t, v, id) && IsInserted(s, id)
    ensures forall w: nat :: w < v ==> View(t, w) == View(s, w)
    ensures View(t, v) == View(s, v) - {s.rules[id].c}
    ensures forall w: nat :: GroupView(t, w) == GroupView(s, w)
  {
    SameGroups(s, t, next, next, v);
    NewestView(s, next, v);
    assert Agrees(s, id);
    DeletedPast(s, t, v, id);
    assert ViewIds(t, v) == ViewIds(s, v) - {id};
    VisibleContentsDiffer(s, v, id);
    DeletedNewest(s, t, v, id);
  }

  lemma DeletedPast(s: Switch, t: Switch, v: nat, id: Id)
    requires Deleted(s, t, v, id) && s.rules[id].versions.remove.None?
    ensures forall w: nat :: w < v ==> View(t, w) == View(s, w)
  {
    forall w: nat | w < v ensures View(t, w) == View(s, w) {
      assert ViewIds(t, w) == ViewIds(s, w);
    }
  }

  lemma DeletedNewest(s: Switch, t: Switch, v: nat, id: Id)
    requires Deleted(s, t, v, id) && ViewIds(t, v) == ViewIds(s, v) - {id} && id in ViewIds(s, v)
    requires forall x :: x in ViewIds(s, v) && x != id ==> s.rules[x].c.key != s.rules[id].c.key
    ensures View(t, v) == View(s, v) - {s.rules[id].c}
  {
    forall y | y in View(s, v) - {s.rules[id].c} ensures y in View(t, v) {
      var x :| x in ViewIds(s, v) && s.rules[x].c == y;
      assert x in ViewIds(t, v) && t.rules[x].c == y;
    }
    forall y | y in View(t, v) ensures y in View(s, v) - {s.rules[id].c} {
      var x :| x in ViewIds(t, v) && t.rules[x].c == y;
      assert x in ViewIds(s, v) && s.rules[x].c == y;
    }
  }

  lemma DeleteKeepsInv(s: Switch, next: nat, v: nat, id: Id)
    requires Inv(s, next, v) && IsInserted(s, id)
    ensures var t := DeleteOne(s, v, id);
            && Inv(t, next, v) && SamePast(s, t, v) && View(t, v) == View(s, v) - {s.rules[id].c}
            && Deleted(s, t, v, id)
  {
    var k := s.rules[id].c.key.table;
    DeleteIsDeleted(s, v, id);
    var u := Count(s, k, -1);
    forall x: nat ensures Agrees(u, x) { assert Agrees(s, x); }
    AgreesOut(u, id, v);
    InvFromDeleted(s, DeleteOne(s, v, id), next, v, id);
  }

  lemma InvFromDeleted(s: Switch, t: Switch, next: nat, v: nat, id: Id)
    requires Inv(s, next, v) && Deleted(s, t, v, id) && IsInserted(s, id) && forall x: nat :: Agrees(t, x)
    ensures Inv(t, next, v) && SamePast(s, t, v) && View(t, v) == View(s, v) - {s.rules[id].c}
  {
    DeletedCounts(s, t, v, id);
    DeletedRulesOk(s, t, next, v, id);
    DeletedViews(s, t, next, v, id);
    SameGroups(s, t, next, next, v);
    assert TablesInRange(t);
  }

  ghost function Contents(s: Switch, ids: seq<Id>): set<Content>
    requires forall i :: 0 <= i < |ids| ==> ids[i] in s.rules
  {
    set i | 0 <= i < |ids| :: s.rules[ids[i]].c
  }

  ghost predicate InsertedAll(s: Switch, ids: seq<Id>) {
    && (forall i :: 0 <= i < |ids| ==> IsInserted(s, ids[i]))
    && (forall i, j :: 0 <= i < j < |ids| ==> ids[i] != ids[j])
  }

  lemma SamePastTrans(s: Switch, t: Switch, u: Switch, v: nat)
    requires SamePast(s, t, v) && SamePast(t, u, v)
    ensures SamePast(s, u, v)
  {
  }

  /** Deleting the rules `ids` in `s` leads to `u`. */
  ghost predicate Purges(s: Switch, next: nat, v: nat, ids: seq<Id>, u: Switch) {
    Inv(s, next, v) && InsertedAll(s, ids) && AllIn(s, ids) && u == DeleteAll(s, v, ids)
  }

  ghost predicate Purged(s: Switch, next: nat, v: nat, ids: seq<Id>, u: Switch)
    requires forall i :: 0 <= i < |ids| ==> ids[i] in s.rules
  {
    Inv(u, next, v) && SamePast(s, u, v) && View(u, v) == View(s, v) - Contents(s, ids)
  }

  lemma DeleteAllFaithful(s: Switch, next: nat, v: nat, ids: seq<Id>)
    requires Inv(s, next, v) && InsertedAll(s, ids) && AllIn(s, ids)
    ensures var t := DeleteAll(s, v, ids);
            Inv(t, next, v) && SamePast(s, t, v) && View(t, v) == View(s, v) - Contents(s, ids)
  {
    DeleteAllPurges(s, next, v, ids, DeleteAll(s, v, ids));
  }

  lemma {:induction false} DeleteAllPurges(s: Switch, next: nat, v: nat, ids: seq<Id>, u: Switch)
    requires Purges(s, next, v, ids, u)
    ensures Purged(s, next, v, ids, u)
    decreases |ids|
  {
    if ids == [] {
      assert Contents(s, ids) == {};
    } else {
      var t := FirstPurged(s, next, v, ids, u);
      DeleteAllPurges(t, next, v, ids[1..], u);
      PurgedFirst(s, t, next, v, ids, u);
    }
  }

  lemma FirstPurged(s: Switch, next: nat, v: nat, ids: seq<Id>, u: Switch) returns (t: Switch)
    requires ids != [] && Purges(s, next, v, ids, u)
    ensures Purges(t, next, v, ids[1..], u) && Deleted(s, t, v, ids[0])
    ensures SamePast(s, t, v) && View(t, v) == View(s, v) - {s.rules[ids[0]].c}
  {
    t := DeleteOne(s, v, ids[0]);
    DeleteKeepsInv(s, next, v, ids[0]);
    DeletedTail(s, t, v, ids);
  }

  lemma PurgedFirst(s: Switch, t: Switch, next: nat, v: nat, ids: seq<Id>, u: Switch)
    requires ids != [] && InsertedAll(s, ids) && AllIn(s, ids) && Deleted(s, t, v, ids[0])
    requires SamePast(s, t, v) && View(t, v) == View(s, v) - {s.rules[ids[0]].c}
    requires forall i :: 0 <= i < |ids[1..]| ==> ids[1..][i] in t.rules
    requires Purged(t, next, v, ids[1..], u)
    ensures Purged(s, next, v, ids, u)
  {
    DeletedTail(s, t, v, ids);
    SamePastTrans(s, t, u, v);
  }

  lemma DeletedTail(s: Switch, t: Switch, v: nat, ids: seq<Id>)
    requires ids != [] && InsertedAll(s, ids) && AllIn(s, ids) && Deleted(s, t, v, ids[0])
    ensures InsertedAll(t, ids[1..]) && AllIn(t, ids[1..])
    ensures Contents(s, ids) == {s.rules[ids[0]].c} + Contents(t, ids[1..])
  {
    forall i | 0 <= i < |ids[1..]|
      ensures IsInserted(t, ids[1..][i]) && t.rules[ids[1..][i]].c.key.table < |t.nFlows|
    {
      assert IsInserted(s, ids[i + 1]) && ids[0] != ids[i + 1];
    }
    ContentsSplit(s, t, ids);
  }

  lemma ContentsSplit(s: Switch, t: Switch, ids: seq<Id>)
    requires ids != [] && forall i :: 0 <= i < |ids| ==> ids[i] in s.rules
    requires forall i :: 0 <= i < |ids| ==> ids[i] in t.rules && t.rules[ids[i]].c == s.rules[ids[i]].c
    ensures Contents(s, ids) == {s.rules[ids[0]].c} + Contents(t, ids[1..])
  {
    forall x | x in Contents(s, ids) ensures x in {s.rules[ids[0]].c} + Contents(t, ids[1..]) {
      var i :| 0 <= i < |ids| && s.rules[ids[i]].c == x;
      if i > 0 { assert ids[1..][i - 1] == ids[i]; }
    }
    forall x | x in Contents(t, ids[1..]) ensures x in Contents(s, ids) {
      var i :| 0 <= i < |ids[1..]| && t.rules[ids[1..][i]].c == x;
      assert ids[i + 1] == ids[1..][i];
    }
  }

  // ---------- selection ----------

  lemma SelectedAsked(s: Switch, next: nat, v: nat, cr: Criteria, id: Id)
    requires Inv(s, next, v)
    ensures Selected(s, cr, id) <==> IsInserted(s, id) && Asked(s.tables, cr, s.rules[id].c)
  {
    assert Agrees(s, id);
    SelectedMeans(s, cr, id);
  }

  lemma WritableMeans(tables: seq<TableConfig>, cr: Criteria, c: Content)
    ensures Writable(tables, cr, c) <==> Changeable(tables, cr, c)
  {
  }

  lemma CollectCorresponds(s: Switch, next: nat, v: nat, cr: Criteria)
    requires Inv(s, next, v)
    ensures var ids := Collect(s, cr, next);
            && InsertedAll(s, ids) && AllIn(s, ids)
            && Contents(s, ids) == Targets(PlainAt(s, v), s.tables, cr)
            && (ids == [] <==> Targets(PlainAt(s, v), s.tables, cr) == {})
            && (ids == [] && ReadonlyHit(s, cr) <==> OnlyReadonly(PlainAt(s, v), s.tables, cr))
  {
    var ids := Collect(s, cr, next);
    CollectedAreInserted(s, next, v, cr, ids);
    CollectedAreTargets(s, next, v, cr, ids);
    if ids != [] { assert s.rules[ids[0]].c in Contents(s, ids); }
    ReadonlyCorresponds(s, next, v, cr);
  }

  lemma CollectedAreInserted(s: Switch, next: nat, v: nat, cr: Criteria, ids: seq<Id>)
    requires Inv(s, next, v)
    requires forall k :: 0 <= k < |ids| ==> Selected(s, cr, ids[k])
    requires forall i, j :: 0 <= i < j < |ids| ==> ids[i] < ids[j]
    ensures InsertedAll(s, ids) && AllIn(s, ids)
  {
    forall i | 0 <= i < |ids| ensures IsInserted(s, ids[i]) && s.rules[ids[i]].c.key.table < |s.nFlows| {
      SelectedAsked(s, next, v, cr, ids[i]);
    }
  }

  lemma CollectedAreTargets(s: Switch, next: nat, v: nat, cr: Criteria, ids: seq<Id>)
    requires Inv(s, next, v) && InsertedAll(s, ids)
    requires forall k :: 0 <= k < |ids| ==> Selected(s, cr, ids[k]) && Writable(s.tables, cr, s.rules[ids[k]].c)
    requires forall id: nat :: id < next && Selected(s, cr, id) && Writable(s.tables, cr, s.rules[id].c) ==> id in ids
    ensures Contents(s, ids) == Targets(PlainAt(s, v), s.tables, cr)
  {
    NewestView(s, next, v);
    forall x | x in Targets(PlainAt(s, v), s.tables, cr) ensures x in Contents(s, ids) {
      var id :| id in ViewIds(s, v) && s.rules[id].c == x;
      SelectedAsked(s, next, v, cr, id);
      assert id in ids;
    }
    forall x | x in Contents(s, ids) ensures x in Targets(PlainAt(s, v), s.tables, cr) {
      var i :| 0 <= i < |ids| && s.rules[ids[i]].c == x;
      SelectedAsked(s, next, v, cr, ids[i]);
      assert IsInserted(s, ids[i]) && ids[i] in ViewIds(s, v);
    }
  }

  lemma ReadonlyCorresponds(s: Switch, next: nat, v: nat, cr: Criteria)
    requires Inv(s, next, v)
    ensures ReadonlyHit(s, cr) <==> exists x :: x in View(s, v) && Asked(s.tables, cr, x) && !Changeable(s.tables, cr, x)
  {
    NewestView(s, next, v);
    if ReadonlyHit(s, cr) {
      var id :| Selected(s, cr, id) && !Writable(s.tables, cr, s.rules[id].c);
      SelectedAsked(s, next, v, cr, id);
      assert id in ViewIds(s, v) && s.rules[id].c in View(s, v);
    }
    if x :| x in View(s, v) && Asked(s.tables, cr, x) && !Changeable(s.tables, cr, x) { ReadonlySeen(s, next, v, cr, x); }
  }

  lemma ReadonlySeen(s: Switch, next: nat, v: nat, cr: Criteria, x: Content)
    requires Inv(s, next, v) && x in View(s, v) && Asked(s.tables, cr, x) && !Changeable(s.tables, cr, x)
    ensures ReadonlyHit(s, cr)
  {
    NewestView(s, next, v);
    var id :| id in ViewIds(s, v) && s.rules[id].c == x;
    SelectedAsked(s, next, v, cr, id);
    assert Selected(s, cr, id);
  }

  lemma DeleteFaithful(s: Switch, next: nat, v: nat, m: FlowMod)
    requires Inv(s, next, v) && m.Delete?
    ensures Faithful(s, v, DeleteStart(s, next, v, m), PlainDelete(PlainAt(s, v), s.tables, m.cr))
  {
    CollectCorresponds(s, next, v, m.cr);
    DeleteAllFaithful(s, next, v, Collect(s, m.cr, next));
  }

  // ---------- modify ----------

  ghost function AsSet(cs: seq<Content>): set<Content> {
    set i | 0 <= i < |cs| :: cs[i]
  }

  /** The new contents have the keys of the old ones, and all their groups exist. */
  ghost predicate MatchingCopies(s: Switch, olds: seq<Id>, cs: seq<Content>) {
    && |olds| == |cs| && InsertedAll(s, olds)
    && (forall i :: 0 <= i < |olds| ==> cs[i].key == s.rules[olds[i]].c.key && ActionsOk(s, cs[i].actions))
  }

  lemma OwnKeyMayReplace(s: Switch, next: nat, v: nat, id: Id, c: Content)
    requires Inv(s, next, v) && IsInserted(s, id) && c.key == s.rules[id].c.key
    ensures MayReplace(s, v, Some(id), c)
  {
    NewestView(s, next, v);
    VisibleContentsDiffer(s, v, id);
    forall x | x in s.rules && s.rules[x].c.key == c.key && VisibleAt(s.rules[x].versions, v) ensures x == id {
      assert x in ViewIds(s, v);
    }
  }

  lemma ReplaceAllFaithful(s: Switch, next: nat, v: nat, olds: seq<Id>, news: seq<Id>, cs: seq<Content>)
    requires Inv(s, next, v) && MatchingCopies(s, olds, cs) && Replaceable(s, olds, news, cs)
    requires forall i :: 0 <= i < |news| ==> news[i] == next + i
    ensures var t := ReplaceAll(s, v, olds, news, cs); Inv(t, next + |olds|, v) && OnlyReplaced(s, t, v, olds, cs)
  {
    ReplaceAllReaches(s, next, v, olds, news, cs, ReplaceAll(s, v, olds, news, cs), next + |olds|);
  }

  lemma {:induction false} ReplaceAllReaches(s: Switch, next: nat, v: nat, olds: seq<Id>, news: seq<Id>, cs: seq<Content>,
                                             u: Switch, end: nat)
    requires Leads(s, next, v, olds, news, cs, u, end)
    ensures Reached(s, u, end, v, olds, cs)
    decreases |olds|
  {
    if olds == [] {
      NoneReplaced(s, end, v, olds, cs);
    } else {
      var t := FirstStep(s, next, v, olds, news, cs, u, end);
      ReplaceAllReaches(t, next + 1, v, olds[1..], news[1..], cs[1..], u, end);
      FirstThenRest(s, t, u, end, v, olds, cs);
    }
  }

  /** Replacing the rules `olds` by `cs` in `s` leads to `u`. */
  ghost predicate Leads(s: Switch, next: nat, v: nat, olds: seq<Id>, news: seq<Id>, cs: seq<Content>, u: Switch, end: nat) {
    && Inv(s, next, v) && MatchingCopies(s, olds, cs) && Replaceable(s, olds, news, cs)
    && (forall i :: 0 <= i < |news| ==> news[i] == next + i)
    && u == ReplaceAll(s, v, olds, news, cs) && end == next + |olds|
  }

  ghost predicate Reached(s: Switch, u: Switch, end: nat, v: nat, olds: seq<Id>, cs: seq<Content>)
    requires forall i :: 0 <= i < |olds| ==> olds[i] in s.rules
  {
    Inv(u, end, v) && OnlyReplaced(s, u, v, olds, cs)
  }

  /** Lookups of version `v` see `cs` in the place of the rules `olds`; those of earlier versions see no difference. */
  ghost predicate OnlyReplaced(s: Switch, t: Switch, v: nat, olds: seq<Id>, cs: seq<Content>)
    requires forall i :: 0 <= i < |olds| ==> olds[i] in s.rules
  {
    SamePast(s, t, v) && View(t, v) == View(s, v) - Contents(s, olds) + AsSet(cs)
  }

  /** The first of the rules `olds` has been replaced by the first of `cs`. */
  ghost predicate Stepped(s: Switch, t: Switch, v: nat, olds: seq<Id>, cs: seq<Content>)
    requires olds != [] && |cs| == |olds|
    requires forall i :: 0 <= i < |olds| ==> olds[i] in s.rules
    requires forall i :: 0 <= i < |olds[1..]| ==> olds[1..][i] in t.rules
  {
    && SamePast(s, t, v) && View(t, v) == View(s, v) - {s.rules[olds[0]].c} + {cs[0]}
    && Contents(s, olds) == {s.rules[olds[0]].c} + Contents(t, olds[1..])
    && AsSet(cs) == {cs[0]} + AsSet(cs[1..]) && cs[0] !in Contents(t, olds[1..])
  }

  lemma NoneReplaced(s: Switch, end: nat, v: nat, olds: seq<Id>, cs: seq<Content>)
    requires olds == [] && cs == [] && Inv(s, end, v)
    ensures Reached(s, s, end, v, olds, cs)
  {
    assert Contents(s, olds) == {} && AsSet(cs) == {};
  }

  lemma FirstStep(s: Switch, next: nat, v: nat, olds: seq<Id>, news: seq<Id>, cs: seq<Content>, u: Switch, end: nat)
    returns (t: Switch)
    requires olds != [] && Leads(s, next, v, olds, news, cs, u, end)
    ensures Leads(t, next + 1, v, olds[1..], news[1..], cs[1..], u, end)
    ensures forall i :: 0 <= i < |olds[1..]| ==> olds[1..][i] in t.rules
    ensures Stepped(s, t, v, olds, cs)
  {
    t := FirstParts(s, next, v, olds, news, cs);
    LeadsOn(t, next, v, olds, news, cs, u, end);
  }

  lemma LeadsOn(t: Switch, next: nat, v: nat, olds: seq<Id>, news: seq<Id>, cs: seq<Content>, u: Switch, end: nat)
    requires olds != [] && |news| == |olds| == |cs| && forall i :: 0 <= i < |news| ==> news[i] == next + i
    requires Inv(t, next + 1, v) && MatchingCopies(t, olds[1..], cs[1..]) && Replaceable(t, olds[1..], news[1..], cs[1..])
    requires u == ReplaceAll(t, v, olds[1..], news[1..], cs[1..]) && end == next + |olds|
    ensures Leads(t, next + 1, v, olds[1..], news[1..], cs[1..], u, end)
  {
  }

  lemma FirstParts(s: Switch, next: nat, v: nat, olds: seq<Id>, news: seq<Id>, cs: seq<Content>) returns (t: Switch)
    requires olds != [] && Inv(s, next, v) && MatchingCopies(s, olds, cs) && Replaceable(s, olds, news, cs)
    requires news[0] == next
    ensures Inv(t, next + 1, v) && MatchingCopies(t, olds[1..], cs[1..]) && Replaceable(t, olds[1..], news[1..], cs[1..])
    ensures forall i :: 0 <= i < |olds[1..]| ==> olds[1..][i] in t.rules
    ensures Stepped(s, t, v, olds, cs)
    ensures ReplaceAll(s, v, olds, news, cs) == ReplaceAll(t, v, olds[1..], news[1..], cs[1..])
  {
    t := Replace(s, v, Some(olds[0]), cs[0], news[0]);
    FirstReplaced(s, next, v, olds, news, cs);
    ReplacedTail(s, t, next, v, olds, news, cs);
    ReplaceAllFirst(s, v, olds, news, cs);
    FirstCopyStays(s, t, next, v, olds, cs);
  }

  lemma FirstThenRest(s: Switch, t: Switch, u: Switch, end: nat, v: nat, olds: seq<Id>, cs: seq<Content>)
    requires olds != [] && |cs| == |olds|
    requires forall i :: 0 <= i < |olds| ==> olds[i] in s.rules
    requires forall i :: 0 <= i < |olds[1..]| ==> olds[1..][i] in t.rules
    requires Stepped(s, t, v, olds, cs) && Reached(t, u, end, v, olds[1..], cs[1..])
    ensures Reached(s, u, end, v, olds, cs)
  {
    SamePastTrans(s, t, u, v);
    Regroup(View(s, v), s.rules[olds[0]].c, cs[0], Contents(t, olds[1..]), AsSet(cs[1..]));
  }

  lemma ReplaceAllFirst(s: Switch, v: nat, olds: seq<Id>, news: seq<Id>, cs: seq<Content>)
    requires Replaceable(s, olds, news, cs) && olds != []
    requires Replaceable(Replace(s, v, Some(olds[0]), cs[0], news[0]), olds[1..], news[1..], cs[1..])
    ensures ReplaceAll(s, v, olds, news, cs)
         == ReplaceAll(Replace(s, v, Some(olds[0]), cs[0], news[0]), v, olds[1..], news[1..], cs[1..])
  {
  }

  lemma FirstReplaced(s: Switch, next: nat, v: nat, olds: seq<Id>, news: seq<Id>, cs: seq<Content>)
    requires olds != [] && Inv(s, next, v) && MatchingCopies(s, olds, cs) && Replaceable(s, olds, news, cs)
    requires news[0] == next
    ensures var t := Replace(s, v, Some(olds[0]), cs[0], news[0]);
            && Inv(t, next + 1, v) && SamePast(s, t, v) && Replaced(s, t, v, Some(olds[0]), cs[0], next)
            && View(t, v) == View(s, v) - {s.rules[olds[0]].c} + {cs[0]}
  {
    assert IsInserted(s, olds[0]) && ActionsOk(s, cs[0].actions);
    OwnKeyMayReplace(s, next, v, olds[0], cs[0]);
    ReplaceFaithful(s, next, v, Some(olds[0]), cs[0], Undo([], []));
    ReplaceIsReplaced(s, v, Some(olds[0]), cs[0], next);
  }

  lemma Regroup(view: set<Content>, o: Content, c: Content, rest: set<Content>, copies: set<Content>)
    requires c !in rest
    ensures view - {o} + {c} - rest + copies == view - ({o} + rest) + ({c} + copies)
  {
  }

  lemma ReplacedTail(s: Switch, t: Switch, next: nat, v: nat, olds: seq<Id>, news: seq<Id>, cs: seq<Content>)
    requires olds != [] && Inv(s, next, v) && MatchingCopies(s, olds, cs) && Replaceable(s, olds, news, cs)
    requires Replaced(s, t, v, Some(olds[0]), cs[0], next) && SamePast(s, t, v)
    ensures MatchingCopies(t, olds[1..], cs[1..]) && Replaceable(t, olds[1..], news[1..], cs[1..])
    ensures Contents(s, olds) == {s.rules[olds[0]].c} + Contents(t, olds[1..])
    ensures AsSet(cs) == {cs[0]} + AsSet(cs[1..])
  {
    SameGroups(s, t, next, next, v);
    CopiesStillMatch(s, t, v, olds, cs, next);
    ContentsSplit(s, t, olds);
    AsSetSplit(cs);
  }

  lemma CopiesStillMatch(s: Switch, t: Switch, v: nat, olds: seq<Id>, cs: seq<Content>, id: Id)
    requires olds != [] && MatchingCopies(s, olds, cs) && Replaced(s, t, v, Some(olds[0]), cs[0], id)
    requires forall gid :: GroupKnown(s, gid) <==> GroupKnown(t, gid)
    ensures MatchingCopies(t, olds[1..], cs[1..])
  {
    forall i | 0 <= i < |olds[1..]|
      ensures IsInserted(t, olds[1..][i]) && cs[1..][i].key == t.rules[olds[1..][i]].c.key && ActionsOk(t, cs[1..][i].actions)
    {
      assert IsInserted(s, olds[i + 1]) && olds[0] != olds[i + 1] && ActionsOk(s, cs[i + 1].actions);
    }
  }

  lemma AsSetSplit(cs: seq<Content>)
    requires cs != []
    ensures AsSet(cs) == {cs[0]} + AsSet(cs[1..])
  {
    forall x | x in AsSet(cs) ensures x in {cs[0]} + AsSet(cs[1..]) {
      var i :| 0 <= i < |cs| && cs[i] == x;
      if i > 0 { assert cs[1..][i - 1] == x; }
    }
    forall x | x in AsSet(cs[1..]) ensures x in AsSet(cs) {
      var i :| 0 <= i < |cs[1..]| && cs[1..][i] == x;
      assert cs[i + 1] == x;
    }
  }

  /** The first copy is not among the rules still to be replaced. */
  lemma FirstCopyStays(s: Switch, t: Switch, next: nat, v: nat, olds: seq<Id>, cs: seq<Content>)
    requires olds != [] && Inv(s, next, v) && MatchingCopies(s, olds, cs)
    requires Replaced(s, t, v, Some(olds[0]), cs[0], next)
    ensures forall i :: 0 <= i < |olds[1..]| ==> olds[1..][i] in t.rules
    ensures cs[0] !in Contents(t, olds[1..])
  {
    forall i | 0 <= i < |olds[1..]| ensures olds[1..][i] in t.rules && t.rules[olds[1..][i]].c != cs[0] {
      assert IsInserted(s, olds[0]) && IsInserted(s, olds[i + 1]) && olds[0] != olds[i + 1];
      NewestView(s, next, v);
      VisibleContentsDiffer(s, v, olds[0]);
      assert olds[i + 1] in ViewIds(s, v);
    }
  }

  lemma CopiesMatch(s: Switch, next: nat, v: nat, m: FlowMod, olds: seq<Id>)
    requires m.Modify? && ActionsOk(s, m.c.actions) && InsertedAll(s, olds)
    ensures MatchingCopies(s, olds, Copies(s, olds, m.c, m.modifyCookie))
  {
    forall i | 0 <= i < |olds| ensures olds[i] in s.rules { assert IsInserted(s, olds[i]); }
    var cs := Copies(s, olds, m.c, m.modifyCookie);
    forall i | 0 <= i < |olds| ensures ActionsOk(s, cs[i].actions) {
      assert cs[i].actions == m.c.actions;
    }
  }

  lemma CopiesInherit(s: Switch, next: nat, v: nat, m: FlowMod, olds: seq<Id>, cs: seq<Content>)
    requires Inv(s, next, v) && m.Modify? && InsertedAll(s, olds) && AllIn(s, olds) && cs == Copies(s, olds, m.c, m.modifyCookie)
    ensures forall i :: 0 <= i < |olds| ==>
              cs[i] == Modified(s.rules[olds[i]].c, m.c, m.modifyCookie)
  {
    forall i | 0 <= i < |olds|
      ensures cs[i] == Modified(s.rules[olds[i]].c, m.c, m.modifyCookie)
    {
      assert IsInserted(s, olds[i]) && Agrees(s, olds[i]);
    }
  }

  lemma CopiesAreImages(s: Switch, m: FlowMod, olds: seq<Id>, cs: seq<Content>)
    requires m.Modify? && |cs| == |olds| && forall i :: 0 <= i < |olds| ==> olds[i] in s.rules
    requires forall i :: 0 <= i < |olds| ==>
               cs[i] == Modified(s.rules[olds[i]].c, m.c, m.modifyCookie)
    ensures AsSet(cs) == set x | x in Contents(s, olds) :: Modified(x, m.c, m.modifyCookie)
  {
    var img := set x | x in Contents(s, olds) :: Modified(x, m.c, m.modifyCookie);
    forall y | y in AsSet(cs) ensures y in img {
      var i :| 0 <= i < |cs| && cs[i] == y;
      assert s.rules[olds[i]].c in Contents(s, olds);
    }
    forall y | y in img ensures y in AsSet(cs) {
      var x :| x in Contents(s, olds) && y == Modified(x, m.c, m.modifyCookie);
      var i :| 0 <= i < |olds| && s.rules[olds[i]].c == x;
      assert cs[i] == y;
    }
  }

  lemma ModifyHit(s: Switch, next: nat, v: nat, m: FlowMod, olds: seq<Id>)
    requires Inv(s, next, v) && m.Modify? && ActionsOk(s, m.c.actions) && InsertedAll(s, olds) && AllIn(s, olds)
    ensures var r, was := ModifyThese(s, next, v, m, olds), Contents(s, olds);
            && r.Ok? && Inv(r.value.s, r.value.next, v) && SamePast(s, r.value.s, v)
            && View(r.value.s, v)
               == View(s, v) - was + set x | x in was :: Modified(x, m.c, m.modifyCookie)
  {
    var news, cs := NewIds(next, |olds|), Copies(s, olds, m.c, m.modifyCookie);
    CopiesMatch(s, next, v, m, olds);
    CopiesInherit(s, next, v, m, olds, cs);
    CopiesAreImages(s, m, olds, cs);
    CopiesReplaceable(s, olds, news, cs);
    ReplaceAllFaithful(s, next, v, olds, news, cs);
  }

  lemma CopiesReplaceable(s: Switch, olds: seq<Id>, news: seq<Id>, cs: seq<Content>)
    requires AllIn(s, olds) && |olds| == |news| == |cs|
    requires forall i :: 0 <= i < |olds| ==> cs[i].key == s.rules[olds[i]].c.key
    ensures Replaceable(s, olds, news, cs)
  {
  }

  lemma PlainModifyHit(a: Plain, tables: seq<TableConfig>, m: FlowMod, victim: Option<Content>, hit: set<Content>)
    requires m.Modify? && m.c.key.table < |tables| && (m.cr.table.Some? ==> m.cr.table.value < |tables|)
    requires hit == Targets(a, tables, m.cr) && hit != {}
    ensures PlainModify(a, tables, m, victim)
         == if !PlainActionsOk(a, m.c.actions) then Err(BadOutGroup)
            else Ok(a.(rules := a.rules - hit + set x | x in hit :: Modified(x, m.c, m.modifyCookie)))
  {
  }

  lemma ModifyHitFaithful(s: Switch, next: nat, v: nat, m: FlowMod)
    requires Inv(s, next, v) && m.Modify? && m.c.key.table < |s.tables|
    requires TableIdOk(s, m.cr) && Collect(s, m.cr, next) != []
    ensures Faithful(s, v, ModifyStart(s, next, v, m), PlainModify(PlainAt(s, v), s.tables, m, VictimContent(s, m)))
  {
    var olds := Collect(s, m.cr, next);
    CollectCorresponds(s, next, v, m.cr);
    GroupsCorrespond(s, next, v);
    PlainModifyHit(PlainAt(s, v), s.tables, m, VictimContent(s, m), Contents(s, olds));
    if ActionsOk(s, m.c.actions) { ModifyHit(s, next, v, m, olds); }
  }

  lemma ModifyMissFaithful(s: Switch, next: nat, v: nat, m: FlowMod)
    requires Inv(s, next, v) && m.Modify? && m.c.key.table < |s.tables|
    requires TableIdOk(s, m.cr) && Collect(s, m.cr, next) == []
    ensures Faithful(s, v, ModifyStart(s, next, v, m), PlainModify(PlainAt(s, v), s.tables, m, VictimContent(s, m)))
  {
    CollectCorresponds(s, next, v, m.cr);
    if m.mayAdd && !ReadonlyHit(s, m.cr) {
      VictimHasContent(s, next, v, m);
      AddFaithful(s, next, v, m.c, false);
    }
  }

  lemma ModifyFaithful(s: Switch, next: nat, v: nat, m: FlowMod)
    requires Inv(s, next, v) && m.Modify? && m.c.key.table < |s.tables|
    ensures Faithful(s, v, ModifyStart(s, next, v, m), PlainModify(PlainAt(s, v), s.tables, m, VictimContent(s, m)))
  {
    if TableIdOk(s, m.cr) {
      if Collect(s, m.cr, next) != [] { ModifyHitFaithful(s, next, v, m); } else { ModifyMissFaithful(s, next, v, m); }
    }
  }

  lemma VictimHasContent(s: Switch, next: nat, v: nat, m: FlowMod)
    requires Inv(s, next, v) && !m.Delete? && m.c.key.table < |s.tables|
    ensures VictimContent(s, m)
         == match Victim(s, m.c.key.table) case None => None case Some(w) => Some(s.rules[w].c)
  {
  }

  /** Every flow mod means what its plain meaning says, errors included, in the version it is started at, and
      changes nothing lookups of earlier versions see; and it keeps the invariant. */
  lemma StartFaithful(s: Switch, next: nat, v: nat, m: FlowMod)
    requires Inv(s, next, v) && ModReady(s, m)
    ensures Faithful(s, v, Start(s, next, v, m), PlainMod(PlainAt(s, v), s.tables, m, VictimContent(s, m)))
  {
    match m {
      case Add(c) => VictimHasContent(s, next, v, m); AddFaithful(s, next, v, c, true);
      case Modify(_, _, _, _) => ModifyFaithful(s, next, v, m);
      case Delete(_) => DeleteFaithful(s, next, v, m);
    }
  }

  // ---------- what is seen afterwards ----------

  /** In terms of what lookups saw before, what they see after, and the request `c`: one rule stands under its key,
      with its timeouts and actions, and its cookie unless that is all ones and there was a rule to take the cookie
      from. */
  ghost predicate StandsAsAdded(before: set<Content>, after: set<Content>, c: Content) {
    exists x :: x in after && x.key == c.key && (forall y :: y in after && y.key == c.key ==> y == x)
      && x.attrs == c.attrs && x.actions == c.actions
      && (c.cookie != 0xFFFF_FFFF_FFFF_FFFF ==> x.cookie == c.cookie)
      && (c.cookie == 0xFFFF_FFFF_FFFF_FFFF ==> forall y :: y in before && y.key == c.key ==> x.cookie == y.cookie)
      && ((forall y :: y in before ==> y.key != c.key) ==> x == c)
  }

  /** No rule comes under another key than `key`, and of those under other keys none goes but `gone`. */
  ghost predicate OthersStay(before: set<Content>, after: set<Content>, key: Key, gone: Option<Content>) {
    && (forall y :: y in after && y.key != key ==> y in before)
    && (forall y :: y in before && y.key != key && gone != Some(y) ==> y in after)
  }

  /** A rule seen that may make way for others in table `t`: the table evicts, and the rule has a timeout. */
  predicate MayMakeWay(seen: set<Content>, tables: seq<TableConfig>, t: nat, x: Content) {
    x in seen && x.key.table == t < |tables| && tables[t].eviction && (x.attrs.idle != 0 || x.attrs.hard != 0)
  }

  /** At most one other rule makes way, and that only for a rule that replaces none in a full table. */
  ghost predicate MakesWay(before: set<Content>, after: set<Content>, tables: seq<TableConfig>, key: Key, full: bool) {
    exists gone :: OthersStay(before, after, key, gone)
      && (gone.Some? ==> full && MayMakeWay(before, tables, key.table, gone.value) && forall y :: y in before ==> y.key != key)
  }

  /** There is a victim exactly if some rule seen may make way, and then it is one of those. */
  lemma VictimMeans(s: Switch, next: nat, v: nat, t: nat)
    requires Inv(s, next, v) && t < |s.tables|
    ensures Victim(s, t).Some? <==> exists x :: MayMakeWay(View(s, v), s.tables, t, x)
    ensures Victim(s, t).Some? ==>
              Victim(s, t).value in s.rules && MayMakeWay(View(s, v), s.tables, t, s.rules[Victim(s, t).value].c)
  {
    NewestView(s, next, v);
    if Victim(s, t).Some? {
      var w := Victim(s, t).value;
      assert CanBeVictim(s, t, w) && Agrees(s, w);
      assert w in ViewIds(s, v);
      assert MayMakeWay(View(s, v), s.tables, t, s.rules[w].c);
    }
    if x :| MayMakeWay(View(s, v), s.tables, t, x) {
      var id :| id in ViewIds(s, v) && s.rules[id].c == x;
      assert Agrees(s, id) && CanBeVictim(s, t, id);
      assert Victim(s, t).Some?;
    }
  }

  ghost predicate IsFull(a: Plain, tables: seq<TableConfig>, t: nat)
    requires t < |tables|
  {
    |PlainTable(a, t)| >= tables[t].maxFlows
  }

  /** An add puts its rule in the place of the one with its key, and touches no other but the one that makes way. */
  lemma AddIsSeen(s: Switch, next: nat, v: nat, c: Content, t: Switch)
    requires Inv(s, next, v) && c.key.table < |s.tables|
    requires var r := Start(s, next, v, Add(c)); r.Ok? && r.value.s == t
    ensures StandsAsAdded(View(s, v), View(t, v), c)
    ensures MakesWay(View(s, v), View(t, v), s.tables, c.key, IsFull(PlainAt(s, v), s.tables, c.key.table))
  {
    StartFaithful(s, next, v, Add(c));
    VictimMeans(s, next, v, c.key.table);
    FindCorresponds(s, next, v, c.key);
    PlainAddIsSeen(PlainAt(s, v), s.tables, c, VictimContent(s, Add(c)), View(t, v));
  }

  lemma PlainAddIsSeen(a: Plain, tables: seq<TableConfig>, c: Content, victim: Option<Content>, after: set<Content>)
    requires c.key.table < |tables|
    requires PlainAdd(a, tables, c, true, victim) == Ok(a.(rules := after))
    requires SameKey(a, c.key) == {} || exists x :: SameKey(a, c.key) == {x}
    requires victim.Some? ==> MayMakeWay(a.rules, tables, c.key.table, victim.value)
    ensures StandsAsAdded(a.rules, after, c)
    ensures MakesWay(a.rules, after, tables, c.key, IsFull(a, tables, c.key.table))
  {
    if x :| SameKey(a, c.key) == {x} {
      SameKeyIs(a, c.key, x);
      assert after == a.rules - {x} + {AddedOver(x, c)} by {
        assert (set y | y in SameKey(a, c.key) :: Over(y, c, true)) == {Over(x, c, true)};
      }
      OverIsSeen(a.rules, after, x, c);
      assert OthersStay(a.rules, after, c.key, None);
    } else {
      NoneWithKey(a, c.key);
      var gone := if IsFull(a, tables, c.key.table) then victim else None;
      assert after == a.rules - (if gone.Some? then {gone.value} else {}) + {c};
      assert c in after;
      assert OthersStay(a.rules, after, c.key, gone);
    }
  }

  lemma SameKeyIs(a: Plain, key: Key, x: Content)
    requires SameKey(a, key) == {x}
    ensures x in a.rules && x.key == key && forall y :: y in a.rules && y.key == key ==> y == x
  {
    assert x in SameKey(a, key);
    forall y | y in a.rules && y.key == key ensures y == x { assert y in SameKey(a, key); }
  }

  lemma NoneWithKey(a: Plain, key: Key)
    requires SameKey(a, key) == {}
    ensures forall y :: y in a.rules ==> y.key != key
  {
    forall y | y in a.rules ensures y.key != key {
      assert y in SameKey(a, key) <==> y.key == key;
    }
  }

  lemma OverIsSeen(before: set<Content>, after: set<Content>, x: Content, c: Content)
    requires x in before && x.key == c.key && (forall y :: y in before && y.key == c.key ==> y == x)
    requires after == before - {x} + {AddedOver(x, c)}
    ensures StandsAsAdded(before, after, c)
  {
    assert AddedOver(x, c) in after;
  }

  /** The successor of `x` after a modify, among what lookups see: its own key, timeouts and cookie, the request's
      actions; and the request's cookie only if a change was asked for and it is not all ones. */
  ghost predicate StandsAsModified(x: Content, after: set<Content>, m: FlowMod)
    requires m.Modify?
  {
    exists y :: y in after && y.key == x.key && (forall z :: z in after && z.key == x.key ==> z == y)
      && y.attrs == x.attrs && y.actions == m.c.actions
      && y.cookie == (if m.modifyCookie && m.c.cookie != 0xFFFF_FFFF_FFFF_FFFF then m.c.cookie else x.cookie)
  }

  /** A modify of the rules `hit`: each has its successor, every other rule stays, and nothing comes under any other
      key. */
  ghost predicate HitIsModified(before: set<Content>, after: set<Content>, hit: set<Content>, m: FlowMod)
    requires m.Modify?
  {
    && (forall x :: x in hit ==> StandsAsModified(x, after, m))
    && (forall x :: x in before && x !in hit ==> x in after)
    && (forall x :: x in after ==> exists y :: y in before && y.key == x.key)
  }

  /** An add fails for want of room exactly if it names known groups, replaces no rule and need not fear an overlap,
      the table is full and no rule in it may make way. */
  lemma FullTableIff(s: Switch, next: nat, v: nat, c: Content)
    requires Inv(s, next, v) && c.key.table < |s.tables|
    ensures Start(s, next, v, Add(c)) == Err(TableFull)
       <==> PlainActionsOk(PlainAt(s, v), c.actions)
            && (forall x :: x in View(s, v) ==> x.key != c.key && !(c.attrs.checkOverlap && Collide(c, x)))
            && IsFull(PlainAt(s, v), s.tables, c.key.table)
            && forall x :: !MayMakeWay(View(s, v), s.tables, c.key.table, x)
  {
    StartFaithful(s, next, v, Add(c));
    VictimMeans(s, next, v, c.key.table);
    PlainFullIff(PlainAt(s, v), s.tables, c, VictimContent(s, Add(c)));
  }

  lemma PlainFullIff(a: Plain, tables: seq<TableConfig>, c: Content, victim: Option<Content>)
    requires c.key.table < |tables|
    ensures PlainAdd(a, tables, c, true, victim) == Err(TableFull)
       <==> PlainActionsOk(a, c.actions)
            && (forall x :: x in a.rules ==> x.key != c.key && !(c.attrs.checkOverlap && Collide(c, x)))
            && IsFull(a, tables, c.key.table) && victim.None?
  {
    if SameKey(a, c.key) == {} {
      NoneWithKey(a, c.key);
    } else {
      var x :| x in SameKey(a, c.key);
      assert x in a.rules && x.key == c.key;
    }
  }

  /** A modify that finds rules it was asked for and may change modifies exactly those. */
  lemma ModifyIsSeen(s: Switch, next: nat, v: nat, m: FlowMod, t: Switch, hit: set<Content>)
    requires Inv(s, next, v) && m.Modify? && m.c.key.table < |s.tables|
    requires var r := Start(s, next, v, m); r.Ok? && r.value.s == t
    requires hit == (set x | x in View(s, v) && Asked(s.tables, m.cr, x) && Changeable(s.tables, m.cr, x)) && hit != {}
    ensures HitIsModified(View(s, v), View(t, v), hit, m)
  {
    var a := PlainAt(s, v);
    assert Targets(a, s.tables, m.cr) == hit;
    StartFaithful(s, next, v, m);
    PlainModifyGives(a, s.tables, m, VictimContent(s, m), hit, PlainAt(t, v));
    OneSeenPerKey(t, v);
    ModifiedIsSeen(View(s, v), View(t, v), hit, m);
  }

  lemma PlainModifyGives(a: Plain, tables: seq<TableConfig>, m: FlowMod, victim: Option<Content>, hit: set<Content>, b: Plain)
    requires m.Modify? && m.c.key.table < |tables|
    requires hit == Targets(a, tables, m.cr) && hit != {}
    requires PlainModify(a, tables, m, victim) == Ok(b)
    ensures b.rules == a.rules - hit + set z | z in hit :: Modified(z, m.c, m.modifyCookie)
  {
  }

  lemma ModifiedIsSeen(before: set<Content>, after: set<Content>, hit: set<Content>, m: FlowMod)
    requires m.Modify? && hit <= before
    requires after == before - hit + set z | z in hit :: Modified(z, m.c, m.modifyCookie)
    requires forall x, y :: x in after && y in after && x.key == y.key ==> x == y
    ensures HitIsModified(before, after, hit, m)
  {
    forall x | x in hit ensures StandsAsModified(x, after, m) {
      assert Modified(x, m.c, m.modifyCookie) in after;
    }
    forall x | x in after ensures exists y :: y in before && y.key == x.key {
      if x !in before {
        var z :| z in hit && Modified(z, m.c, m.modifyCookie) == x;
        assert z in before && z.key == x.key;
      }
    }
  }

  lemma OneSeenPerKey(s: Switch, v: nat)
    requires OneRulePerKey(s)
    ensures forall x, y :: x in View(s, v) && y in View(s, v) && x.key == y.key ==> x == y
  {
    forall x, y | x in View(s, v) && y in View(s, v) && x.key == y.key ensures x == y {
      var i :| i in ViewIds(s, v) && s.rules[i].c == x;
      VisibleContentsDiffer(s, v, i);
      var j :| j in ViewIds(s, v) && s.rules[j].c == y;
    }
  }
}
