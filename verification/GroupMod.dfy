/** Group mods: adding and modifying groups, their reverts, and their plain meaning. */
module GroupMod {
  import opened FlowTable
  import opened FlowMod
  import opened FlowModRevert
  import opened FlowModInv
  import opened FlowSpec
  import opened FlowRefine

  datatype Command = AddGroup | ModifyGroup | AddOrModify
  datatype GMod = GMod(command: Command, gid: GroupId, kind: nat, body: nat)

  datatype GUndo = GUndo(prior: Option<Id>, id: Id)
  datatype GStarted = GStarted(s: Switch, next: nat, undo: GUndo)

  ghost predicate IsCurrent(s: Switch, gid: GroupId, g: Id) {
    g in s.groups && s.groups[g].gid == gid && s.groups[g].versions.remove.None?
  }

  ghost function FindGroup(s: Switch, gid: GroupId): Option<Id> {
    if exists g :: IsCurrent(s, gid, g) then var g :| IsCurrent(s, gid, g); Some(g) else None
  }

  function CountKind(s: Switch, kind: nat, delta: int): Switch
    requires kind < |s.nGroups|
  {
    s.(nGroups := s.nGroups[kind := s.nGroups[kind] + delta])
  }

  /** `add_group_start`. */
  ghost function GroupAddStart(s: Switch, next: nat, v: nat, m: GMod): Outcome<GStarted>
    requires m.kind < |s.nGroups| == |s.maxGroups|
  {
    if FindGroup(s, m.gid).Some? then Err(GroupExists)
    else if s.nGroups[m.kind] >= s.maxGroups[m.kind] then Err(OutOfGroups)
    else
      var t := s.(groups := s.groups[next := Group(m.gid, m.kind, m.body, Versions(v, None), multiset{})]);
      Ok(GStarted(CountKind(t, m.kind, 1), next + 1, GUndo(None, next)))
  }

  /** The changes of `modify_group_start`: the old group ends, the new one begins and takes over the rules. */
  function SwapGroup(s: Switch, v: nat, old': Id, id: Id, m: GMod): Switch
    requires old' in s.groups && s.groups[old'].kind < |s.nGroups| && m.kind < |s.nGroups|
  {
    var g := s.groups[old'];
    var t := s.(groups := s.groups[old' := g.(versions := g.versions.(remove := Some(v)), members := multiset{})]
                                  [id := Group(m.gid, m.kind, m.body, Versions(v, None), g.members)]);
    if g.kind != m.kind then CountKind(CountKind(t, g.kind, -1), m.kind, 1) else t
  }

  ghost function GroupModifyStart(s: Switch, next: nat, v: nat, m: GMod): Outcome<GStarted>
    requires m.kind < |s.nGroups| == |s.maxGroups|
    requires forall g :: g in s.groups ==> s.groups[g].kind < |s.nGroups|
  {
    match FindGroup(s, m.gid)
    case None => Err(UnknownGroup)
    case Some(g) =>
      if s.groups[g].kind != m.kind && s.nGroups[m.kind] >= s.maxGroups[m.kind] then Err(OutOfGroups)
      else Ok(GStarted(SwapGroup(s, v, g, next, m), next + 1, GUndo(Some(g), next)))
  }

  /** `ofproto_group_mod_start`. */
  ghost function GroupStart(s: Switch, next: nat, v: nat, m: GMod): Outcome<GStarted>
    requires m.kind < |s.nGroups| == |s.maxGroups|
    requires forall g :: g in s.groups ==> s.groups[g].kind < |s.nGroups|
  {
    match m.command
    case AddGroup => GroupAddStart(s, next, v, m)
    case ModifyGroup => GroupModifyStart(s, next, v, m)
    case AddOrModify =>
      if FindGroup(s, m.gid).None? then GroupAddStart(s, next, v, m) else GroupModifyStart(s, next, v, m)
  }

  /** The groups a revert refers to are there. */
  ghost predicate GroupRevertible(s: Switch, u: GUndo) {
    && u.id in s.groups && s.groups[u.id].kind < |s.nGroups|
    && (u.prior.Some? ==> u.prior.value in s.groups && u.prior.value != u.id
                          && s.groups[u.prior.value].kind < |s.nGroups|)
  }

  /** `ofproto_group_mod_revert` of an add or modify. */
  function GroupRevert(s: Switch, u: GUndo): Switch
    requires u.id in s.groups && s.groups[u.id].kind < |s.nGroups|
    requires u.prior.Some? ==> u.prior.value in s.groups && u.prior.value != u.id
                               && s.groups[u.prior.value].kind < |s.nGroups|
  {
    var n := s.groups[u.id];
    var s1 :=
      if u.prior.None? then s else
        var g := s.groups[u.prior.value];
        var t := CountKind(s, g.kind, 1);
        t.(groups := t.groups[u.prior.value := g.(members := n.members, versions := g.versions.(remove := None))]);
    CountKind(s1.(groups := s1.groups - {u.id}), n.kind, -1)
  }

  // ---------- revert ----------

  lemma CountKindTwice(s: Switch, a: nat, b: nat)
    requires a < |s.nGroups| && b < |s.nGroups|
    ensures CountKind(CountKind(s, a, 1), a, -1) == s
    ensures CountKind(CountKind(CountKind(CountKind(s, a, -1), b, 1), a, 1), b, -1) == s
  {
    assert CountKind(CountKind(s, a, 1), a, -1).nGroups == s.nGroups;
    assert CountKind(CountKind(CountKind(CountKind(s, a, -1), b, 1), a, 1), b, -1).nGroups == s.nGroups;
  }

  /** Reverting a group mod undoes its start. */
  lemma GroupRevertUndoesStart(s: Switch, next: nat, v: nat, m: GMod)
    requires Runnable(s, next) && m.kind < |s.nGroups|
    requires GroupStart(s, next, v, m).Ok?
    ensures var st := GroupStart(s, next, v, m).value;
            GroupRevertible(st.s, st.undo) && GroupRevert(st.s, st.undo) == s
  {
    var st := GroupStart(s, next, v, m).value;
    assert next !in s.groups;
    if st.undo.prior.None? {
      CountKindTwice(s, m.kind, m.kind);
      assert GroupRevert(st.s, st.undo).groups == s.groups;
    } else {
      SwapUndone(s, next, v, st.undo.prior.value, m);
    }
  }

  /** A started group mod touches groups and their counters only. */
  lemma GroupStartRunnable(s: Switch, next: nat, v: nat, m: GMod)
    requires Runnable(s, next) && m.kind < |s.nGroups| && GroupStart(s, next, v, m).Ok?
    ensures var st := GroupStart(s, next, v, m).value;
            && Runnable(st.s, st.next) && st.next == next + 1
            && st.s == s.(groups := st.s.groups, nGroups := st.s.nGroups)
  {
  }

  lemma SwapUndone(s: Switch, next: nat, v: nat, g: Id, m: GMod)
    requires g in s.groups && next !in s.groups && s.groups[g].kind < |s.nGroups| && m.kind < |s.nGroups|
    requires s.groups[g].versions.remove.None?
    ensures var t := SwapGroup(s, v, g, next, m);
            GroupRevertible(t, GUndo(Some(g), next)) && GroupRevert(t, GUndo(Some(g), next)) == s
  {
    var t := SwapGroup(s, v, g, next, m);
    var r := GroupRevert(t, GUndo(Some(g), next));
    assert r.groups == s.groups;
    CountKindTwice(s, s.groups[g].kind, m.kind);
    assert r.nGroups == s.nGroups;
  }

  // ---------- plain meaning ----------

  ghost function PlainKind(a: Plain, kind: nat): set<GroupContent> {
    set g | g in a.groups && g.kind == kind
  }

  ghost function WithGid(a: Plain, gid: GroupId): set<GroupContent> {
    set g | g in a.groups && g.gid == gid
  }

  ghost function PlainGroupAdd(a: Plain, maxGroups: seq<nat>, m: GMod): Outcome<Plain>
    requires m.kind < |maxGroups|
  {
    if WithGid(a, m.gid) != {} then Err(GroupExists)
    else if |PlainKind(a, m.kind)| >= maxGroups[m.kind] then Err(OutOfGroups)
    else Ok(a.(groups := a.groups + {GroupContent(m.gid, m.kind, m.body)}))
  }

  ghost function PlainGroupModify(a: Plain, maxGroups: seq<nat>, m: GMod): Outcome<Plain>
    requires m.kind < |maxGroups|
  {
    var hit := WithGid(a, m.gid);
    if hit == {} then Err(UnknownGroup)
    else if (exists g :: g in hit && g.kind != m.kind) && |PlainKind(a, m.kind)| >= maxGroups[m.kind] then Err(OutOfGroups)
    else Ok(a.(groups := a.groups - hit + {GroupContent(m.gid, m.kind, m.body)}))
  }

  ghost function PlainGroupMod(a: Plain, maxGroups: seq<nat>, m: GMod): Outcome<Plain>
    requires m.kind < |maxGroups|
  {
    match m.command
    case AddGroup => PlainGroupAdd(a, maxGroups, m)
    case ModifyGroup => PlainGroupModify(a, maxGroups, m)
    case AddOrModify =>
      if WithGid(a, m.gid) == {} then PlainGroupAdd(a, maxGroups, m) else PlainGroupModify(a, maxGroups, m)
  }

  /** A started group mod is what the plain meaning says, and rules and earlier versions of groups look the same. */
  ghost predicate GroupFaithful(s: Switch, v: nat, r: Outcome<GStarted>, plain: Outcome<Plain>) {
    match r
    case Err(e) => plain == Err(e)
    case Ok(st) =>
      && Inv(st.s, st.next, v)
      && GroupPast(s, st.s, v)
      && plain == Ok(PlainAt(st.s, v))
  }

  ghost predicate GroupPast(s: Switch, t: Switch, v: nat) {
    && (forall w: nat :: View(t, w) == View(s, w))
    && (forall w: nat :: w < v ==> GroupView(t, w) == GroupView(s, w))
    && t.version == s.version && t.tables == s.tables && t.maxGroups == s.maxGroups
  }

  lemma NewestGroups(s: Switch, next: nat, v: nat)
    requires GroupsOk(s, next, v)
    ensures forall g :: g in GroupIds(s, v) <==> g in s.groups && s.groups[g].versions.remove.None?
  {
    forall g | g in s.groups ensures VisibleAt(s.groups[g].versions, v) <==> s.groups[g].versions.remove.None? {
      assert Timely(s.groups[g].versions, v);
    }
  }

  lemma VisibleGidsDiffer(s: Switch, next: nat, v: nat, p: Id)
    requires GroupsOk(s, next, v) && p in GroupIds(s, v)
    ensures forall g :: g in GroupIds(s, v) && g != p ==> s.groups[g].gid != s.groups[p].gid
  {
    forall g | g in GroupIds(s, v) && g != p ensures s.groups[g].gid != s.groups[p].gid {
      assert VisibleAt(s.groups[g].versions, v) && VisibleAt(s.groups[p].versions, v);
    }
  }

  lemma {:induction false} GroupImageSize(s: Switch, ids: set<Id>)
    requires ids <= s.groups.Keys
    requires forall i, j :: i in ids && j in ids && i != j ==> s.groups[i].gid != s.groups[j].gid
    ensures |set g | g in ids :: PlainGroup(s.groups[g])| == |ids|
  {
    var img := set g | g in ids :: PlainGroup(s.groups[g]);
    if ids != {} {
      var x :| x in ids;
      var rest := ids - {x};
      GroupImageSize(s, rest);
      assert img == (set g | g in rest :: PlainGroup(s.groups[g])) + {PlainGroup(s.groups[x])};
    }
  }

  lemma KindSize(s: Switch, next: nat, v: nat, k: nat)
    requires Inv(s, next, v) && k < |s.nGroups|
    ensures s.nGroups[k] == |PlainKind(PlainAt(s, v), k)|
  {
    NewestGroups(s, next, v);
    var ids := OfKind(s, k);
    forall i, j | i in ids && j in ids && i != j ensures s.groups[i].gid != s.groups[j].gid {
      VisibleGidsDiffer(s, next, v, j);
    }
    GroupImageSize(s, ids);
    var img := set g | g in ids :: PlainGroup(s.groups[g]);
    forall x ensures x in img <==> x in PlainKind(PlainAt(s, v), k) {
      if x in img {
        var g :| g in ids && PlainGroup(s.groups[g]) == x;
        assert g in GroupIds(s, v);
      }
      if x in PlainKind(PlainAt(s, v), k) {
        var g :| g in GroupIds(s, v) && PlainGroup(s.groups[g]) == x;
        assert g in ids;
      }
    }
    assert img == PlainKind(PlainAt(s, v), k);
  }

  lemma FindGroupCorresponds(s: Switch, next: nat, v: nat, gid: GroupId)
    requires Inv(s, next, v)
    ensures FindGroup(s, gid).None? ==> WithGid(PlainAt(s, v), gid) == {} && !GroupKnown(s, gid)
    ensures FindGroup(s, gid).Some? ==>
              var g := FindGroup(s, gid).value;
              IsCurrent(s, gid, g) && WithGid(PlainAt(s, v), gid) == {PlainGroup(s.groups[g])}
  {
    NewestGroups(s, next, v);
    match FindGroup(s, gid) {
      case None =>
        forall g | g in s.groups && s.groups[g].gid == gid ensures s.groups[g].versions.remove.Some? {
          assert !IsCurrent(s, gid, g);
        }
        forall x | x in GroupView(s, v) ensures x.gid != gid {
          var g :| g in GroupIds(s, v) && PlainGroup(s.groups[g]) == x;
          assert !IsCurrent(s, gid, g);
        }
      case Some(g) =>
        assert IsCurrent(s, gid, g) && g in GroupIds(s, v);
        VisibleGidsDiffer(s, next, v, g);
        assert PlainGroup(s.groups[g]) in GroupView(s, v);
    }
  }

  // ---------- what a group mod changes ----------

  /** Group `prior`, if any, ends at `v`, and group `id` begins with its members. */
  ghost predicate Regrouped(s: Switch, t: Switch, v: nat, prior: Option<Id>, id: Id, m: GMod) {
    && id !in s.groups && (prior.Some? ==> IsCurrent(s, m.gid, prior.value))
    && t.groups.Keys == s.groups.Keys + {id}
    && t.groups[id] == Group(m.gid, m.kind, m.body, Versions(v, None),
                             if prior.Some? then s.groups[prior.value].members else multiset{})
    && (forall g :: g in s.groups ==>
          t.groups[g] == if prior == Some(g)
                         then s.groups[g].(versions := s.groups[g].versions.(remove := Some(v)), members := multiset{})
                         else s.groups[g])
    && t == s.(groups := t.groups, nGroups := t.nGroups)
    && |t.nGroups| == |s.nGroups|
    && forall k :: 0 <= k < |s.nGroups| ==>
         t.nGroups[k] == s.nGroups[k] + (if k == m.kind then 1 else 0)
                         - (if prior.Some? && k == s.groups[prior.value].kind then 1 else 0)
  }

  lemma RegroupedKeepsGroupsOk(s: Switch, t: Switch, next: nat, v: nat, prior: Option<Id>, m: GMod)
    requires GroupsOk(s, next, v) && Regrouped(s, t, v, prior, next, m) && m.kind < |s.nGroups|
    requires prior.None? ==> !GroupKnown(s, m.gid)
    ensures GroupsOk(t, next + 1, v)
  {
    NewestGroups(s, next, v);
    RegroupedApart(s, t, next, v, prior, m);
    forall k | 0 <= k < |t.nGroups| ensures t.nGroups[k] == |OfKind(t, k)| {
      KindCount(s, t, next, v, prior, m, k);
    }
    forall g | g in t.groups ensures g < next + 1 && Timely(t.groups[g].versions, v) && t.groups[g].kind < |t.nGroups| {
      if g != next { assert Timely(s.groups[g].versions, v); }
    }
  }

  lemma RegroupedApart(s: Switch, t: Switch, next: nat, v: nat, prior: Option<Id>, m: GMod)
    requires GroupsOk(s, next, v) && Regrouped(s, t, v, prior, next, m)
    requires prior.None? ==> !GroupKnown(s, m.gid)
    ensures forall g, h :: g in t.groups && h in t.groups && g != h && t.groups[g].gid == t.groups[h].gid
              ==> NeverTogether(t.groups[g].versions, t.groups[h].versions)
  {
    forall g, h | g in t.groups && h in t.groups && g != h && t.groups[g].gid == t.groups[h].gid
      ensures NeverTogether(t.groups[g].versions, t.groups[h].versions)
    {
      if g == next { NewGroupAlone(s, t, next, v, prior, m, h); }
      else if h == next { NewGroupAlone(s, t, next, v, prior, m, g); }
      else {
        assert NeverTogether(s.groups[g].versions, s.groups[h].versions);
        forall w: nat ensures !(VisibleAt(t.groups[g].versions, w) && VisibleAt(t.groups[h].versions, w)) {
          assert VisibleAt(t.groups[g].versions, w) ==> VisibleAt(s.groups[g].versions, w);
          assert VisibleAt(t.groups[h].versions, w) ==> VisibleAt(s.groups[h].versions, w);
        }
      }
    }
  }

  lemma KindCount(s: Switch, t: Switch, next: nat, v: nat, prior: Option<Id>, m: GMod, k: nat)
    requires Regrouped(s, t, v, prior, next, m)
    ensures |OfKind(t, k)| == |OfKind(s, k)| + (if k == m.kind then 1 else 0)
                              - (if prior.Some? && k == s.groups[prior.value].kind then 1 else 0)
  {
    var a, b := OfKind(s, k), OfKind(t, k);
    forall x ensures x in b <==> (x in a && prior != Some(x)) || (x == next && k == m.kind) {
      if x in s.groups && prior != Some(x) { assert t.groups[x] == s.groups[x]; }
    }
    SwapSize(a, b, prior, if k == m.kind then Some(next) else None);
  }

  lemma NewGroupAlone(s: Switch, t: Switch, next: nat, v: nat, prior: Option<Id>, m: GMod, h: Id)
    requires GroupsOk(s, next, v) && Regrouped(s, t, v, prior, next, m)
    requires prior.None? ==> !GroupKnown(s, m.gid)
    requires h in s.groups && s.groups[h].gid == m.gid
    ensures NeverTogether(t.groups[h].versions, t.groups[next].versions)
    ensures NeverTogether(t.groups[next].versions, t.groups[h].versions)
  {
    NewestGroups(s, next, v);
    assert Timely(s.groups[h].versions, v);
    if prior.Some? && prior != Some(h) {
      assert prior.value in GroupIds(s, v);
      VisibleGidsDiffer(s, next, v, prior.value);
    }
    assert prior != Some(h) ==> s.groups[h].versions.remove.Some?;
  }

  lemma RegroupedAgrees(s: Switch, t: Switch, next: nat, v: nat, prior: Option<Id>, m: GMod)
    requires Inv(s, next, v) && Regrouped(s, t, v, prior, next, m)
    requires prior.None? ==> !GroupKnown(s, m.gid)
    ensures forall x: nat :: Agrees(t, x)
  {
    forall x: nat ensures Agrees(t, x) {
      assert Agrees(s, x);
      if prior.None? && x in s.rules && s.rules[x].state.Inserted? {
        assert ActionsOk(s, s.rules[x].c.actions);
        assert m.gid !in s.rules[x].c.actions.groups;
      }
    }
  }

  lemma RegroupedPast(s: Switch, t: Switch, next: nat, v: nat, prior: Option<Id>, m: GMod)
    requires Regrouped(s, t, v, prior, next, m)
    ensures GroupPast(s, t, v)
  {
    forall w: nat ensures View(t, w) == View(s, w) { assert ViewIds(t, w) == ViewIds(s, w); }
    forall w: nat | w < v ensures GroupView(t, w) == GroupView(s, w) {
      assert GroupIds(t, w) == GroupIds(s, w);
      forall g | g in GroupIds(s, w) ensures PlainGroup(t.groups[g]) == PlainGroup(s.groups[g]) {}
    }
  }

  lemma RegroupedIds(s: Switch, t: Switch, next: nat, v: nat, prior: Option<Id>, m: GMod)
    requires GroupsOk(s, next, v) && Regrouped(s, t, v, prior, next, m)
    ensures GroupIds(t, v) == GroupIds(s, v) - (if prior.Some? then {prior.value} else {}) + {next}
    ensures forall g :: g in GroupIds(s, v) && prior != Some(g) ==> t.groups[g] == s.groups[g]
    ensures prior.Some? ==> prior.value in GroupIds(s, v)
  {
    NewestGroups(s, next, v);
  }

  lemma RegroupedNewest(s: Switch, t: Switch, next: nat, v: nat, prior: Option<Id>, m: GMod)
    requires Inv(s, next, v) && Regrouped(s, t, v, prior, next, m)
    ensures GroupView(t, v) == GroupView(s, v) - (if prior.Some? then {PlainGroup(s.groups[prior.value])} else {})
                               + {GroupContent(m.gid, m.kind, m.body)}
  {
    RegroupedIds(s, t, next, v, prior, m);
    if prior.Some? { SwappedNewest(s, t, next, v, prior.value, m); } else { ViewsDiffer(s, t, v, {}, next); }
  }

  lemma SwappedNewest(s: Switch, t: Switch, next: nat, v: nat, p: Id, m: GMod)
    requires Inv(s, next, v) && Regrouped(s, t, v, Some(p), next, m) && p in GroupIds(s, v)
    requires GroupIds(t, v) == GroupIds(s, v) - {p} + {next}
    ensures GroupView(t, v) == GroupView(s, v) - {PlainGroup(s.groups[p])} + {GroupContent(m.gid, m.kind, m.body)}
  {
    VisibleGidsDiffer(s, next, v, p);
    ViewsDiffer(s, t, v, {p}, next);
    assert (set g | g in {p} :: PlainGroup(s.groups[g])) == {PlainGroup(s.groups[p])};
  }

  /** If the visible groups differ in those `gone` and in the one that has come, so do the views. */
  lemma ViewsDiffer(s: Switch, t: Switch, v: nat, gone: set<Id>, id: Id)
    requires gone <= GroupIds(s, v) && id in GroupIds(t, v) && id !in GroupIds(s, v) - gone
    requires forall g :: g in GroupIds(s, v) && g !in gone ==> g in GroupIds(t, v) && PlainGroup(t.groups[g]) == PlainGroup(s.groups[g])
    requires forall g :: g in GroupIds(t, v) && g != id ==> g in GroupIds(s, v) && g !in gone && PlainGroup(t.groups[g]) == PlainGroup(s.groups[g])
    requires forall g, h :: g in GroupIds(s, v) && h in gone && g !in gone ==> s.groups[g].gid != s.groups[h].gid
    ensures GroupView(t, v) == GroupView(s, v) - (set g | g in gone :: PlainGroup(s.groups[g])) + {PlainGroup(t.groups[id])}
  {
    var out := set g | g in gone :: PlainGroup(s.groups[g]);
    forall y | y in GroupView(s, v) && y !in out ensures y in GroupView(t, v) {
      var g :| g in GroupIds(s, v) && PlainGroup(s.groups[g]) == y;
      assert g in GroupIds(t, v) && PlainGroup(t.groups[g]) == y;
    }
    forall y | y in GroupView(t, v) && y != PlainGroup(t.groups[id]) ensures y in GroupView(s, v) && y !in out {
      var g :| g in GroupIds(t, v) && PlainGroup(t.groups[g]) == y;
      assert g in GroupIds(s, v) && PlainGroup(s.groups[g]) == y;
    }
  }

  lemma RegroupedFaithful(s: Switch, t: Switch, next: nat, v: nat, prior: Option<Id>, m: GMod)
    requires Inv(s, next, v) && Regrouped(s, t, v, prior, next, m) && m.kind < |s.nGroups|
    requires prior.None? ==> !GroupKnown(s, m.gid)
    ensures var gone := if prior.Some? then {PlainGroup(s.groups[prior.value])} else {};
            GroupFaithful(s, v, Ok(GStarted(t, next + 1, GUndo(prior, next))),
              Ok(PlainAt(s, v).(groups := GroupView(s, v) - gone + {GroupContent(m.gid, m.kind, m.body)})))
  {
    RegroupedKeepsGroupsOk(s, t, next, v, prior, m);
    RegroupedAgrees(s, t, next, v, prior, m);
    RegroupedPast(s, t, next, v, prior, m);
    RegroupedNewest(s, t, next, v, prior, m);
    RegroupedRules(s, t, next, v, prior, m);
  }

  lemma RegroupedRules(s: Switch, t: Switch, next: nat, v: nat, prior: Option<Id>, m: GMod)
    requires Inv(s, next, v) && Regrouped(s, t, v, prior, next, m)
    ensures RulesOk(t, v) && CountsOk(t) && TablesInRange(t)
    ensures forall id: nat :: id >= next + 1 ==> id !in t.rules
  {
    forall k | 0 <= k < |t.nFlows| ensures t.nFlows[k] == |InTable(t, k)| { assert InTable(t, k) == InTable(s, k); }
    forall gid | GroupKnown(s, gid) ensures GroupKnown(t, gid) {
      var g :| g in s.groups && s.groups[g].gid == gid && s.groups[g].versions.remove.None?;
      if prior == Some(g) { assert IsCurrent(t, gid, next); } else { assert IsCurrent(t, gid, g); }
    }
    forall x | x in t.rules && t.rules[x].state.Inserted? ensures ActionsOk(t, t.rules[x].c.actions) {
      assert ActionsOk(s, s.rules[x].c.actions);
    }
  }

  lemma GroupAddFaithful(s: Switch, next: nat, v: nat, m: GMod)
    requires Inv(s, next, v) && m.kind < |s.nGroups|
    ensures GroupFaithful(s, v, GroupAddStart(s, next, v, m), PlainGroupAdd(PlainAt(s, v), s.maxGroups, m))
  {
    FindGroupCorresponds(s, next, v, m.gid);
    KindSize(s, next, v, m.kind);
    if FindGroup(s, m.gid).None? && s.nGroups[m.kind] < s.maxGroups[m.kind] {
      var st := GroupAddStart(s, next, v, m).value;
      AddIsRegrouped(s, next, v, m);
      RegroupedFaithful(s, st.s, next, v, None, m);
      assert GroupView(s, v) - {} + {GroupContent(m.gid, m.kind, m.body)}
          == GroupView(s, v) + {GroupContent(m.gid, m.kind, m.body)};
    }
  }

  lemma AddIsRegrouped(s: Switch, next: nat, v: nat, m: GMod)
    requires m.kind < |s.nGroups| && next !in s.groups
    ensures var t := s.(groups := s.groups[next := Group(m.gid, m.kind, m.body, Versions(v, None), multiset{})]);
            Regrouped(s, CountKind(t, m.kind, 1), v, None, next, m)
  {
  }

  lemma SwapIsRegrouped(s: Switch, next: nat, v: nat, g: Id, m: GMod)
    requires m.kind < |s.nGroups| && next !in s.groups && IsCurrent(s, m.gid, g) && s.groups[g].kind < |s.nGroups|
    ensures Regrouped(s, SwapGroup(s, v, g, next, m), v, Some(g), next, m)
  {
  }

  lemma GroupModifyFaithful(s: Switch, next: nat, v: nat, m: GMod)
    requires Inv(s, next, v) && m.kind < |s.nGroups|
    ensures GroupFaithful(s, v, GroupModifyStart(s, next, v, m), PlainGroupModify(PlainAt(s, v), s.maxGroups, m))
  {
    FindGroupCorresponds(s, next, v, m.gid);
    KindSize(s, next, v, m.kind);
    if FindGroup(s, m.gid).Some? {
      var g := FindGroup(s, m.gid).value;
      var hit := WithGid(PlainAt(s, v), m.gid);
      assert (exists x :: x in hit && x.kind != m.kind) <==> s.groups[g].kind != m.kind by {
        assert PlainGroup(s.groups[g]) in hit;
      }
      SwapFaithful(s, next, v, g, m);
    }
  }

  lemma SwapFaithful(s: Switch, next: nat, v: nat, g: Id, m: GMod)
    requires Inv(s, next, v) && m.kind < |s.nGroups| && IsCurrent(s, m.gid, g)
    ensures GroupFaithful(s, v, Ok(GStarted(SwapGroup(s, v, g, next, m), next + 1, GUndo(Some(g), next))),
              Ok(PlainAt(s, v).(groups := GroupView(s, v) - {PlainGroup(s.groups[g])} + {GroupContent(m.gid, m.kind, m.body)})))
  {
    SwapIsRegrouped(s, next, v, g, m);
    RegroupedFaithful(s, SwapGroup(s, v, g, next, m), next, v, Some(g), m);
  }

  /** Every group mod means what its plain meaning says, in the version it is started at. */
  lemma GroupStartFaithful(s: Switch, next: nat, v: nat, m: GMod)
    requires Inv(s, next, v) && m.kind < |s.nGroups|
    ensures GroupFaithful(s, v, GroupStart(s, next, v, m), PlainGroupMod(PlainAt(s, v), s.maxGroups, m))
  {
    FindGroupCorresponds(s, next, v, m.gid);
    GroupAddFaithful(s, next, v, m);
    GroupModifyFaithful(s, next, v, m);
  }
}
