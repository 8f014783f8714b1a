/** The switch as the program keeps it: an object whose methods change its tables, indexes and counters in place.
    Each method is tied to the function on switch values of the same name, about which the laws are proved. */
module OfprotoSwitch {
  import opened FlowTable
  import opened FlowMod
  import opened FlowModRevert
  import opened FlowModInv
  import opened FlowSpec
  import opened FlowRefine
  import opened GroupMod
  import opened Bundle
  import opened FlowShape
  import opened FlowSound
  import opened BundleFailure
  import opened BundleKeeps
  import opened CookieIndex
  import opened OfprotoLists
  import FlowRuns

  /** The order of the eviction heaps is not part of this model: the rule they offer first is some rule in them. */
  type HeapOrder = h: (Switch, nat) -> Option<Id> | OffersVictims(h) ghost witness SomeVictim

  ghost predicate OffersVictims(h: (Switch, nat) -> Option<Id>) {
    forall s: Switch, t: nat :: t < |s.tables| ==> h(s, t) == Victim(s, t)
  }

  ghost function SomeVictim(s: Switch, t: nat): Option<Id> {
    if t < |s.tables| then Victim(s, t) else None
  }

  class Ofproto {
    const tables: seq<TableConfig>
    const maxGroups: seq<nat>
    const hash: bv64 -> nat
    const heapTop: HeapOrder

    var rules: map<Id, Rule>
    var buckets: Buckets
    var heaps: seq<seq<Id>>
    var nFlows: seq<int>
    var groups: map<Id, GroupObj>
    var nGroups: seq<int>
    var version: nat
    /** The next unused identity of a rule or group. */
    var next: nat

    constructor (t: seq<TableConfig>, g: seq<nat>, h: bv64 -> nat, order: HeapOrder)
      ensures Valid() && Abs() == FlowRuns.Fresh(t, g) && next == 0
    {
      tables, maxGroups, hash, heapTop := t, g, h, order;
      rules, buckets, heaps, nFlows := map[], map[], seq(|t|, _ => []), seq(|t|, _ => 0);
      groups, nGroups, version, next := map[], seq(|g|, _ => 0), 0, 0;
      new;
      assert AllGroups(groups) == map[];
      EmptyHeaps(heaps);
    }

    /** The switch whose indexes are what the lists hold. */
    function Abs(): Switch
      reads this
    {
      Switch(rules, CookiesOf(buckets), SumOf(heaps), nFlows, AllGroups(groups), nGroups, tables, maxGroups, version)
    }

    /** The lists are in order. */
    ghost predicate Valid()
      reads this
    {
      && |heaps| == |tables| == |nFlows|
      && (forall id :: id in rules ==> rules[id].c.key.table < |tables|)
      && BucketsOk(buckets, rules, hash) && HeapsOk(heaps, rules) && OneToANumber(groups)
    }

    /** Identities from `n` on are nowhere. */
    ghost predicate UnusedFrom(n: nat)
      reads this
    {
      forall id: nat :: id >= n ==> id !in rules && id !in SumOf(heaps)
    }

    // ---------- one entry in one list ----------

    /** `cookies_insert`. */
    method CookieInsert(id: Id)
      modifies this`buckets
      requires Valid() && id in rules
      ensures Valid() && Abs() == old(Abs()).(cookies := old(Abs()).cookies + {id})
    {
      var h := hash(rules[id].c.cookie);
      HashedCookies(buckets, h, id);
      buckets := Hashed(buckets, h, id);
    }

    /** `cookies_remove`. */
    method CookieRemove(id: Id)
      modifies this`buckets
      requires Valid() && id in rules
      ensures Valid() && Abs() == old(Abs()).(cookies := old(Abs()).cookies - {id})
    {
      var h := hash(rules[id].c.cookie);
      UnhashedCookies(buckets, h, id);
      buckets := Unhashed(buckets, h, id);
    }

    /** `eviction_group_add_rule`. */
    method HeapInsert(id: Id)
      modifies this`heaps
      requires Valid() && id in rules
      ensures Valid()
      ensures var s := old(Abs()); Abs() == s.(evictable := Joined(s.evictable, tables, id, rules[id].c))
    {
      var t := rules[id].c.key.table;
      if Evictable(tables, rules[id].c) {
        HeapedSum(heaps, t, id);
        heaps := heaps[t := heaps[t] + [id]];
      }
    }

    /** `eviction_group_remove_rule`. */
    method HeapRemove(id: Id)
      modifies this`heaps
      requires Valid() && id in rules
      ensures Valid() && Abs() == old(Abs()).(evictable := old(Abs()).evictable - multiset{id})
    {
      var t := rules[id].c.key.table;
      UnheapedSum(heaps, t, id);
      var l := TakeFromHeap(heaps[t], id);
      RemovedOnce(heaps[t], id);
      heaps := heaps[t := l];
    }

    /** Takes the first entry of a rule out of a heap. */
    method TakeFromHeap(l: seq<Id>, id: Id) returns (r: seq<Id>)
      ensures r == RemoveFirst(l, id)
      ensures forall x :: x in r ==> x in l
    {
      var k := 0;
      while k < |l| && l[k] != id
        invariant 0 <= k <= |l| && id !in l[..k]
      {
        k := k + 1;
      }
      if k == |l| {
        assert l[..k] == l;
        NothingRemoved(l, id);
        return l;
      }
      RemovedAt(l, id, k);
      r := l[..k] + l[k + 1..];
    }

    /** `ofproto_group_lookup` in the newest version. */
    method CurrentGroup(gid: GroupId) returns (r: Option<Id>)
      ensures r.None? ==> forall g :: !Holds(groups, gid, g)
      ensures r.Some? ==> Holds(groups, gid, r.value)
    {
      r := None;
      var todo := groups.Keys;
      while todo != {} && r.None?
        invariant todo <= groups.Keys
        invariant r.None? ==> forall g :: g in groups && g !in todo ==> !Holds(groups, gid, g)
        invariant r.Some? ==> Holds(groups, gid, r.value)
        decreases todo
      {
        var g :| g in todo;
        todo := todo - {g};
        if groups[g].gid == gid && groups[g].versions.remove.None? { r := Some(g); }
      }
    }

    /** `group_add_rule` for each group action; `found` says whether there was every group, as the code asserts. */
    method JoinGroups(gids: seq<GroupId>, id: Id) returns (found: bool)
      modifies this`groups
      requires OneToANumber(groups)
      ensures OneToANumber(groups) && AllGroups(groups) == Enlist(AllGroups(old(groups)), multiset(gids), id)
      ensures found <==> HasAll(old(groups), gids)
    {
      EnlistNothing(AllGroups(groups), id);
      found := true;
      for i := 0 to |gids|
        invariant OneToANumber(groups) && SameNumbers(old(groups), groups)
        invariant AllGroups(groups) == Enlist(AllGroups(old(groups)), multiset(gids[..i]), id)
        invariant found <==> HasAll(old(groups), gids[..i])
      {
        assert gids[..i + 1] == gids[..i] + [gids[i]];
        EnlistInParts(AllGroups(old(groups)), multiset(gids[..i]), multiset{gids[i]}, id);
        var has := JoinGroup(gids[i], id);
        found := found && has;
      }
      assert gids[..|gids|] == gids;
    }

    /** `group_add_rule`. */
    method JoinGroup(gid: GroupId, id: Id) returns (found: bool)
      modifies this`groups
      requires OneToANumber(groups)
      ensures OneToANumber(groups) && AllGroups(groups) == Enlist(AllGroups(old(groups)), multiset{gid}, id)
      ensures SameNumbers(old(groups), groups) && (found <==> Has(old(groups), gid))
    {
      var g := CurrentGroup(gid);
      found := g.Some?;
      if found {
        EntersGroup(groups, gid, g.value, id);
        StillOneToANumber(groups, g.value, id);
        StillNumbered(groups, g.value, groups[g.value].rules + [id]);
        groups := Joined1(groups, g.value, id);
      } else {
        NoSuchGroup(groups, gid, id);
      }
    }

    /** `group_remove_rule` for each group action; `found` says whether there was every group, as the code asserts. */
    method LeaveGroups(gids: seq<GroupId>, id: Id) returns (found: bool)
      modifies this`groups
      requires OneToANumber(groups)
      ensures OneToANumber(groups) && AllGroups(groups) == Delist(AllGroups(old(groups)), multiset(gids), id)
      ensures found <==> HasAll(old(groups), gids)
    {
      DelistNothing(AllGroups(groups), id);
      found := true;
      for i := 0 to |gids|
        invariant OneToANumber(groups) && SameNumbers(old(groups), groups)
        invariant AllGroups(groups) == Delist(AllGroups(old(groups)), multiset(gids[..i]), id)
        invariant found <==> HasAll(old(groups), gids[..i])
      {
        assert gids[..i + 1] == gids[..i] + [gids[i]];
        DelistInParts(AllGroups(old(groups)), multiset(gids[..i]), multiset{gids[i]}, id);
        var has := LeaveGroup(gids[i], id);
        found := found && has;
      }
      assert gids[..|gids|] == gids;
    }

    /** `group_remove_rule`. */
    method LeaveGroup(gid: GroupId, id: Id) returns (found: bool)
      modifies this`groups
      requires OneToANumber(groups)
      ensures OneToANumber(groups) && AllGroups(groups) == Delist(AllGroups(old(groups)), multiset{gid}, id)
      ensures SameNumbers(old(groups), groups) && (found <==> Has(old(groups), gid))
    {
      var g := CurrentGroup(gid);
      found := g.Some?;
      if found {
        LeavesGroup(groups, gid, g.value, id);
        StillOneToANumber(groups, g.value, id);
        var l := TakeFromHeap(groups[g.value].rules, id);
        StillNumbered(groups, g.value, l);
        groups := groups[g.value := groups[g.value].(rules := l)];
      } else {
        NoSuchGroup(groups, gid, id);
      }
    }

    // ---------- one rule ----------

    method JoinItsGroups(id: Id) returns (found: bool)
      modifies this`groups
      requires Valid() && id in rules
      ensures Valid() && (found <==> ActionsOk(old(Abs()), rules[id].c.actions))
      ensures var s := old(Abs()); Abs() == s.(groups := Enlist(s.groups, GroupsOf(rules[id].c), id))
    {
      OkIfHasAll(groups, Abs(), rules[id].c.actions);
      found := JoinGroups(rules[id].c.actions.groups, id);
    }

    method LeaveItsGroups(id: Id) returns (found: bool)
      modifies this`groups
      requires Valid() && id in rules
      ensures Valid() && (found <==> ActionsOk(old(Abs()), rules[id].c.actions))
      ensures var s := old(Abs()); Abs() == s.(groups := Delist(s.groups, GroupsOf(rules[id].c), id))
    {
      OkIfHasAll(groups, Abs(), rules[id].c.actions);
      found := LeaveGroups(rules[id].c.actions.groups, id);
    }

    /** Changes a rule in nothing that an index goes by. */
    method SetRule(id: Id, r: Rule)
      modifies this`rules
      requires Valid() && id in rules && r.c == rules[id].c
      ensures Valid() && Abs() == old(Abs()).(rules := old(Abs()).rules[id := r])
    {
      rules := rules[id := r];
    }

    /** `ofproto_rule_insert__`; `asserted` says whether what the code asserts is the case. */
    method RuleInsert(id: Id) returns (asserted: bool)
      modifies this
      requires Valid() && id in rules
      ensures Valid() && next == old(next)
      ensures Abs() == Inserting(old(Abs()), id)
      ensures asserted <==> old(rules[id].state).Initialized? && ActionsOk(old(Abs()), old(rules[id].c.actions))
    {
      asserted := rules[id].state.Initialized?;
      CookieInsert(id);
      HeapInsert(id);
      SameGroupsKnown(old(Abs()), Abs(), rules[id].c.actions);
      var found := JoinItsGroups(id);
      SetRule(id, rules[id].(state := Inserted));
      asserted := asserted && found;
    }

    /** `ofproto_rule_remove__`. */
    method RuleRemove(id: Id) returns (asserted: bool)
      modifies this
      requires Valid() && id in rules
      ensures Valid() && next == old(next)
      ensures Abs() == Removing(old(Abs()), id)
      ensures asserted <==> old(rules[id].state).Inserted? && ActionsOk(old(Abs()), old(rules[id].c.actions))
    {
      asserted := rules[id].state.Inserted?;
      CookieRemove(id);
      HeapRemove(id);
      SameGroupsKnown(old(Abs()), Abs(), rules[id].c.actions);
      var found := LeaveItsGroups(id);
      SetRule(id, rules[id].(state := Removed));
      asserted := asserted && found;
    }

    /** `cls_rule_make_invisible_in_version` and `ofproto_rule_remove__`. */
    method TakeOut(id: Id, v: nat)
      modifies this
      requires Valid() && id in rules
      ensures Valid() && Abs() == Out(old(Abs()), id, v) && next == old(next)
    {
      OutInParts(Abs(), id, v);
      SetRule(id, rules[id].(versions := rules[id].versions.(remove := Some(v))));
      var _ := RuleRemove(id);
    }

    /** `ofproto_rule_insert__` and `cls_rule_restore_visibility`. */
    method PutBack(id: Id)
      modifies this
      requires Valid() && id in rules
      ensures Valid() && Abs() == Back(old(Abs()), id) && next == old(next)
    {
      BackInParts(Abs(), id);
      var _ := RuleInsert(id);
      SetRule(id, rules[id].(versions := rules[id].versions.(remove := None)));
    }

    /** `ofproto_rule_insert__` and `classifier_insert`. */
    method PutIn(id: Id, c: Content, v: nat)
      modifies this
      requires Valid() && c.key.table < |tables| && UnusedFrom(id)
      ensures Valid() && UnusedFrom(id + 1) && Abs() == In(old(Abs()), id, c, v) && next == old(next)
    {
      InInParts(Abs(), id, c, v);
      AddRule(id, Rule(c, Versions(v, None), Initialized, false));
      var _ := RuleInsert(id);
    }

    /** A new rule, in no index yet. */
    method AddRule(id: Id, r: Rule)
      modifies this`rules
      requires Valid() && r.c.key.table < |tables| && UnusedFrom(id)
      ensures Valid() && Abs() == old(Abs()).(rules := old(Abs()).rules[id := r])
    {
      NewRuleInNone(buckets, heaps, rules, hash, id, r);
      rules := rules[id := r];
    }

    /** `classifier_remove` and `ofproto_rule_remove__`. */
    method TakeAway(id: Id)
      modifies this
      requires Valid() && id in rules
      ensures Valid() && Abs() == Drop(old(Abs()), id) && next == old(next)
    {
      DropInParts(Abs(), id);
      var _ := RuleRemove(id);
      ForgetRule(id);
    }

    method ForgetRule(id: Id)
      modifies this`rules
      requires Valid() && id in rules && id !in CookiesOf(buckets)
      ensures Valid() && Abs() == old(Abs()).(rules := old(Abs()).rules - {id})
    {
      rules := rules - {id};
    }

    method CountFlow(table: nat, delta: int)
      modifies this`nFlows
      requires Valid() && table < |nFlows|
      ensures Valid() && Abs() == Count(old(Abs()), table, delta)
    {
      nFlows := nFlows[table := nFlows[table] + delta];
    }

    /** `replace_rule_start`. */
    method ReplaceRuleStart(v: nat, prior: Option<Id>, c: Content, id: Id)
      modifies this
      requires Valid() && UnusedFrom(id) && c.key.table < |tables| && (prior.Some? ==> prior.value in rules)
      ensures Valid() && UnusedFrom(id + 1) && Abs() == Replace(old(Abs()), v, prior, c, id) && next == old(next)
    {
      if prior.Some? {
        TakeOut(prior.value, v);
      } else {
        CountFlow(c.key.table, 1);
      }
      PutIn(id, c, v);
    }

    /** `replace_rule_revert`. */
    method ReplaceRuleRevert(prior: Option<Id>, id: Id)
      modifies this
      requires Valid() && id in rules
      requires prior.Some? ==> prior.value in rules && prior.value != id
      ensures Valid() && Abs() == Unreplace(old(Abs()), prior, id) && next == old(next)
    {
      if prior.Some? {
        var p := prior.value;
        if rules[p].evicted { HeapInsert(p); }
        PutBack(p);
      } else {
        CountFlow(rules[id].c.key.table, -1);
      }
      TakeAway(id);
    }

    // ---------- lookups ----------

    /** `classifier_find_rule_exactly`. */
    method FindRule(key: Key, v: nat) returns (r: Option<Id>)
      ensures r == FindExactly(Abs(), key, v)
    {
      r := None;
      var todo := rules.Keys;
      while todo != {}
        invariant todo <= rules.Keys
        invariant r.None? ==> forall id :: id in rules && id !in todo ==> !IsExactly(Abs(), key, v, id)
        invariant r.Some? ==> IsExactly(Abs(), key, v, r.value)
        invariant r.Some? ==> forall id :: id in rules && id !in todo && IsExactly(Abs(), key, v, id) ==> r.value <= id
        decreases todo
      {
        var id :| id in todo;
        todo := todo - {id};
        if rules[id].c.key == key && VisibleAt(rules[id].versions, v) && (r.None? || id < r.value) { r := Some(id); }
      }
      TheFirst(Abs(), key, v, r);
    }

    /** `classifier_rule_overlaps`. */
    method RuleOverlaps(c: Content, v: nat) returns (r: bool)
      ensures r == Overlaps(Abs(), c, v)
    {
      r := false;
      var todo := rules.Keys;
      while todo != {} && !r
        invariant todo <= rules.Keys
        invariant !r ==> forall id :: id in rules && id !in todo ==>
                           !(VisibleAt(rules[id].versions, v) && OverlapsContent(c, rules[id].c))
        invariant r ==> Overlaps(Abs(), c, v)
        decreases todo
      {
        var id :| id in todo;
        todo := todo - {id};
        r := VisibleAt(rules[id].versions, v) && OverlapsContent(c, rules[id].c);
      }
    }

    /** `ofproto_group_lookup` in the newest version. */
    method GroupLookup(gid: GroupId) returns (r: Option<Id>)
      requires Valid()
      ensures r == FindGroup(Abs(), gid)
    {
      r := CurrentGroup(gid);
      TheOnlyGroup(groups, Abs(), gid, r);
    }

    /** `ofproto_check_ofpacts`, as far as groups go. */
    method CheckActions(a: Actions) returns (ok: bool)
      requires Valid()
      ensures ok == ActionsOk(Abs(), a)
    {
      ok := true;
      for i := 0 to |a.groups|
        invariant ok == forall gid :: gid in a.groups[..i] ==> GroupKnown(Abs(), gid)
      {
        assert a.groups[..i + 1] == a.groups[..i] + [a.groups[i]];
        var g := CurrentGroup(a.groups[i]);
        KnownIfHeld(groups, Abs(), a.groups[i], g);
        ok := ok && g.Some?;
      }
      assert a.groups[..|a.groups|] == a.groups;
    }

    /** What the search comes across: one bucket of the cookie index if the whole cookie is given, else the tables
        visited. */
    predicate Met(cr: Criteria, id: Id)
      reads this
    {
      id in rules && if cr.mask == ALL_ONES then id in Bucket(buckets, hash(cr.cookie)) else Visited(tables, cr, rules[id].c.key.table)
    }

    /** `collect_rules_loose` and `collect_rules_strict`. */
    method CollectMatching(cr: Criteria) returns (r: Outcome<seq<Id>>)
      requires Valid() && forall id :: id in rules ==> id < next
      ensures r == CollectRules(Abs(), cr, next)
    {
      if cr.table.Some? && cr.table.value >= |tables| { return Err(BadTableId); }
      var found: seq<Id>, nReadonly := CollectBelow(cr);
      ReadonlyAll(Abs(), cr, next);
      if found == [] && nReadonly > 0 { return Err(Eperm); }
      return Ok(found);
    }

    /** The search itself; `collect_rule` sorts out what it meets. */
    method CollectBelow(cr: Criteria) returns (found: seq<Id>, nReadonly: nat)
      requires Valid()
      ensures found == Collect(Abs(), cr, next) && (nReadonly > 0 <==> ReadonlyBelow(Abs(), cr, next))
    {
      found, nReadonly := [], 0;
      for id := 0 to next
        invariant found == Collect(Abs(), cr, id)
        invariant nReadonly > 0 <==> ReadonlyBelow(Abs(), cr, id)
      {
        CollectNext(Abs(), cr, id);
        MetIsEncountered(cr, id);
        if Met(cr, id) && Fits(cr, rules[id].c) && Collectable(cr, rules[id].c) && rules[id].versions.remove.None? {
          if Writable(tables, cr, rules[id].c) {
            found := found + [id];
          } else {
            nReadonly := nReadonly + 1;
          }
        }
      }
    }

    /** The bucket of the given cookie holds every rule with that cookie that any bucket holds. */
    lemma MetIsEncountered(cr: Criteria, id: Id)
      requires Valid()
      ensures Met(cr, id) && Fits(cr, rules[id].c) && Collectable(cr, rules[id].c) && rules[id].versions.remove.None?
              <==> Selected(Abs(), cr, id)
    {
      if id in rules && cr.mask == ALL_ONES && Collectable(cr, rules[id].c) {
        FullMaskMeansEqual(rules[id].c.cookie, cr.cookie);
        var h := hash(cr.cookie);
        if id in CookiesOf(buckets) {
          var g :| g in buckets && id in buckets[g];
          assert g == h;
        }
        if id in Bucket(buckets, h) { assert h in buckets && id in buckets[h]; }
      }
    }

    /** `choose_rule_to_evict`. */
    method ChooseRuleToEvict(t: nat) returns (r: Option<Id>)
      requires Valid() && t < |tables|
      ensures r == Victim(Abs(), t)
      ensures r.Some? ==> r.value in heaps[t]
    {
      assert OffersVictims(heapTop);
      r := if tables[t].eviction then heapTop(Abs(), t) else None;
      if r.Some? {
        assert CanBeVictim(Abs(), t, r.value);
        InSomeHeap(heaps, r.value);
      }
    }

    // ---------- flow mods ----------

    /** `add_flow_start`. */
    method AddFlowStart(v: nat, c: Content, isAdd: bool) returns (r: Outcome<Undo>)
      modifies this
      requires Valid() && Orderly(Abs(), next, v) && c.key.table < |tables|
      ensures Valid() && Tells(AddStart(old(Abs()), old(next), v, c, isAdd), r, old(Abs()), old(next), Abs(), next)
    {
      var table := c.key.table;
      var ok := CheckActions(c.actions);
      if !ok { return Err(BadOutGroup); }
      UnusedBeyond(v);
      var found := FindRule(c.key, v);
      if found.Some? {
        r := AddOver(v, c, isAdd, found.value);
      } else {
        r := AddNewKey(v, c, isAdd);
      }
    }

    /** Ids from `next` on are in no list. */
    lemma UnusedBeyond(v: nat)
      requires Valid() && Orderly(Abs(), next, v)
      ensures UnusedFrom(next)
    {
      forall id: nat | id >= next ensures id !in SumOf(heaps) { assert Abs().evictable[id] == 0; }
    }

    method AddOver(v: nat, c: Content, isAdd: bool, prior: Id) returns (r: Outcome<Undo>)
      modifies this
      requires Valid() && UnusedFrom(next) && c.key.table < |tables| && ActionsOk(Abs(), c.actions)
      requires prior in rules && FindExactly(Abs(), c.key, v) == Some(prior)
      ensures Valid() && Tells(AddStart(old(Abs()), old(next), v, c, isAdd), r, old(Abs()), old(next), Abs(), next)
    {
      ReplaceRuleStart(v, Some(prior), Successor(rules[prior], c, isAdd, true), next);
      next := next + 1;
      r := Ok(Undo([prior], [next - 1]));
    }

    method AddNewKey(v: nat, c: Content, isAdd: bool) returns (r: Outcome<Undo>)
      modifies this
      requires Valid() && UnusedFrom(next) && c.key.table < |tables| && ActionsOk(Abs(), c.actions)
      requires FindExactly(Abs(), c.key, v).None?
      ensures Valid() && Tells(AddStart(old(Abs()), old(next), v, c, isAdd), r, old(Abs()), old(next), Abs(), next)
    {
      if c.attrs.checkOverlap {
        var overlaps := RuleOverlaps(c, v);
        if overlaps { return Err(Overlap); }
      }
      RoomIsFor(Abs(), next, v, c);
      r := AddMakingRoom(v, c, MakeRoom(Abs(), next, v, c));
    }

    method AddMakingRoom(v: nat, c: Content, ghost st: Outcome<Started>) returns (r: Outcome<Undo>)
      modifies this
      requires Valid() && UnusedFrom(next) && c.key.table < |tables| && RoomFor(Abs(), next, v, c, st)
      ensures Valid() && Tells(st, r, old(Abs()), old(next), Abs(), next)
    {
      if nFlows[c.key.table] >= tables[c.key.table].maxFlows {
        var w := ChooseRuleToEvict(c.key.table);
        RoomByEviction(Abs(), next, v, c, w, st);
        r := AddByEvicting(v, c, w, st);
      } else {
        RoomIsLeft(Abs(), next, v, c, st);
        r := AddInFreePlace(v, c, st);
      }
    }

    method AddByEvicting(v: nat, c: Content, w: Option<Id>, ghost st: Outcome<Started>) returns (r: Outcome<Undo>)
      modifies this
      requires Valid() && UnusedFrom(next) && c.key.table < |tables| && EvictsFor(Abs(), next, v, c, w, st)
      ensures Valid() && Tells(st, r, old(Abs()), old(next), Abs(), next)
    {
      if w.None? { return Err(TableFull); }
      r := AddInPlaceOf(v, c, w.value, st);
    }

    method AddInFreePlace(v: nat, c: Content, ghost st: Outcome<Started>) returns (r: Outcome<Undo>)
      modifies this
      requires Valid() && UnusedFrom(next) && c.key.table < |tables|
      requires st == Ok(Started(Replace(Abs(), v, None, c, next), next + 1, Undo([], [next])))
      ensures Valid() && Tells(st, r, old(Abs()), old(next), Abs(), next)
    {
      ReplaceRuleStart(v, None, c, next);
      r := Ok(Undo([], [next]));
      next := next + 1;
    }

    method AddInPlaceOf(v: nat, c: Content, w: Id, ghost st: Outcome<Started>) returns (r: Outcome<Undo>)
      modifies this
      requires Valid() && UnusedFrom(next) && c.key.table < |tables| && w in rules
      requires st == Ok(Started(Replace(MarkEvicted(Abs(), w), v, Some(w), c, next), next + 1, Undo([w], [next])))
      ensures Valid() && Tells(st, r, old(Abs()), old(next), Abs(), next)
    {
      EvictRule(w);
      ReplaceRuleStart(v, Some(w), c, next);
      r := Ok(Undo([w], [next]));
      next := next + 1;
    }

    /** The marking in `evict_rule`s that makes room for a new one. */
    method EvictRule(id: Id)
      modifies this
      requires Valid() && id in rules
      ensures Valid() && Abs() == MarkEvicted(old(Abs()), id) && next == old(next)
      ensures old(UnusedFrom(next)) ==> UnusedFrom(next)
    {
      SetRule(id, rules[id].(evicted := true));
      HeapRemove(id);
    }

    /** `modify_flows_start__` with rules to modify. */
    method ReplaceEach(v: nat, m: FlowMod, olds: seq<Id>) returns (r: Outcome<Undo>)
      modifies this
      requires Valid() && Orderly(Abs(), next, v) && m.Modify? && AllIn(Abs(), olds)
      ensures Valid() && Tells(ModifyThese(old(Abs()), old(next), v, m, olds), r, old(Abs()), old(next), Abs(), next)
    {
      var ok := CheckActions(m.c.actions);
      if !ok { return Err(BadOutGroup); }
      ghost var news, cs := NewIds(next, |olds|), Copies(Abs(), olds, m.c, m.modifyCookie);
      UnusedBeyond(v);
      StartReplacing(Abs(), next, v, m, olds, news, cs);
      ReplaceLoop(v, m, olds, cs, ReplaceAll(Abs(), v, olds, news, cs));
      r := Ok(Undo(olds, NewIds(next, |olds|)));
      next := next + |olds|;
    }

    /** The second loop of `modify_flows_start__`. */
    method ReplaceLoop(v: nat, m: FlowMod, olds: seq<Id>, ghost cs: seq<Content>, ghost target: Switch)
      modifies this
      requires Valid() && UnusedFrom(next) && Copied(Abs(), m, olds, cs, next)
      requires Replacing(Abs(), v, olds, NewIds(next, |olds|), cs, 0, target)
      ensures Valid() && Abs() == target && next == old(next)
    {
      ghost var news := NewIds(next, |olds|);
      for i := 0 to |olds|
        invariant Valid() && UnusedFrom(next + i) && next == old(next)
        invariant Copied(Abs(), m, olds, cs, next)
        invariant Replacing(Abs(), v, olds, news, cs, i, target)
      {
        ReplaceTurn(v, m, olds, i, news, cs, target);
      }
      ReplacingEnds(Abs(), v, olds, news, cs, target);
    }

    method ReplaceTurn(v: nat, m: FlowMod, olds: seq<Id>, i: nat, ghost news: seq<Id>, ghost cs: seq<Content>, ghost target: Switch)
      modifies this
      requires Valid() && UnusedFrom(next + i) && i < |olds| && Copied(Abs(), m, olds, cs, next)
      requires news == NewIds(next, |olds|) && Replacing(Abs(), v, olds, news, cs, i, target)
      ensures Valid() && UnusedFrom(next + i + 1) && Copied(Abs(), m, olds, cs, next) && next == old(next)
      ensures Replacing(Abs(), v, olds, news, cs, i + 1, target)
    {
      ghost var c := cs[i];
      var id := next + i;
      CopiedNext(Abs(), v, m, olds, cs, next, i, c, id);
      ReplacingNext(Abs(), v, olds, news, cs, i, target, c, id);
      ReplaceOne(v, m, olds[i], id, c);
    }

    method ReplaceOne(v: nat, m: FlowMod, prior: Id, id: Id, ghost copy: Content)
      modifies this
      requires Valid() && UnusedFrom(id) && m.Modify? && prior in rules
      ensures Valid() && UnusedFrom(id + 1) && next == old(next)
      requires var c := rules[prior].c; copy == Successor(rules[prior], m.c.(key := c.key), false, m.modifyCookie)
      ensures Abs() == Replace(old(Abs()), v, Some(prior), copy, id)
    {
      var c := rules[prior].c;
      ReplaceRuleStart(v, Some(prior), Successor(rules[prior], m.c.(key := c.key), false, m.modifyCookie), id);
    }

    /** `modify_flows_start_loose` and `modify_flow_start_strict`. */
    method ModifyFlowsStart(v: nat, m: FlowMod) returns (r: Outcome<Undo>)
      modifies this
      requires Valid() && Orderly(Abs(), next, v) && m.Modify? && m.c.key.table < |tables|
      ensures Valid() && Tells(ModifyStart(old(Abs()), old(next), v, m), r, old(Abs()), old(next), Abs(), next)
    {
      var olds := CollectMatching(m.cr);
      if olds.Err? { return Err(olds.error); }
      if olds.value != [] {
        r := ReplaceEach(v, m, olds.value);
      } else if m.mayAdd {
        r := AddFlowStart(v, m.c, false);
      } else {
        r := Ok(Undo([], []));
      }
    }

    /** `delete_flows_start_loose`, `delete_flow_start_strict` and `delete_flows_start__`. */
    method DeleteFlowsStart(v: nat, m: FlowMod) returns (r: Outcome<Undo>)
      modifies this
      requires Valid() && (forall id :: id in rules ==> id < next) && m.Delete?
      ensures Valid() && Tells(DeleteStart(old(Abs()), old(next), v, m), r, old(Abs()), old(next), Abs(), next)
    {
      var found := CollectMatching(m.cr);
      if found.Err? { return Err(found.error); }
      var ids := found.value;
      ghost var target := DeleteAll(Abs(), v, ids);
      for i := 0 to |ids|
        invariant Valid() && next == old(next)
        invariant Deleting(Abs(), v, ids, i, target)
      {
        DeletingNext(Abs(), v, ids, i, target);
        CountFlow(rules[ids[i]].c.key.table, -1);
        TakeOut(ids[i], v);
      }
      r := Ok(Undo(ids, []));
    }

    /** `ofproto_flow_mod_start`. */
    method FlowModStart(v: nat, m: FlowMod) returns (r: Outcome<Undo>)
      modifies this
      requires Valid() && Orderly(Abs(), next, v) && ModReady(Abs(), m)
      ensures Valid() && Tells(Start(old(Abs()), old(next), v, m), r, old(Abs()), old(next), Abs(), next)
    {
      match m
      case Add(c) => r := AddFlowStart(v, c, true);
      case Modify(_, _, _, _) => r := ModifyFlowsStart(v, m);
      case Delete(_) => r := DeleteFlowsStart(v, m);
    }

    /** `ofproto_flow_mod_revert`. */
    method FlowModRevert(m: FlowMod, u: Undo)
      modifies this
      requires Valid() && Revertible(Abs(), m, u)
      ensures Valid() && Abs() == Revert(old(Abs()), m, u) && next == old(next)
    {
      match m
      case Add(_) => ReplaceRuleRevert(if u.olds == [] then None else Some(u.olds[0]), u.news[0]);
      case Modify(_, _, _, _) => ModifyFlowsRevert(u);
      case Delete(_) => DeleteFlowsRevert(u.olds);
    }

    /** `modify_flows_revert`. */
    method ModifyFlowsRevert(u: Undo)
      modifies this
      requires Valid() && (u.olds != [] ==> Unreplaceable(Abs(), u.olds, u.news))
      ensures Valid() && Abs() == (if u.olds == [] then old(Abs()) else UnreplaceAll(old(Abs()), u.olds, u.news)) && next == old(next)
    {
      if u.olds != [] {
        var olds, news := u.olds, u.news;
        ghost var target := UnreplaceAll(Abs(), olds, news);
        for i := 0 to |olds|
          invariant Valid() && next == old(next)
          invariant Unreplacing(Abs(), olds, news, i, target)
        {
          UnreplacingNext(Abs(), olds, news, i, target);
          ReplaceRuleRevert(Some(olds[i]), news[i]);
        }
      }
    }

    /** `delete_flows_revert__`. */
    method DeleteFlowsRevert(ids: seq<Id>)
      modifies this
      requires Valid() && AllIn(Abs(), ids)
      ensures Valid() && Abs() == UndeleteAll(old(Abs()), ids) && next == old(next)
    {
      ghost var target := UndeleteAll(Abs(), ids);
      for i := 0 to |ids|
        invariant Valid() && next == old(next)
        invariant Undeleting(Abs(), ids, i, target)
      {
        UndeletingNext(Abs(), ids, i, target);
        var table := rules[ids[i]].c.key.table;
        PutBack(ids[i]);
        CountFlow(table, 1);
      }
    }

    // ---------- group mods ----------

    /** `ofproto_group_mod_start`. */
    method GroupModStart(v: nat, m: GMod) returns (r: Outcome<GUndo>)
      modifies this
      requires Valid() && Orderly(Abs(), next, v) && m.kind < |maxGroups|
      ensures Valid() && TellsGroup(GroupStart(old(Abs()), old(next), v, m), r, old(Abs()), old(next), Abs(), next)
    {
      var found := GroupLookup(m.gid);
      var adds := match m.command case AddGroup => true case ModifyGroup => false case AddOrModify => found.None?;
      if adds {
        r := AddGroupStart(v, m, found);
      } else {
        GroupsInRange(v);
        r := ModifyGroupStart(v, m, found);
      }
    }

    lemma GroupsInRange(v: nat)
      requires Orderly(Abs(), next, v)
      ensures forall g :: g in groups ==> groups[g].kind < |nGroups| && g < next
    {
      forall g | g in groups ensures groups[g].kind < |nGroups| && g < next { assert g in Abs().groups; }
    }

    /** Puts a group in the place of none or of one with its number, which is then no longer current. */
    method SetGroup(g: Id, o: GroupObj)
      modifies this`groups
      requires Valid() && (o.versions.remove.None? ==> forall h :: Holds(groups, o.gid, h) ==> h == g)
      ensures Valid() && Abs() == old(Abs()).(groups := old(Abs()).groups[g := GroupOf(o)]) && groups == old(groups)[g := o]
    {
      var was := groups;
      groups := groups[g := o];
      assert AllGroups(groups) == AllGroups(was)[g := GroupOf(o)];
      forall x, y, n | Holds(groups, n, x) && Holds(groups, n, y) ensures x == y {
        assert (x != g ==> Holds(was, n, x)) && (y != g ==> Holds(was, n, y));
      }
    }

    /** `add_group_start`. */
    method AddGroupStart(v: nat, m: GMod, found: Option<Id>) returns (r: Outcome<GUndo>)
      modifies this
      requires Valid() && m.kind < |nGroups| == |maxGroups| && found == FindGroup(Abs(), m.gid)
      ensures Valid() && TellsGroup(GroupAddStart(old(Abs()), old(next), v, m), r, old(Abs()), old(next), Abs(), next)
    {
      if found.Some? { return Err(GroupExists); }
      if nGroups[m.kind] >= maxGroups[m.kind] { return Err(OutOfGroups); }
      NoneHeld(groups, Abs(), m.gid);
      AddNewGroup(v, m);
      r := Ok(GUndo(None, next - 1));
    }

    method AddNewGroup(v: nat, m: GMod)
      modifies this
      requires Valid() && m.kind < |nGroups| && forall g :: !Holds(groups, m.gid, g)
      ensures Valid() && next == old(next) + 1
      ensures var s := old(Abs());
              Abs() == CountKind(s.(groups := s.groups[old(next) := Group(m.gid, m.kind, m.body, Versions(v, None), multiset{})]),
                                 m.kind, 1)
    {
      SetGroup(next, GroupObj(m.gid, m.kind, m.body, Versions(v, None), []));
      nGroups := nGroups[m.kind := nGroups[m.kind] + 1];
      next := next + 1;
    }

    /** `modify_group_start`. */
    method ModifyGroupStart(v: nat, m: GMod, found: Option<Id>) returns (r: Outcome<GUndo>)
      modifies this
      requires Valid() && m.kind < |nGroups| == |maxGroups| && found == FindGroup(Abs(), m.gid)
      requires forall g :: g in groups ==> groups[g].kind < |nGroups| && g < next
      ensures Valid() && TellsGroup(GroupModifyStart(old(Abs()), old(next), v, m), r, old(Abs()), old(next), Abs(), next)
    {
      if found.None? { return Err(UnknownGroup); }
      var p := found.value;
      assert IsCurrent(Abs(), m.gid, p);
      var kind := groups[p].kind;
      if kind != m.kind && nGroups[m.kind] >= maxGroups[m.kind] { return Err(OutOfGroups); }
      Supersede(v, m, p);
      if kind != m.kind {
        nGroups := nGroups[kind := nGroups[kind] - 1];
        nGroups := nGroups[m.kind := nGroups[m.kind] + 1];
      }
      next := next + 1;
      r := Ok(GUndo(Some(p), next - 1));
    }

    /** The new group takes over the rules of the old one. */
    method Supersede(v: nat, m: GMod, p: Id)
      modifies this`groups
      requires Valid() && Holds(groups, m.gid, p) && p != next
      ensures Valid()
      ensures var s := old(Abs()); var g := s.groups[p];
              Abs() == s.(groups := s.groups[p := g.(versions := g.versions.(remove := Some(v)), members := multiset{})]
                                    [next := Group(m.gid, m.kind, m.body, Versions(v, None), g.members)])
    {
      var g := groups[p];
      SetGroup(p, g.(versions := g.versions.(remove := Some(v)), rules := []));
      forall h ensures !Holds(groups, m.gid, h) {
        assert h != p ==> !Holds(old(groups), m.gid, h);
      }
      SetGroup(next, GroupObj(m.gid, m.kind, m.body, Versions(v, None), g.rules));
    }

    /** `ofproto_group_mod_revert`. */
    method GroupModRevert(u: GUndo)
      modifies this
      requires Valid() && GroupRevertible(Abs(), u) && OneCurrent(GroupRevert(Abs(), u))
      ensures Valid() && Abs() == GroupRevert(old(Abs()), u) && next == old(next)
    {
      var n := groups[u.id];
      var kind := if u.prior.Some? then groups[u.prior.value].kind else n.kind;
      RestoreGroup(u);
      if u.prior.Some? { nGroups := nGroups[kind := nGroups[kind] + 1]; }
      nGroups := nGroups[n.kind := nGroups[n.kind] - 1];
    }

    /** The new group goes, and the one it had superseded gets its rules back. */
    method RestoreGroup(u: GUndo)
      modifies this`groups
      requires Valid() && GroupRevertible(Abs(), u) && OneCurrent(GroupRevert(Abs(), u))
      ensures Valid() && Abs() == old(Abs()).(groups := GroupRevert(old(Abs()), u).groups)
    {
      ghost var target := GroupRevert(Abs(), u);
      var n := groups[u.id];
      if u.prior.Some? {
        var g := groups[u.prior.value];
        groups := groups[u.prior.value := g.(rules := n.rules, versions := g.versions.(remove := None))];
      }
      groups := groups - {u.id};
      assert AllGroups(groups) == target.groups;
      OneCurrentMeans(groups, target);
    }

    // ---------- bundles ----------

    method StartMessage(v: nat, msg: Msg) returns (r: Outcome<MsgUndo>)
      modifies this
      requires Valid() && Orderly(Abs(), next, v) && MsgReady(Abs(), msg)
      ensures Valid() && TellsMsg(StartMsg(old(Abs()), old(next), v, msg), r, old(Abs()), old(next), Abs(), next)
    {
      match msg
      case FlowMsg(m) =>
        var u := FlowModStart(v, m);
        r := if u.Ok? then Ok(FlowUndo(u.value)) else Err(u.error);
      case GroupMsg(g) =>
        var u := GroupModStart(v, g);
        r := if u.Ok? then Ok(GroupUndo(u.value)) else Err(u.error);
    }

    method RevertMessage(msg: Msg, undo: MsgUndo)
      modifies this
      requires Valid() && MsgRevertible(Abs(), msg, undo) && OneCurrent(RevertMsg(Abs(), msg, undo))
      ensures Valid() && Abs() == RevertMsg(old(Abs()), msg, undo) && next == old(next)
    {
      match msg
      case FlowMsg(m) => FlowModRevert(m, undo.u);
      case GroupMsg(_) => GroupModRevert(undo.gu);
    }

    /** Phase 1 of `do_bundle_commit`: messages are started until one fails. */
    method BeginPhase(v: nat, msgs: seq<Msg>, ghost b: Begun) returns (undos: seq<MsgUndo>, error: Option<Error>)
      modifies this
      requires Valid() && Beginning(Abs(), next, v, msgs, 0, [], b)
      ensures Valid() && Begun(Abs(), next, undos, error) == b
    {
      undos, error := [], None;
      var i: nat := 0;
      while i < |msgs| && error.None?
        invariant Valid() && i <= |msgs|
        invariant error.None? ==> Beginning(Abs(), next, v, msgs, i, undos, b)
        invariant error.Some? ==> Begun(Abs(), next, undos, error) == b
        decreases |msgs| - i, error.None?
      {
        var started := StartTurn(v, msgs, i, undos, b);
        match started
        case Err(e) => error := Some(e);
        case Ok(undo) => undos, i := undos + [undo], i + 1;
      }
      if error.None? { BeginningEnds(Abs(), next, v, msgs, undos, b); }
    }

    method StartTurn(v: nat, msgs: seq<Msg>, i: nat, ghost undos: seq<MsgUndo>, ghost target: Begun) returns (r: Outcome<MsgUndo>)
      modifies this
      requires Valid() && i < |msgs| && Beginning(Abs(), next, v, msgs, i, undos, target)
      ensures Valid()
      ensures match r
              case Err(e) => target == Begun(Abs(), next, undos, Some(e))
              case Ok(undo) => Beginning(Abs(), next, v, msgs, i + 1, undos + [undo], target)
    {
      BeginningNext(Abs(), next, v, msgs, i, undos, target);
      r := StartMessage(v, msgs[i]);
    }

    /** Phase 2: the messages that were started are undone in reverse order. */
    method RevertPhase(msgs: seq<Msg>, undos: seq<MsgUndo>)
      modifies this
      requires Valid() && |undos| <= |msgs| && Unwinds(Abs(), msgs, undos)
      ensures Valid() && RevertAll(old(Abs()), msgs, undos) == Some(Abs()) && next == old(next)
    {
      ghost var s := Abs();
      var i := |undos|;
      assert msgs[0..] == msgs && undos[0..] == undos;
      while i > 0
        invariant 0 <= i <= |undos| && Valid() && next == old(next)
        invariant RevertAll(s, msgs[i..], undos[i..]) == Some(Abs())
      {
        i := i - 1;
        UnwindsStep(s, msgs, undos, i);
        RevertMessage(msgs[i], undos[i]);
      }
    }

    /** The last phase, as far as the version goes: it is raised by the first message finished. */
    method FinishPhase(v: nat, msgs: seq<Msg>)
      modifies this`version
      requires Valid() && v == version + 1
      ensures Valid() && Abs() == if msgs == [] then old(Abs()) else old(Abs()).(version := v)
    {
      for i := 0 to |msgs|
        invariant version == if i == 0 then old(version) else v
      {
        if version < v { version := v; }
      }
    }

    /** `do_bundle_commit`: all or nothing, with the outcome that the plain meaning of the messages has. */
    method BundleCommit(msgs: seq<Msg>) returns (error: Option<Error>)
      modifies this
      requires Valid() && Orderly(Abs(), next, version + 1) && AllReady(Abs(), msgs)
      ensures Valid() && Orderly(Abs(), next, version + 1)
      ensures Commit(old(Abs()), old(next), msgs) == Some(Committed(Abs(), next, error))
      ensures old(Inv(Abs(), next, version + 1)) ==> CommitsAtomically(old(Abs()), old(next), msgs, Committed(Abs(), next, error))
    {
      var v := version + 1;
      ghost var s, id := Abs(), next;
      ghost var b, r := BeginOfCommit(s, id, v, msgs);
      error := RunPhases(v, msgs, b, r);
      assert EndsInOrder(s, id, v, msgs, r);
    }

    method RunPhases(v: nat, msgs: seq<Msg>, ghost b: Begun, ghost r: Committed) returns (error: Option<Error>)
      modifies this
      requires Valid() && Begins(Abs(), next, v, msgs, b, r)
      ensures Valid() && r == Committed(Abs(), next, error)
    {
      var undos;
      OpenBegins(Abs(), next, v, msgs, b, r);
      undos, error := BeginPhase(v, msgs, b);
      CarryOn(Abs(), next, msgs, undos, error, b, r);
      ConcludePhase(msgs, undos, error, r);
    }

    /** What follows the first phase. */
    method ConcludePhase(msgs: seq<Msg>, undos: seq<MsgUndo>, error: Option<Error>, ghost r: Committed)
      modifies this
      requires Valid() && Midway(Abs(), next, msgs, undos, error, r)
      ensures Valid() && r == Committed(Abs(), next, error)
    {
      if error.Some? {
        RevertPhase(msgs, undos);
      } else {
        FinishPhase(version + 1, msgs);
      }
    }
  }

  /** What making room comes to, case by case. */
  ghost predicate RoomFor(s: Switch, next: nat, v: nat, c: Content, st: Outcome<Started>)
    requires c.key.table < |s.nFlows| == |s.tables|
  {
    if s.nFlows[c.key.table] >= s.tables[c.key.table].maxFlows then
      match Victim(s, c.key.table)
      case None => st == Err(TableFull)
      case Some(w) =>
        w in s.rules && st == Ok(Started(Replace(MarkEvicted(s, w), v, Some(w), c, next), next + 1, Undo([w], [next])))
    else st == Ok(Started(Replace(s, v, None, c, next), next + 1, Undo([], [next])))
  }

  /** What the choice of `w`, if any, comes to. */
  ghost predicate EvictsFor(s: Switch, next: nat, v: nat, c: Content, w: Option<Id>, st: Outcome<Started>)
    requires c.key.table < |s.nFlows|
  {
    match w
    case None => st == Err(TableFull)
    case Some(id) =>
      id in s.rules && st == Ok(Started(Replace(MarkEvicted(s, id), v, w, c, next), next + 1, Undo([id], [next])))
  }

  lemma RoomByEviction(s: Switch, next: nat, v: nat, c: Content, w: Option<Id>, st: Outcome<Started>)
    requires c.key.table < |s.nFlows| == |s.tables| && s.nFlows[c.key.table] >= s.tables[c.key.table].maxFlows
    requires RoomFor(s, next, v, c, st) && w == Victim(s, c.key.table)
    ensures EvictsFor(s, next, v, c, w, st)
  {
  }

  lemma RoomIsLeft(s: Switch, next: nat, v: nat, c: Content, st: Outcome<Started>)
    requires c.key.table < |s.nFlows| == |s.tables| && s.nFlows[c.key.table] < s.tables[c.key.table].maxFlows
    requires RoomFor(s, next, v, c, st)
    ensures st == Ok(Started(Replace(s, v, None, c, next), next + 1, Undo([], [next])))
  {
  }

  lemma RoomIsFor(s: Switch, next: nat, v: nat, c: Content)
    requires c.key.table < |s.nFlows| == |s.tables|
    ensures RoomFor(s, next, v, c, MakeRoom(s, next, v, c))
  {
    if Victim(s, c.key.table).Some? { assert CanBeVictim(s, c.key.table, Victim(s, c.key.table).value); }
  }

  /** Outcome `r` and the new state say what `st` says. */
  ghost predicate Tells(st: Outcome<Started>, r: Outcome<Undo>, s0: Switch, next0: nat, s: Switch, next: nat) {
    match st
    case Err(e) => r == Err(e) && s == s0 && next == next0
    case Ok(d) => r == Ok(d.undo) && s == d.s && next == d.next
  }

  ghost predicate TellsGroup(st: Outcome<GStarted>, r: Outcome<GUndo>, s0: Switch, next0: nat, s: Switch, next: nat) {
    match st
    case Err(e) => r == Err(e) && s == s0 && next == next0
    case Ok(d) => r == Ok(d.undo) && s == d.s && next == d.next
  }

  ghost predicate TellsMsg(st: Outcome<Done>, r: Outcome<MsgUndo>, s0: Switch, next0: nat, s: Switch, next: nat) {
    match st
    case Err(e) => r == Err(e) && s == s0 && next == next0
    case Ok(d) => r == Ok(d.undo) && s == d.s && next == d.next
  }

  /** Every message took effect, or lookups see no change. */
  ghost predicate CommitsAtomically(s: Switch, next: nat, msgs: seq<Msg>, r: Committed)
    requires Runnable(s, next) && AllReady(s, msgs)
  {
    Atomic(s, next, msgs, PlainBundle(s, next, s.version + 1, msgs), Some(r))
  }

  /** All reverts of the messages are possible, and never leave two current groups with one number. */
  ghost predicate Unwinds(s: Switch, msgs: seq<Msg>, undos: seq<MsgUndo>)
    requires |undos| <= |msgs|
    decreases |undos|
  {
    && RevertAll(s, msgs, undos).Some? && OneCurrent(RevertAll(s, msgs, undos).value)
    && (undos == [] || Unwinds(s, msgs[1..], undos[1..]))
  }

  lemma {:induction false} UnwindsFrom(s: Switch, msgs: seq<Msg>, undos: seq<MsgUndo>, i: nat)
    requires i <= |undos| <= |msgs| && Unwinds(s, msgs, undos)
    ensures Unwinds(s, msgs[i..], undos[i..])
  {
    if i > 0 {
      UnwindsFrom(s, msgs, undos, i - 1);
      assert msgs[i - 1..][1..] == msgs[i..] && undos[i - 1..][1..] == undos[i..];
    } else {
      assert msgs[0..] == msgs && undos[0..] == undos;
    }
  }

  /** With the messages after number `i` reverted, it is the turn of that one. */
  lemma UnwindsStep(s: Switch, msgs: seq<Msg>, undos: seq<MsgUndo>, i: nat)
    requires i < |undos| <= |msgs| && Unwinds(s, msgs, undos) && RevertAll(s, msgs[i + 1..], undos[i + 1..]).Some?
    ensures var t := RevertAll(s, msgs[i + 1..], undos[i + 1..]).value;
            && MsgRevertible(t, msgs[i], undos[i]) && OneCurrent(RevertMsg(t, msgs[i], undos[i]))
            && RevertAll(s, msgs[i..], undos[i..]) == Some(RevertMsg(t, msgs[i], undos[i]))
  {
    UnwindsFrom(s, msgs, undos, i);
    assert msgs[i..][1..] == msgs[i + 1..] && undos[i..][1..] == undos[i + 1..];
  }

  lemma OrderlyHasOne(s: Switch, next: nat, v: nat)
    requires GroupsOk(s, next, v)
    ensures OneCurrent(s)
  {
    forall g, h, gid | IsCurrent(s, gid, g) && IsCurrent(s, gid, h) ensures g == h {
      assert VisibleAt(s.groups[g].versions, v) && VisibleAt(s.groups[h].versions, v);
    }
  }

  lemma {:induction false} BegunUnwinds(s: Switch, next: nat, v: nat, msgs: seq<Msg>)
    requires Orderly(s, next, v) && AllReady(s, msgs)
    ensures var b := BeginAll(s, next, v, msgs); Unwinds(b.s, msgs, b.undos)
    decreases |msgs|
  {
    var b := BeginAll(s, next, v, msgs);
    var t := RevertedKeepsOrder(s, next, v, msgs, b.next);
    OrderlyHasOne(t, b.next, v);
    if b.undos != [] {
      assert MsgReady(s, msgs[0]);
      var d := StartMsg(s, next, v, msgs[0]).value;
      StartMsgRunnable(s, next, v, msgs[0]);
      StartMsgKeepsOrder(s, next, v, msgs[0]);
      ReadyRest(s, d.s, msgs);
      BegunUnwinds(d.s, d.next, v, msgs[1..]);
      assert ([d.undo] + BeginAll(d.s, d.next, v, msgs[1..]).undos)[1..] == BeginAll(d.s, d.next, v, msgs[1..]).undos;
    }
  }

  /** The first phase will lead to `b`, and what follows it to `r`. */
  ghost predicate Begins(s: Switch, next: nat, v: nat, msgs: seq<Msg>, b: Begun, r: Committed) {
    Beginning(s, next, v, msgs, 0, [], b) && Follows(msgs, b, r)
  }

  lemma OpenBegins(s: Switch, next: nat, v: nat, msgs: seq<Msg>, b: Begun, r: Committed)
    requires Begins(s, next, v, msgs, b, r)
    ensures Beginning(s, next, v, msgs, 0, [], b) && Follows(msgs, b, r)
  {
  }

  ghost predicate Leads(version: nat, msgs: seq<Msg>, b: Begun, r: Committed) {
    && b.s.version == version && |b.undos| <= |msgs|
    && (b.error.Some? ==> Unwinds(b.s, msgs, b.undos))
    && Conclude(version + 1, msgs, b) == Some(r)
  }

  /** What remains to be done will lead to `r`. */
  ghost predicate Midway(s: Switch, next: nat, msgs: seq<Msg>, undos: seq<MsgUndo>, error: Option<Error>, r: Committed) {
    Leads(s.version, msgs, Begun(s, next, undos, error), r)
  }

  /** What follows the first phase, if that has come to `b`. */
  ghost predicate Follows(msgs: seq<Msg>, b: Begun, r: Committed) {
    Leads(b.s.version, msgs, b, r)
  }

  lemma CarryOn(s: Switch, next: nat, msgs: seq<Msg>, undos: seq<MsgUndo>, error: Option<Error>, b: Begun, r: Committed)
    requires Begun(s, next, undos, error) == b && Follows(msgs, b, r)
    ensures Midway(s, next, msgs, undos, error, r)
  {
  }

  lemma BeginOfCommit(s: Switch, next: nat, v: nat, msgs: seq<Msg>) returns (b: Begun, r: Committed)
    requires Orderly(s, next, v) && AllReady(s, msgs) && v == s.version + 1
    ensures Begins(s, next, v, msgs, b, r)
    ensures EndsInOrder(s, next, v, msgs, r)
  {
    r := Committing(s, next, v, msgs);
    b := Beginning0(s, next, v, msgs, r);
  }

  /** It is all or nothing, if all was in place before. */
  ghost predicate AtomicIfWhole(s: Switch, next: nat, v: nat, msgs: seq<Msg>, r: Committed)
    requires Runnable(s, next) && AllReady(s, msgs)
  {
    Inv(s, next, v) ==> CommitsAtomically(s, next, msgs, r)
  }

  /** The commit ends with `r`, and in order. */
  ghost predicate EndsInOrder(s: Switch, next: nat, v: nat, msgs: seq<Msg>, r: Committed)
    requires Runnable(s, next) && AllReady(s, msgs)
  {
    Commit(s, next, msgs) == Some(r) && Orderly(r.s, r.next, r.s.version + 1) && AtomicIfWhole(s, next, v, msgs, r)
  }

  lemma WholeIsAtomic(s: Switch, next: nat, v: nat, msgs: seq<Msg>, r: Committed)
    requires Runnable(s, next) && AllReady(s, msgs) && v == s.version + 1 && Commit(s, next, msgs) == Some(r)
    ensures AtomicIfWhole(s, next, v, msgs, r)
  {
    if Inv(s, next, v) { BundleAtomicity(s, next, msgs); }
  }

  lemma CommitInOrder(s: Switch, next: nat, v: nat, msgs: seq<Msg>) returns (r: Committed)
    requires Orderly(s, next, v) && AllReady(s, msgs) && v == s.version + 1
    ensures Commit(s, next, msgs) == Some(r) && Orderly(r.s, r.next, r.s.version + 1)
  {
    CommitKeepsOrder(s, next, msgs);
    r := Commit(s, next, msgs).value;
  }

  lemma Committing(s: Switch, next: nat, v: nat, msgs: seq<Msg>) returns (r: Committed)
    requires Orderly(s, next, v) && AllReady(s, msgs) && v == s.version + 1
    ensures EndsInOrder(s, next, v, msgs, r) && Commit(s, next, msgs) == Some(r)
  {
    r := CommitInOrder(s, next, v, msgs);
    WholeIsAtomic(s, next, v, msgs, r);
  }

  lemma Beginning0(s: Switch, next: nat, v: nat, msgs: seq<Msg>, r: Committed) returns (b: Begun)
    requires Orderly(s, next, v) && AllReady(s, msgs) && v == s.version + 1 && Commit(s, next, msgs) == Some(r)
    ensures Begins(s, next, v, msgs, b, r)
  {
    b := BeginAll(s, next, v, msgs);
    BeginningStarts(s, next, v, msgs);
    CommitLeads(s, next, v, msgs, b, r);
  }

  lemma CommitLeads(s: Switch, next: nat, v: nat, msgs: seq<Msg>, b: Begun, r: Committed)
    requires Orderly(s, next, v) && AllReady(s, msgs) && v == s.version + 1
    requires b == BeginAll(s, next, v, msgs) && Commit(s, next, msgs) == Some(r)
    ensures Follows(msgs, b, r)
  {
    BegunInOrder(s, next, v, msgs, b);
    CommitEndsSo(s, next, v, msgs, b, r);
    MakeLeads(v, msgs, b, r);
  }

  lemma CommitEndsSo(s: Switch, next: nat, v: nat, msgs: seq<Msg>, b: Begun, r: Committed)
    requires Runnable(s, next) && AllReady(s, msgs) && v == s.version + 1
    requires b == BeginAll(s, next, v, msgs) && Commit(s, next, msgs) == Some(r)
    ensures Ending(v, msgs, b, r)
  {
    CommitConcludes(s, next, msgs, b);
  }

  ghost predicate Ending(v: nat, msgs: seq<Msg>, b: Begun, r: Committed) {
    |b.undos| <= |msgs| && Conclude(v, msgs, b) == Some(r)
  }

  ghost predicate InOrder(v: nat, msgs: seq<Msg>, b: Begun) {
    b.s.version + 1 == v && |b.undos| <= |msgs| && Unwinds(b.s, msgs, b.undos)
  }

  lemma MakeLeads(v: nat, msgs: seq<Msg>, b: Begun, r: Committed)
    requires InOrder(v, msgs, b) && Ending(v, msgs, b, r)
    ensures Follows(msgs, b, r)
  {
  }

  lemma BegunInOrder(s: Switch, next: nat, v: nat, msgs: seq<Msg>, b: Begun)
    requires Orderly(s, next, v) && AllReady(s, msgs) && b == BeginAll(s, next, v, msgs) && v == s.version + 1
    ensures InOrder(v, msgs, b)
  {
    BeginKeepsOrder(s, next, v, msgs);
    BegunUnwinds(s, next, v, msgs);
  }

  ghost predicate Beginning(s: Switch, next: nat, v: nat, msgs: seq<Msg>, i: nat, undos: seq<MsgUndo>, target: Begun) {
    && i <= |msgs| && Orderly(s, next, v) && AllReady(s, msgs[i..])
    && var b := BeginAll(s, next, v, msgs[i..]); target == b.(undos := undos + b.undos)
  }

  lemma BeginningStarts(s: Switch, next: nat, v: nat, msgs: seq<Msg>)
    requires Orderly(s, next, v) && AllReady(s, msgs)
    ensures Beginning(s, next, v, msgs, 0, [], BeginAll(s, next, v, msgs))
  {
    assert msgs[0..] == msgs;
    var b := BeginAll(s, next, v, msgs);
    assert [] + b.undos == b.undos;
  }

  lemma BeginningEnds(s: Switch, next: nat, v: nat, msgs: seq<Msg>, undos: seq<MsgUndo>, target: Begun)
    requires Beginning(s, next, v, msgs, |msgs|, undos, target)
    ensures Begun(s, next, undos, None) == target
  {
    assert undos + [] == undos;
  }

  lemma BeginningNext(s: Switch, next: nat, v: nat, msgs: seq<Msg>, i: nat, undos: seq<MsgUndo>, target: Begun)
    requires Beginning(s, next, v, msgs, i, undos, target) && i < |msgs|
    ensures MsgReady(s, msgs[i])
    ensures match StartMsg(s, next, v, msgs[i])
            case Err(e) => target == Begun(s, next, undos, Some(e))
            case Ok(d) => Beginning(d.s, d.next, v, msgs, i + 1, undos + [d.undo], target)
  {
    assert msgs[i..][0] == msgs[i] && MsgReady(s, msgs[i..][0]);
    match StartMsg(s, next, v, msgs[i])
    case Err(_) => assert undos + [] == undos;
    case Ok(d) =>
      StartMsgKeepsOrder(s, next, v, msgs[i]);
      StartMsgRunnable(s, next, v, msgs[i]);
      ReadyRest(s, d.s, msgs[i..]);
      assert msgs[i..][1..] == msgs[i + 1..];
      var b := BeginAll(d.s, d.next, v, msgs[i + 1..]);
      assert undos + ([d.undo] + b.undos) == undos + [d.undo] + b.undos;
  }

  lemma TheFirst(s: Switch, key: Key, v: nat, r: Option<Id>)
    requires r.None? ==> forall id :: !IsExactly(s, key, v, id)
    requires r.Some? ==> IsExactly(s, key, v, r.value) && forall id :: IsExactly(s, key, v, id) ==> r.value <= id
    ensures FindExactly(s, key, v) == r
  {
  }

  /** What groups are known depends on the groups alone. */
  lemma SameGroupsKnown(s: Switch, t: Switch, a: Actions)
    requires t.groups == s.groups
    ensures ActionsOk(t, a) <==> ActionsOk(s, a)
  {
    forall gid ensures GroupKnown(t, gid) <==> GroupKnown(s, gid) {}
  }

  ghost predicate ReadonlyBelow(s: Switch, cr: Criteria, n: nat) {
    exists id: nat :: id < n && Selected(s, cr, id) && !Writable(s.tables, cr, s.rules[id].c)
  }

  lemma CollectNext(s: Switch, cr: Criteria, n: nat)
    ensures ReadonlyBelow(s, cr, n + 1)
       <==> ReadonlyBelow(s, cr, n) || (Selected(s, cr, n) && !Writable(s.tables, cr, s.rules[n].c))
    ensures Collect(s, cr, n + 1)
         == Collect(s, cr, n) + (if Selected(s, cr, n) && Writable(s.tables, cr, s.rules[n].c) then [n] else [])
  {
  }

  lemma ReadonlyAll(s: Switch, cr: Criteria, next: nat)
    requires forall id :: id in s.rules ==> id < next
    ensures ReadonlyBelow(s, cr, next) == ReadonlyHit(s, cr)
  {
  }

  // ---------- loops as runs of the recursive functions ----------

  /** `cs` are the modified copies of the rules `olds`, none of which is new. */
  ghost predicate Copied(s: Switch, m: FlowMod, olds: seq<Id>, cs: seq<Content>, next: nat) {
    && m.Modify? && |cs| == |olds|
    && (forall j :: 0 <= j < |olds| ==>
          olds[j] < next && olds[j] in s.rules
          && cs[j] == Successor(s.rules[olds[j]], m.c.(key := s.rules[olds[j]].c.key), false, m.modifyCookie))
  }

  lemma StartReplacing(s: Switch, next: nat, v: nat, m: FlowMod, olds: seq<Id>, news: seq<Id>, cs: seq<Content>)
    requires m.Modify? && AllIn(s, olds) && (forall id :: id in s.rules ==> id < next)
    requires news == NewIds(next, |olds|) && cs == Copies(s, olds, m.c, m.modifyCookie)
    ensures Replaceable(s, olds, news, cs) && Replacing(s, v, olds, news, cs, 0, ReplaceAll(s, v, olds, news, cs))
    ensures Copied(s, m, olds, cs, next)
  {
    CopiesReplaceable(s, olds, news, cs);
    assert olds[0..] == olds && news[0..] == news && cs[0..] == cs;
  }

  lemma CopiedNext(s: Switch, v: nat, m: FlowMod, olds: seq<Id>, cs: seq<Content>, next: nat, i: nat, c: Content, id: Id)
    requires Copied(s, m, olds, cs, next) && i < |olds| && c == cs[i] && id == next + i
    ensures olds[i] in s.rules
    ensures c == Successor(s.rules[olds[i]], m.c.(key := s.rules[olds[i]].c.key), false, m.modifyCookie)
    ensures c.key.table < |s.nFlows| ==> Copied(Replace(s, v, Some(olds[i]), c, id), m, olds, cs, next)
  {
  }

  ghost predicate Replacing(s: Switch, v: nat, olds: seq<Id>, news: seq<Id>, cs: seq<Content>, i: nat, target: Switch) {
    && i <= |olds| == |news| == |cs|
    && Replaceable(s, olds[i..], news[i..], cs[i..]) && ReplaceAll(s, v, olds[i..], news[i..], cs[i..]) == target
  }

  lemma ReplacingNext(s: Switch, v: nat, olds: seq<Id>, news: seq<Id>, cs: seq<Content>, i: nat, target: Switch, c: Content, id: Id)
    requires Replacing(s, v, olds, news, cs, i, target) && i < |olds| && c == cs[i] && id == news[i]
    ensures olds[i] in s.rules && c.key.table < |s.nFlows|
    ensures Replacing(Replace(s, v, Some(olds[i]), c, id), v, olds, news, cs, i + 1, target)
  {
    assert olds[i..][1..] == olds[i + 1..] && news[i..][1..] == news[i + 1..] && cs[i..][1..] == cs[i + 1..];
    assert olds[i..][0] == olds[i] && news[i..][0] == news[i] && cs[i..][0] == cs[i];
  }

  lemma ReplacingEnds(s: Switch, v: nat, olds: seq<Id>, news: seq<Id>, cs: seq<Content>, target: Switch)
    requires Replacing(s, v, olds, news, cs, |olds|, target)
    ensures s == target
  {
  }

  ghost predicate Unreplacing(s: Switch, olds: seq<Id>, news: seq<Id>, i: nat, target: Switch) {
    i <= |olds| == |news| && Unreplaceable(s, olds[i..], news[i..]) && UnreplaceAll(s, olds[i..], news[i..]) == target
  }

  lemma UnreplacingNext(s: Switch, olds: seq<Id>, news: seq<Id>, i: nat, target: Switch)
    requires Unreplacing(s, olds, news, i, target) && i < |olds|
    ensures olds[i] in s.rules && news[i] in s.rules && s.rules[news[i]].c.key.table < |s.nFlows| && olds[i] != news[i]
    ensures Unreplacing(Unreplace(s, Some(olds[i]), news[i]), olds, news, i + 1, target)
  {
    assert olds[i..][1..] == olds[i + 1..] && news[i..][1..] == news[i + 1..];
    assert olds[i..][0] == olds[i] && news[i..][0] == news[i];
  }

  ghost predicate Deleting(s: Switch, v: nat, ids: seq<Id>, i: nat, target: Switch) {
    i <= |ids| && AllIn(s, ids[i..]) && DeleteAll(s, v, ids[i..]) == target
  }

  lemma DeletingNext(s: Switch, v: nat, ids: seq<Id>, i: nat, target: Switch)
    requires Deleting(s, v, ids, i, target) && i < |ids|
    ensures ids[i] in s.rules && s.rules[ids[i]].c.key.table < |s.nFlows|
    ensures Deleting(Out(Count(s, s.rules[ids[i]].c.key.table, -1), ids[i], v), v, ids, i + 1, target)
  {
    assert ids[i..][1..] == ids[i + 1..] && ids[i..][0] == ids[i];
  }

  ghost predicate Undeleting(s: Switch, ids: seq<Id>, i: nat, target: Switch) {
    i <= |ids| && AllIn(s, ids[i..]) && UndeleteAll(s, ids[i..]) == target
  }

  lemma UndeletingNext(s: Switch, ids: seq<Id>, i: nat, target: Switch)
    requires Undeleting(s, ids, i, target) && i < |ids|
    ensures ids[i] in s.rules && s.rules[ids[i]].c.key.table < |s.nFlows|
    ensures Undeleting(Count(Back(s, ids[i]), s.rules[ids[i]].c.key.table, 1), ids, i + 1, target)
  {
    assert ids[i..][1..] == ids[i + 1..] && ids[i..][0] == ids[i];
  }

  lemma EmptyHeaps(heaps: seq<seq<Id>>)
    requires forall t :: 0 <= t < |heaps| ==> heaps[t] == []
    ensures SumOf(heaps) == multiset{}
  {
    if heaps != [] { EmptyHeaps(heaps[1..]); }
  }

  lemma TheOnlyGroup(groups: map<Id, GroupObj>, s: Switch, gid: GroupId, r: Option<Id>)
    requires s.groups == AllGroups(groups) && OneToANumber(groups)
    requires r.None? ==> forall g :: !Holds(groups, gid, g)
    requires r.Some? ==> Holds(groups, gid, r.value)
    ensures FindGroup(s, gid) == r
  {
    OneCurrentMeans(groups, s);
    if r.Some? { assert IsCurrent(s, gid, r.value); }
  }

  lemma KnownIfHeld(groups: map<Id, GroupObj>, s: Switch, gid: GroupId, r: Option<Id>)
    requires s.groups == AllGroups(groups)
    requires r.None? ==> forall g :: !Holds(groups, gid, g)
    requires r.Some? ==> Holds(groups, gid, r.value)
    ensures GroupKnown(s, gid) <==> r.Some?
  {
    if GroupKnown(s, gid) {
      var g :| g in s.groups && s.groups[g].gid == gid && s.groups[g].versions.remove.None?;
      assert Holds(groups, gid, g);
    }
    if r.Some? { assert r.value in s.groups && s.groups[r.value].gid == gid; }
  }

  lemma NoneHeld(groups: map<Id, GroupObj>, s: Switch, gid: GroupId)
    requires s.groups == AllGroups(groups) && FindGroup(s, gid).None?
    ensures forall g :: !Holds(groups, gid, g)
  {
    forall g ensures !Holds(groups, gid, g) { assert !IsCurrent(s, gid, g); }
  }
}
