/** What flow mods keep: one rule per key in every version, counters that agree with the
    classifier, and unchanged views of all earlier versions. */
module FlowModInv {
  import opened FlowTable
  import opened FlowMod
  import opened FlowModRevert

  // ---------- views ----------

  ghost function ViewIds(s: Switch, w: nat): set<Id> {
    set id | id in s.rules && VisibleAt(s.rules[id].versions, w)
  }

  /** The rules a lookup in version `w` sees. */
  ghost function View(s: Switch, w: nat): set<Content> {
    set id | id in ViewIds(s, w) :: s.rules[id].c
  }

  datatype GroupContent = GroupContent(gid: GroupId, kind: nat, body: nat)

  function PlainGroup(g: Group): GroupContent {
    GroupContent(g.gid, g.kind, g.body)
  }

  ghost function GroupIds(s: Switch, w: nat): set<Id> {
    set g | g in s.groups && VisibleAt(s.groups[g].versions, w)
  }

  ghost function GroupView(s: Switch, w: nat): set<GroupContent> {
    set g | g in GroupIds(s, w) :: PlainGroup(s.groups[g])
  }

  // ---------- the invariant ----------

  /** Nothing is dated after version `v`. */
  predicate Timely(vs: Versions, v: nat) {
    vs.add <= v && (vs.remove.Some? ==> vs.add <= vs.remove.value <= v)
  }

  ghost predicate NeverTogether(a: Versions, b: Versions) {
    forall w: nat :: !(VisibleAt(a, w) && VisibleAt(b, w))
  }

  ghost predicate OneRulePerKey(s: Switch) {
    forall i, j :: i in s.rules && j in s.rules && i != j && s.rules[i].c.key == s.rules[j].c.key
      ==> NeverTogether(s.rules[i].versions, s.rules[j].versions)
  }

  ghost function InTable(s: Switch, t: nat): set<Id> {
    set id | id in s.rules && s.rules[id].state.Inserted? && s.rules[id].c.key.table == t
  }

  ghost function OfKind(s: Switch, k: nat): set<Id> {
    set g | g in s.groups && s.groups[g].versions.remove.None? && s.groups[g].kind == k
  }

  ghost predicate GroupsOk(s: Switch, next: nat, v: nat) {
    && |s.nGroups| == |s.maxGroups|
    && (forall g :: g in s.groups ==> g < next && Timely(s.groups[g].versions, v) && s.groups[g].kind < |s.nGroups|)
    && (forall g, h :: g in s.groups && h in s.groups && g != h && s.groups[g].gid == s.groups[h].gid
          ==> NeverTogether(s.groups[g].versions, s.groups[h].versions))
    && (forall k :: 0 <= k < |s.nGroups| ==> s.nGroups[k] == |OfKind(s, k)|)
  }

  ghost predicate RulesOk(s: Switch, v: nat) {
    && (forall id :: id in s.rules ==> Timely(s.rules[id].versions, v))
    && OneRulePerKey(s)
    && (forall id :: id in s.rules && s.rules[id].state.Inserted? ==> ActionsOk(s, s.rules[id].c.actions))
  }

  ghost predicate CountsOk(s: Switch) {
    |s.nFlows| == |s.tables| && forall t :: 0 <= t < |s.nFlows| ==> s.nFlows[t] == |InTable(s, t)|
  }

  /** Tables and kinds are in range and the ids from `next` on are unused: all that starting anything needs. */
  ghost predicate Runnable(s: Switch, next: nat) {
    && TablesInRange(s) && |s.nGroups| == |s.maxGroups|
    && (forall id: nat :: id >= next ==> id !in s.rules)
    && (forall g :: g in s.groups ==> g < next && s.groups[g].kind < |s.nGroups|)
  }

  /** `v` is the version of the newest change, published or not. */
  ghost predicate Inv(s: Switch, next: nat, v: nat) {
    Coherent(s, next) && RulesOk(s, v) && CountsOk(s) && GroupsOk(s, next, v)
  }

  /** In the newest version exactly the inserted rules are visible. */
  lemma NewestView(s: Switch, next: nat, v: nat)
    requires Inv(s, next, v)
    ensures SettledBy(s, v)
    ensures forall id :: id in s.rules ==> (VisibleAt(s.rules[id].versions, v) <==> s.rules[id].state.Inserted?)
    ensures forall id :: id in ViewIds(s, v) <==> IsInserted(s, id)
  {
    forall id | id in s.rules
      ensures VisibleAt(s.rules[id].versions, v) <==> s.rules[id].state.Inserted?
      ensures s.rules[id].versions.remove.Some? ==> s.rules[id].versions.remove.value <= v
    {
      assert Agrees(s, id);
    }
  }

  // ---------- agreement of the redundant structures ----------

  lemma AgreesOut(s: Switch, id: Id, v: nat)
    requires (forall x: nat :: Agrees(s, x)) && IsInserted(s, id)
    ensures forall x: nat :: Agrees(Out(s, id, v), x)
  {
    var t := Out(s, id, v);
    forall x: nat ensures Agrees(t, x) {
      assert Agrees(s, x);
    }
  }

  lemma AgreesIn(s: Switch, id: Id, c: Content, v: nat)
    requires (forall x: nat :: Agrees(s, x)) && id !in s.rules
    ensures forall x: nat :: Agrees(In(s, id, c, v), x)
  {
    var t := In(s, id, c, v);
    forall x: nat ensures Agrees(t, x) {
      assert Agrees(s, x);
    }
  }

  /** Changing members changes nothing else about groups. */
  lemma SameGroups(s: Switch, t: Switch, next: nat, next': nat, v: nat)
    requires GroupsOk(s, next, v) && next <= next'
    requires SameButMembers(s, t)
    ensures GroupsOk(t, next', v)
    ensures forall gid :: GroupKnown(s, gid) <==> GroupKnown(t, gid)
    ensures forall w: nat :: GroupView(t, w) == GroupView(s, w)
  {
    forall g | g in s.groups
      ensures t.groups[g].gid == s.groups[g].gid && t.groups[g].kind == s.groups[g].kind
              && t.groups[g].body == s.groups[g].body && t.groups[g].versions == s.groups[g].versions
    {
      assert t.groups[g].(members := multiset{}).gid == s.groups[g].gid;
      assert t.groups[g].(members := multiset{}).kind == s.groups[g].kind;
      assert t.groups[g].(members := multiset{}).body == s.groups[g].body;
      assert t.groups[g].(members := multiset{}).versions == s.groups[g].versions;
    }
    forall k ensures OfKind(t, k) == OfKind(s, k) {}
    forall w: nat ensures GroupView(t, w) == GroupView(s, w) {
      assert GroupIds(t, w) == GroupIds(s, w);
    }
  }

  // ---------- one replacement ----------

  function Gone(r: Rule, v: nat): Rule {
    r.(versions := r.versions.(remove := Some(v)), state := Removed)
  }

  /** What a replacement amounts to for rules, counts and groups, members aside. */
  ghost predicate Replaced(s: Switch, t: Switch, v: nat, prior: Option<Id>, c: Content, id: Id) {
    && RuleReplaced(s.rules, t.rules, v, prior, c, id)
    && c.key.table < |s.nFlows|
    && t.nFlows == (if prior.None? then s.nFlows[c.key.table := s.nFlows[c.key.table] + 1] else s.nFlows)
    && t.tables == s.tables && t.version == s.version
    && SameButMembers(s, t)
  }

  ghost predicate RuleReplaced(r: map<Id, Rule>, r': map<Id, Rule>, v: nat, prior: Option<Id>, c: Content, id: Id) {
    && id !in r && (prior.Some? ==> prior.value in r)
    && r'.Keys == r.Keys + {id}
    && r'[id] == Rule(c, Versions(v, None), Inserted, false)
    && (forall x :: x in r ==> r'[x] == if prior == Some(x) then Gone(r[x], v) else r[x])
  }

  ghost predicate SameButMembers(s: Switch, t: Switch) {
    && t.groups.Keys == s.groups.Keys && t.nGroups == s.nGroups && t.maxGroups == s.maxGroups
    && (forall g :: g in s.groups ==> t.groups[g].(members := multiset{}) == s.groups[g].(members := multiset{}))
  }

  lemma ReplaceIsReplaced(s: Switch, v: nat, prior: Option<Id>, c: Content, id: Id)
    requires c.key.table < |s.nFlows| && (prior.Some? ==> prior.value in s.rules) && id !in s.rules
    ensures Replaced(s, Replace(s, v, prior, c, id), v, prior, c, id)
  {
    if prior.Some? {
      InIsReplaced(s, Out(s, prior.value, v), v, prior, c, id);
    } else {
      InIsReplaced(s, Count(s, c.key.table, 1), v, prior, c, id);
    }
  }

  lemma InIsReplaced(s: Switch, u: Switch, v: nat, prior: Option<Id>, c: Content, id: Id)
    requires c.key.table < |s.nFlows| && (prior.Some? ==> prior.value in s.rules) && id !in s.rules
    requires u.tables == s.tables && u.version == s.version && SameButMembers(s, u)
    requires u.nFlows == if prior.None? then s.nFlows[c.key.table := s.nFlows[c.key.table] + 1] else s.nFlows
    requires u.rules == if prior.Some? then s.rules[prior.value := Gone(s.rules[prior.value], v)] else s.rules
    ensures Replaced(s, In(u, id, c, v), v, prior, c, id)
  {
  }

  /** The old rule, if any, is the one with the new rule's key, or no rule has that key now. */
  ghost predicate MayReplace(s: Switch, v: nat, prior: Option<Id>, c: Content) {
    && (prior.Some? ==> IsInserted(s, prior.value) && s.rules[prior.value].c.key.table == c.key.table)
    && (forall id :: id in s.rules && s.rules[id].c.key == c.key && VisibleAt(s.rules[id].versions, v) ==> prior == Some(id))
  }

  lemma ReplacedOneRulePerKey(s: Switch, t: Switch, v: nat, prior: Option<Id>, c: Content, id: Id)
    requires Replaced(s, t, v, prior, c, id) && MayReplace(s, v, prior, c) && SettledBy(s, v) && OneRulePerKey(s)
    requires forall x :: x in s.rules ==> Timely(s.rules[x].versions, v)
    requires prior.Some? ==> s.rules[prior.value].versions.remove.None?
    ensures OneRulePerKey(t)
  {
    forall i, j | i in t.rules && j in t.rules && i != j && t.rules[i].c.key == t.rules[j].c.key
      ensures NeverTogether(t.rules[i].versions, t.rules[j].versions)
    {
      if i == id { NewRuleAlone(s, t, v, prior, c, j, id); }
      else if j == id { NewRuleAlone(s, t, v, prior, c, i, id); }
      else { ShrunkApart(s, t, v, prior, c, i, j, id); }
    }
  }

  lemma ShrunkApart(s: Switch, t: Switch, v: nat, prior: Option<Id>, c: Content, i: Id, j: Id, id: Id)
    requires Replaced(s, t, v, prior, c, id) && i in s.rules && j in s.rules
    requires prior.Some? ==> s.rules[prior.value].versions.remove.None?
    requires NeverTogether(s.rules[i].versions, s.rules[j].versions)
    ensures NeverTogether(t.rules[i].versions, t.rules[j].versions)
  {
    forall w: nat ensures !(VisibleAt(t.rules[i].versions, w) && VisibleAt(t.rules[j].versions, w)) {
      assert VisibleAt(t.rules[i].versions, w) ==> VisibleAt(s.rules[i].versions, w);
      assert VisibleAt(t.rules[j].versions, w) ==> VisibleAt(s.rules[j].versions, w);
    }
  }

  lemma NewRuleAlone(s: Switch, t: Switch, v: nat, prior: Option<Id>, c: Content, j: Id, id: Id)
    requires Replaced(s, t, v, prior, c, id) && MayReplace(s, v, prior, c) && SettledBy(s, v)
    requires j in s.rules && Timely(s.rules[j].versions, v) && s.rules[j].c.key == c.key
    ensures NeverTogether(t.rules[j].versions, t.rules[id].versions)
    ensures NeverTogether(t.rules[id].versions, t.rules[j].versions)
  {
    forall w: nat ensures !(VisibleAt(t.rules[j].versions, w) && VisibleAt(t.rules[id].versions, w)) {
      if w >= v && prior != Some(j) { assert !VisibleAt(s.rules[j].versions, v); }
    }
  }

  lemma ReplacedKeepsRulesOk(s: Switch, t: Switch, next: nat, v: nat, prior: Option<Id>, c: Content, id: Id)
    requires Inv(s, next, v) && MayReplace(s, v, prior, c) && Replaced(s, t, v, prior, c, id)
    requires ActionsOk(s, c.actions)
    ensures RulesOk(t, v)
  {
    PriorIsLive(s, next, v, prior, c);
    ReplacedOneRulePerKey(s, t, v, prior, c, id);
    SameGroups(s, t, next, next, v);
    ReplacedActionsOk(s, t, v, prior, c, id);
    ReplacedTimely(s.rules, t.rules, v, prior, c, id);
  }

  lemma PriorIsLive(s: Switch, next: nat, v: nat, prior: Option<Id>, c: Content)
    requires Inv(s, next, v) && MayReplace(s, v, prior, c)
    ensures SettledBy(s, v) && (prior.Some? ==> s.rules[prior.value].versions.remove.None?)
  {
    NewestView(s, next, v);
    if prior.Some? { assert Agrees(s, prior.value); }
  }

  lemma ReplacedTimely(r: map<Id, Rule>, r': map<Id, Rule>, v: nat, prior: Option<Id>, c: Content, id: Id)
    requires RuleReplaced(r, r', v, prior, c, id) && forall x :: x in r ==> Timely(r[x].versions, v)
    ensures forall x :: x in r' ==> Timely(r'[x].versions, v)
  {
    forall x | x in r' ensures Timely(r'[x].versions, v) {
      if x != id { assert Timely(r[x].versions, v); }
    }
  }

  lemma ReplacedActionsOk(s: Switch, t: Switch, v: nat, prior: Option<Id>, c: Content, id: Id)
    requires RuleReplaced(s.rules, t.rules, v, prior, c, id)
    requires forall gid :: GroupKnown(s, gid) <==> GroupKnown(t, gid)
    requires ActionsOk(s, c.actions)
    requires forall x :: x in s.rules && s.rules[x].state.Inserted? ==> ActionsOk(s, s.rules[x].c.actions)
    ensures forall x :: x in t.rules && t.rules[x].state.Inserted? ==> ActionsOk(t, t.rules[x].c.actions)
  {
    forall x | x in t.rules && t.rules[x].state.Inserted? ensures ActionsOk(t, t.rules[x].c.actions) {
      if x != id { assert s.rules[x].state.Inserted? && ActionsOk(s, s.rules[x].c.actions); }
    }
  }

  predicate Counted(r: map<Id, Rule>, k: nat, x: Id) {
    x in r && r[x].state.Inserted? && r[x].c.key.table == k
  }

  lemma CountedReplaced(r: map<Id, Rule>, r': map<Id, Rule>, v: nat, prior: Option<Id>, c: Content, id: Id, k: nat, x: Id)
    requires RuleReplaced(r, r', v, prior, c, id)
    ensures x != id && prior != Some(x) ==> (Counted(r', k, x) <==> Counted(r, k, x))
    ensures prior == Some(x) ==> !Counted(r', k, x)
    ensures Counted(r', k, id) <==> k == c.key.table
  {
  }

  lemma InTableReplaced(s: Switch, t: Switch, v: nat, prior: Option<Id>, c: Content, id: Id, k: nat)
    requires RuleReplaced(s.rules, t.rules, v, prior, c, id)
    requires prior.Some? ==> Counted(s.rules, c.key.table, prior.value)
    ensures |InTable(t, k)| == |InTable(s, k)| + (if prior.None? && k == c.key.table then 1 else 0)
  {
    var a, b := InTable(s, k), InTable(t, k);
    forall x ensures x in b <==> (x in a && prior != Some(x)) || (x == id && k == c.key.table) {
      CountedReplaced(s.rules, t.rules, v, prior, c, id, k, x);
      assert (x in a <==> Counted(s.rules, k, x)) && (x in b <==> Counted(t.rules, k, x));
    }
    assert prior.Some? && k == c.key.table ==> prior.value in a;
    assert prior.Some? && k != c.key.table ==> prior.value !in a;
    SwapSize(a, b, prior, if k == c.key.table then Some(id) else None);
  }

  lemma SwapSize(a: set<Id>, b: set<Id>, gone: Option<Id>, come: Option<Id>)
    requires forall x :: x in b <==> (x in a && gone != Some(x)) || come == Some(x)
    requires come.Some? ==> come.value !in a
    ensures |b| == |a| - (if gone.Some? && gone.value in a then 1 else 0) + (if come.Some? then 1 else 0)
  {
    var a' := if gone.Some? then a - {gone.value} else a;
    assert b == if come.Some? then a' + {come.value} else a';
  }

  lemma ReplacedKeepsCounts(s: Switch, t: Switch, v: nat, prior: Option<Id>, c: Content, id: Id)
    requires CountsOk(s) && Replaced(s, t, v, prior, c, id)
    requires prior.Some? ==> Counted(s.rules, c.key.table, prior.value)
    ensures CountsOk(t)
  {
    forall k | 0 <= k < |t.nFlows| ensures t.nFlows[k] == |InTable(t, k)| {
      InTableReplaced(s, t, v, prior, c, id, k);
    }
  }

  lemma ReplaceKeepsAgreement(s: Switch, v: nat, prior: Option<Id>, c: Content, id: Id)
    requires (forall x: nat :: Agrees(s, x)) && c.key.table < |s.nFlows| && id !in s.rules
    requires prior.Some? ==> IsInserted(s, prior.value)
    ensures forall x: nat :: Agrees(Replace(s, v, prior, c, id), x)
  {
    if prior.Some? {
      AgreesOut(s, prior.value, v);
      AgreesIn(Out(s, prior.value, v), id, c, v);
    } else {
      var u := Count(s, c.key.table, 1);
      forall x: nat ensures Agrees(u, x) { assert Agrees(s, x); }
      AgreesIn(u, id, c, v);
    }
  }

  lemma ReplaceKeepsInv(s: Switch, next: nat, v: nat, prior: Option<Id>, c: Content, id: Id)
    requires Inv(s, next, v) && MayReplace(s, v, prior, c)
    requires c.key.table < |s.tables| && id >= next && ActionsOk(s, c.actions)
    ensures Inv(Replace(s, v, prior, c, id), id + 1, v)
  {
    var t := Replace(s, v, prior, c, id);
    ReplaceIsReplaced(s, v, prior, c, id);
    ReplaceKeepsAgreement(s, v, prior, c, id);
    InvFromReplaced(s, t, next, v, prior, c, id);
  }

  lemma InvFromReplaced(s: Switch, t: Switch, next: nat, v: nat, prior: Option<Id>, c: Content, id: Id)
    requires Inv(s, next, v) && MayReplace(s, v, prior, c) && Replaced(s, t, v, prior, c, id)
    requires id >= next && ActionsOk(s, c.actions) && forall x: nat :: Agrees(t, x)
    ensures Inv(t, id + 1, v)
  {
    ReplacedKeepsRulesOk(s, t, next, v, prior, c, id);
    ReplacedKeepsCounts(s, t, v, prior, c, id);
    SameGroups(s, t, next, id + 1, v);
    ReplacedInRange(s, t, next, v, prior, c, id);
  }

  lemma ReplacedInRange(s: Switch, t: Switch, next: nat, v: nat, prior: Option<Id>, c: Content, id: Id)
    requires TablesInRange(s) && Replaced(s, t, v, prior, c, id) && id >= next
    requires forall x: nat :: x >= next ==> x !in s.rules
    ensures TablesInRange(t) && forall x: nat :: x >= id + 1 ==> x !in t.rules
  {
    forall x | x in t.rules ensures t.rules[x].c.key.table < |t.tables| {
      if x != id { assert s.rules[x].c.key.table < |s.tables|; }
    }
  }

  // ---------- what lookups see of one replacement ----------

  lemma ReplacedViews(s: Switch, t: Switch, next: nat, v: nat, prior: Option<Id>, c: Content, id: Id)
    requires Inv(s, next, v) && MayReplace(s, v, prior, c) && Replaced(s, t, v, prior, c, id)
    ensures forall w: nat :: w < v ==> View(t, w) == View(s, w)
    ensures View(t, v) == View(s, v) - (if prior.Some? then {s.rules[prior.value].c} else {}) + {c}
    ensures forall w: nat :: GroupView(t, w) == GroupView(s, w)
  {
    SameGroups(s, t, next, next, v);
    NewestView(s, next, v);
    if prior.Some? { assert Agrees(s, prior.value); }
    forall w: nat | w < v ensures View(t, w) == View(s, w) {
      assert ViewIds(t, w) == ViewIds(s, w);
    }
    ReplacedIds(s, t, v, prior, c, id);
    if prior.Some? { VisibleContentsDiffer(s, v, prior.value); }
    ReplacedView(s, t, v, prior, c, id);
  }

  lemma ReplacedIds(s: Switch, t: Switch, v: nat, prior: Option<Id>, c: Content, id: Id)
    requires Replaced(s, t, v, prior, c, id)
    ensures ViewIds(t, v) == ViewIds(s, v) - (if prior.Some? then {prior.value} else {}) + {id}
  {
  }

  /** No two rules visible together have the same content. */
  lemma VisibleContentsDiffer(s: Switch, v: nat, p: Id)
    requires OneRulePerKey(s) && p in ViewIds(s, v)
    ensures forall x :: x in ViewIds(s, v) && x != p ==> s.rules[x].c.key != s.rules[p].c.key
  {
    forall x | x in ViewIds(s, v) && x != p ensures s.rules[x].c.key != s.rules[p].c.key {
      assert VisibleAt(s.rules[x].versions, v) && VisibleAt(s.rules[p].versions, v);
    }
  }

  lemma ReplacedView(s: Switch, t: Switch, v: nat, prior: Option<Id>, c: Content, id: Id)
    requires Replaced(s, t, v, prior, c, id)
    requires ViewIds(t, v) == ViewIds(s, v) - (if prior.Some? then {prior.value} else {}) + {id}
    requires prior.Some? ==> prior.value in ViewIds(s, v)
    requires prior.Some? ==> forall x :: x in ViewIds(s, v) && x != prior.value ==> s.rules[x].c.key != s.rules[prior.value].c.key
    ensures View(t, v) == View(s, v) - (if prior.Some? then {s.rules[prior.value].c} else {}) + {c}
  {
    var gone := if prior.Some? then {s.rules[prior.value].c} else {};
    forall y | y in View(s, v) - gone + {c} ensures y in View(t, v) {
      if y in View(s, v) && y !in gone {
        var x :| x in ViewIds(s, v) && s.rules[x].c == y;
        assert x in ViewIds(t, v) && t.rules[x].c == y;
      } else {
        assert id in ViewIds(t, v) && t.rules[id].c == c;
      }
    }
    forall y | y in View(t, v) ensures y in View(s, v) - gone + {c} {
      var x :| x in ViewIds(t, v) && t.rules[x].c == y;
      if x != id { assert x in ViewIds(s, v) && s.rules[x].c == y; }
    }
  }
}
