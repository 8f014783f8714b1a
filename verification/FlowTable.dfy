/** Versioned flow tables: the classifier's rules and groups with the versions in which they are
    visible, and the redundant structures kept beside them. The primitive changes below are the ones
    every flow mod is made of. */
module FlowTable {

  datatype Option<+T> = None | Some(value: T)

  type Id = nat
  type GroupId = nat

  /** Required values of header bits; bits not mentioned are wildcarded. */
  type Pattern = map<nat, bool>

  datatype Key = Key(table: nat, pattern: Pattern, priority: nat)
  datatype Attrs = Attrs(idle: nat, hard: nat, importance: nat, checkOverlap: bool, created: nat)

  /** `groups` lists the group actions in order, `learns` the learn actions that delete what they taught, as pairs of
      cookie and table, and `body` stands for everything else. */
  datatype Actions = Actions(groups: seq<GroupId>, outPorts: set<nat>, learns: seq<(bv64, nat)>, body: nat)

  datatype Content = Content(key: Key, cookie: bv64, actions: Actions, attrs: Attrs)

  /** Visible from version `add` on and up to, excluding, version `remove`. */
  datatype Versions = Versions(add: nat, remove: Option<nat>)

  predicate VisibleAt(v: Versions, version: nat) {
    v.add <= version && (v.remove.None? || version < v.remove.value)
  }

  datatype RuleState = Initialized | Inserted | Removed
  datatype Rule = Rule(c: Content, versions: Versions, state: RuleState, evicted: bool)

  /** `members` is the collection of rules whose actions refer to the group. */
  datatype Group = Group(gid: GroupId, kind: nat, body: nat, versions: Versions, members: multiset<Id>)

  datatype TableConfig = TableConfig(maxFlows: nat, eviction: bool, readonly: bool, hidden: bool)

  /** `rules` and `groups` are what lookups see; `cookies`, `evictable` (how often a rule stands in an eviction heap),
      `nFlows`, `nGroups` and the groups' members repeat parts of it. */
  datatype Switch = Switch(
    rules: map<Id, Rule>, cookies: set<Id>, evictable: multiset<Id>, nFlows: seq<int>,
    groups: map<Id, Group>, nGroups: seq<int>,
    tables: seq<TableConfig>, maxGroups: seq<nat>, version: nat)

  // ---------- the primitive changes ----------

  predicate Evictable(tables: seq<TableConfig>, c: Content) {
    c.key.table < |tables| && tables[c.key.table].eviction && (c.attrs.hard != 0 || c.attrs.idle != 0)
  }

  function Joined(evictable: multiset<Id>, tables: seq<TableConfig>, id: Id, c: Content): multiset<Id> {
    if Evictable(tables, c) then evictable + multiset{id} else evictable
  }

  function Less(a: nat, b: nat): nat {
    if a < b then 0 else a - b
  }

  function Enlisted(o: Group, gids: multiset<GroupId>, id: Id): Group {
    if o.versions.remove.None? then o.(members := o.members[id := o.members[id] + gids[o.gid]]) else o
  }

  function Delisted(o: Group, gids: multiset<GroupId>, id: Id): Group {
    if o.versions.remove.None? then o.(members := o.members[id := Less(o.members[id], gids[o.gid])]) else o
  }

  /** Membership of rule `id` with group actions `gids`, added to the groups of the newest version. */
  function Enlist(groups: map<Id, Group>, gids: multiset<GroupId>, id: Id): map<Id, Group> {
    map g | g in groups :: Enlisted(groups[g], gids, id)
  }

  function Delist(groups: map<Id, Group>, gids: multiset<GroupId>, id: Id): map<Id, Group> {
    map g | g in groups :: Delisted(groups[g], gids, id)
  }

  function GroupsOf(c: Content): multiset<GroupId> {
    multiset(c.actions.groups)
  }

  /** Takes rule `id` out of the data structures and ends its visibility with version `v`; lookups of earlier versions
      still find it. */
  function Out(s: Switch, id: Id, v: nat): Switch
    requires id in s.rules
  {
    var r := s.rules[id];
    s.(rules := s.rules[id := r.(versions := r.versions.(remove := Some(v)), state := Removed)],
       cookies := s.cookies - {id},
       evictable := s.evictable - multiset{id},
       groups := Delist(s.groups, GroupsOf(r.c), id))
  }

  /** Undoes `Out`. */
  function Back(s: Switch, id: Id): Switch
    requires id in s.rules
  {
    var r := s.rules[id];
    s.(rules := s.rules[id := r.(versions := r.versions.(remove := None), state := Inserted)],
       cookies := s.cookies + {id},
       evictable := Joined(s.evictable, s.tables, id, r.c),
       groups := Enlist(s.groups, GroupsOf(r.c), id))
  }

  /** Puts a new rule into the data structures, visible from version `v` on. */
  function In(s: Switch, id: Id, c: Content, v: nat): Switch {
    s.(rules := s.rules[id := Rule(c, Versions(v, None), Inserted, false)],
       cookies := s.cookies + {id},
       evictable := Joined(s.evictable, s.tables, id, c),
       groups := Enlist(s.groups, GroupsOf(c), id))
  }

  /** Removes a rule that was never visible, everywhere and at once. */
  function Drop(s: Switch, id: Id): Switch
    requires id in s.rules
  {
    s.(rules := s.rules - {id},
       cookies := s.cookies - {id},
       evictable := s.evictable - multiset{id},
       groups := Delist(s.groups, GroupsOf(s.rules[id].c), id))
  }

  function Count(s: Switch, table: nat, delta: int): Switch
    requires table < |s.nFlows|
  {
    s.(nFlows := s.nFlows[table := s.nFlows[table] + delta])
  }

  // ---------- what each primitive undoes and leaves alone ----------

  ghost predicate IsInserted(s: Switch, id: Id) {
    id in s.rules && s.rules[id].state.Inserted?
  }

  /** The cookie index lists rule `id` exactly while it is inserted, and that is while no version ends it. */
  ghost predicate Indexed(s: Switch, id: Id) {
    && (id in s.cookies <==> IsInserted(s, id))
    && (id in s.rules ==> (s.rules[id].state.Inserted? <==> s.rules[id].versions.remove.None?))
  }

  /** The eviction heap holds rule `id` once while it is inserted and can be evicted, and only then. */
  ghost predicate Heaped(s: Switch, id: Id) {
    && s.evictable[id] == (if IsInserted(s, id) && Evictable(s.tables, s.rules[id].c) then 1 else 0)
    && (IsInserted(s, id) ==> !s.rules[id].evicted)
  }

  /** Every current group lists rule `id` as often as the inserted rule refers to it. */
  ghost predicate Listed(s: Switch, id: Id) {
    forall g :: g in s.groups ==>
      s.groups[g].members[id]
      == if IsInserted(s, id) && s.groups[g].versions.remove.None? then GroupsOf(s.rules[id].c)[s.groups[g].gid] else 0
  }

  /** The redundant structures agree with the classifier about rule `id`. */
  ghost predicate Agrees(s: Switch, id: Id) {
    Indexed(s, id) && Heaped(s, id) && Listed(s, id)
  }

  lemma MembersBack(m: multiset<Id>, id: Id, n: nat)
    ensures m[id := m[id] + n][id := Less(m[id] + n, n)] == m
    ensures n <= m[id] ==> m[id := Less(m[id], n)][id := Less(m[id], n) + n] == m
  {
    var a := m[id := m[id] + n][id := Less(m[id] + n, n)];
    assert forall x :: a[x] == m[x];
    if n <= m[id] {
      var b := m[id := Less(m[id], n)][id := Less(m[id], n) + n];
      assert forall x :: b[x] == m[x];
    }
  }

  lemma GroupBack(o: Group, gids: multiset<GroupId>, id: Id)
    ensures Delisted(Enlisted(o, gids, id), gids, id) == o
    ensures gids[o.gid] <= o.members[id] ==> Enlisted(Delisted(o, gids, id), gids, id) == o
  {
    MembersBack(o.members, id, gids[o.gid]);
  }

  lemma EnlistUndoesDelist(groups: map<Id, Group>, gids: multiset<GroupId>, id: Id)
    requires forall g :: g in groups && groups[g].versions.remove.None? ==> gids[groups[g].gid] <= groups[g].members[id]
    ensures Enlist(Delist(groups, gids, id), gids, id) == groups
  {
    var a := Enlist(Delist(groups, gids, id), gids, id);
    forall g | g in groups ensures a[g] == groups[g] { GroupBack(groups[g], gids, id); }
    assert a == groups;
  }

  lemma DelistUndoesEnlist(groups: map<Id, Group>, gids: multiset<GroupId>, id: Id)
    ensures Delist(Enlist(groups, gids, id), gids, id) == groups
  {
    var a := Delist(Enlist(groups, gids, id), gids, id);
    forall g | g in groups ensures a[g] == groups[g] { GroupBack(groups[g], gids, id); }
    assert a == groups;
  }

  lemma HeapBack(e: multiset<Id>, tables: seq<TableConfig>, id: Id, c: Content)
    ensures e[id] == 0 ==> Joined(e, tables, id, c) - multiset{id} == e
    ensures e[id] == (if Evictable(tables, c) then 1 else 0) ==> Joined(e - multiset{id}, tables, id, c) == e
  {
  }

  lemma BackUndoesOut(s: Switch, id: Id, v: nat)
    requires Agrees(s, id) && id in s.rules && s.rules[id].state.Inserted?
    ensures Back(Out(s, id, v), id) == s
  {
    var r := s.rules[id];
    assert s.rules[id := r.(versions := r.versions.(remove := Some(v)), state := Removed)][id := r] == s.rules;
    assert s.cookies - {id} + {id} == s.cookies;
    HeapBack(s.evictable, s.tables, id, r.c);
    EnlistUndoesDelist(s.groups, GroupsOf(r.c), id);
  }

  lemma DropUndoesIn(s: Switch, id: Id, c: Content, v: nat)
    requires Agrees(s, id) && id !in s.rules
    ensures Drop(In(s, id, c, v), id) == s
  {
    assert s.rules[id := Rule(c, Versions(v, None), Inserted, false)] - {id} == s.rules;
    assert s.cookies + {id} - {id} == s.cookies;
    HeapBack(s.evictable, s.tables, id, c);
    DelistUndoesEnlist(s.groups, GroupsOf(c), id);
  }

  lemma MembersCommute(m: multiset<Id>, i: Id, j: Id, a: nat, b: nat)
    requires i != j
    ensures m[i := a][j := b] == m[j := b][i := a]
  {
    var p, q := m[i := a][j := b], m[j := b][i := a];
    assert forall x :: p[x] == q[x];
  }

  /** What one rule does to a group and what another does commute. */
  lemma GroupCommutes(o: Group, gi: multiset<GroupId>, gj: multiset<GroupId>, i: Id, j: Id)
    requires i != j
    ensures Enlisted(Enlisted(o, gi, i), gj, j) == Enlisted(Enlisted(o, gj, j), gi, i)
    ensures Enlisted(Delisted(o, gi, i), gj, j) == Delisted(Enlisted(o, gj, j), gi, i)
    ensures Delisted(Delisted(o, gi, i), gj, j) == Delisted(Delisted(o, gj, j), gi, i)
  {
    var m, a, b := o.members, gi[o.gid], gj[o.gid];
    MembersCommute(m, i, j, m[i] + a, m[j] + b);
    MembersCommute(m, i, j, Less(m[i], a), m[j] + b);
    MembersCommute(m, i, j, Less(m[i], a), Less(m[j], b));
  }

  lemma EnlistsCommute(groups: map<Id, Group>, gi: multiset<GroupId>, gj: multiset<GroupId>, i: Id, j: Id)
    requires i != j
    ensures Enlist(Enlist(groups, gi, i), gj, j) == Enlist(Enlist(groups, gj, j), gi, i)
  {
    var a, b := Enlist(Enlist(groups, gi, i), gj, j), Enlist(Enlist(groups, gj, j), gi, i);
    forall g | g in groups ensures a[g] == b[g] { GroupCommutes(groups[g], gi, gj, i, j); }
    assert a == b;
  }

  lemma DelistEnlistCommute(groups: map<Id, Group>, gi: multiset<GroupId>, gj: multiset<GroupId>, i: Id, j: Id)
    requires i != j
    ensures Enlist(Delist(groups, gi, i), gj, j) == Delist(Enlist(groups, gj, j), gi, i)
  {
    var a, b := Enlist(Delist(groups, gi, i), gj, j), Delist(Enlist(groups, gj, j), gi, i);
    forall g | g in groups ensures a[g] == b[g] { GroupCommutes(groups[g], gi, gj, i, j); }
    assert a == b;
  }

  lemma DelistsCommute(groups: map<Id, Group>, gi: multiset<GroupId>, gj: multiset<GroupId>, i: Id, j: Id)
    requires i != j
    ensures Delist(Delist(groups, gi, i), gj, j) == Delist(Delist(groups, gj, j), gi, i)
  {
    var a, b := Delist(Delist(groups, gi, i), gj, j), Delist(Delist(groups, gj, j), gi, i);
    forall g | g in groups ensures a[g] == b[g] { GroupCommutes(groups[g], gi, gj, i, j); }
    assert a == b;
  }

  lemma JoinedAt(e: multiset<Id>, tables: seq<TableConfig>, id: Id, c: Content, x: Id)
    ensures Joined(e, tables, id, c)[x] == e[x] + (if x == id && Evictable(tables, c) then 1 else 0)
  {
  }

  lemma JoinLeaveCommute(e: multiset<Id>, tables: seq<TableConfig>, i: Id, ci: Content, j: Id)
    requires i != j
    ensures Joined(e - multiset{j}, tables, i, ci) == Joined(e, tables, i, ci) - multiset{j}
  {
    var a, b := Joined(e - multiset{j}, tables, i, ci), Joined(e, tables, i, ci) - multiset{j};
    forall x ensures a[x] == b[x] {
      JoinedAt(e - multiset{j}, tables, i, ci, x);
      JoinedAt(e, tables, i, ci, x);
    }
    assert a == b;
  }

  lemma JoinsCommute(e: multiset<Id>, tables: seq<TableConfig>, i: Id, ci: Content, j: Id, cj: Content)
    ensures Joined(Joined(e, tables, j, cj), tables, i, ci) == Joined(Joined(e, tables, i, ci), tables, j, cj)
  {
    var a, b := Joined(Joined(e, tables, j, cj), tables, i, ci), Joined(Joined(e, tables, i, ci), tables, j, cj);
    forall x ensures a[x] == b[x] {
      JoinedAt(e, tables, i, ci, x);
      JoinedAt(e, tables, j, cj, x);
      JoinedAt(Joined(e, tables, j, cj), tables, i, ci, x);
      JoinedAt(Joined(e, tables, i, ci), tables, j, cj, x);
    }
    assert a == b;
  }

  lemma LeavesCommute(e: multiset<Id>, i: Id, j: Id)
    ensures e - multiset{i} - multiset{j} == e - multiset{j} - multiset{i}
  {
    var a, b := e - multiset{i} - multiset{j}, e - multiset{j} - multiset{i};
    forall x ensures a[x] == b[x] {}
    assert a == b;
  }

  lemma RulesCommute(r: map<Id, Rule>, i: Id, a: Rule, j: Id, b: Rule)
    requires i != j
    ensures r[i := a][j := b] == r[j := b][i := a]
    ensures r[i := a] - {j} == (r - {j})[i := a]
  {
  }

  lemma CookiesCommute(c: set<Id>, i: Id, j: Id)
    requires i != j
    ensures c - {j} + {i} == c + {i} - {j} && c + {j} + {i} == c + {i} + {j} && c - {j} - {i} == c - {i} - {j}
  {
  }

  /** Changes to different rules commute. */
  lemma BackOutCommute(s: Switch, i: Id, j: Id, v: nat)
    requires i != j && i in s.rules && j in s.rules
    ensures Back(Out(s, j, v), i) == Out(Back(s, i), j, v)
  {
    var p, q := s.rules[i], s.rules[j];
    RulesCommute(s.rules, i, p.(versions := p.versions.(remove := None), state := Inserted),
                 j, q.(versions := q.versions.(remove := Some(v)), state := Removed));
    CookiesCommute(s.cookies, i, j);
    JoinLeaveCommute(s.evictable, s.tables, i, p.c, j);
    DelistEnlistCommute(s.groups, GroupsOf(q.c), GroupsOf(p.c), j, i);
  }

  lemma BackInCommute(s: Switch, i: Id, j: Id, c: Content, v: nat)
    requires i != j && i in s.rules
    ensures Back(In(s, j, c, v), i) == In(Back(s, i), j, c, v)
  {
    var p := s.rules[i];
    RulesCommute(s.rules, i, p.(versions := p.versions.(remove := None), state := Inserted),
                 j, Rule(c, Versions(v, None), Inserted, false));
    CookiesCommute(s.cookies, i, j);
    JoinsCommute(s.evictable, s.tables, i, p.c, j, c);
    EnlistsCommute(s.groups, GroupsOf(p.c), GroupsOf(c), i, j);
  }

  lemma DropOutCommute(s: Switch, i: Id, j: Id, v: nat)
    requires i != j && i in s.rules && j in s.rules
    ensures Drop(Out(s, j, v), i) == Out(Drop(s, i), j, v)
  {
    var p, q := s.rules[i], s.rules[j];
    RulesCommute(s.rules, j, q.(versions := q.versions.(remove := Some(v)), state := Removed), i, p);
    CookiesCommute(s.cookies, i, j);
    LeavesCommute(s.evictable, i, j);
    DelistsCommute(s.groups, GroupsOf(p.c), GroupsOf(q.c), i, j);
  }

  lemma DropInCommute(s: Switch, i: Id, j: Id, c: Content, v: nat)
    requires i != j && i in s.rules
    ensures Drop(In(s, j, c, v), i) == In(Drop(s, i), j, c, v)
  {
    var p := s.rules[i];
    RulesCommute(s.rules, j, Rule(c, Versions(v, None), Inserted, false), i, p);
    CookiesCommute(s.cookies, j, i);
    JoinLeaveCommute(s.evictable, s.tables, j, c, i);
    DelistEnlistCommute(s.groups, GroupsOf(p.c), GroupsOf(c), i, j);
  }
}
