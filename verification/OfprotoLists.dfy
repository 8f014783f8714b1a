/** The lists the program keeps beside its classifier: buckets of the cookie index, one eviction heap to a table, and
    one list of rules to a group. */
module OfprotoLists {
  import opened FlowTable
  import opened FlowMod
  import opened GroupMod

  // ---------- the cookie index ----------

  /** The nodes of a hash index by hash value. */
  type Buckets = map<nat, set<Id>>

  function CookiesOf(b: Buckets): set<Id> {
    set h, id | h in b && id in b[h] :: id
  }

  function Bucket(b: Buckets, h: nat): set<Id> {
    if h in b then b[h] else {}
  }

  function Hashed(b: Buckets, h: nat, id: Id): Buckets {
    b[h := Bucket(b, h) + {id}]
  }

  function Unhashed(b: Buckets, h: nat, id: Id): Buckets {
    b[h := Bucket(b, h) - {id}]
  }

  lemma HashedCookies(b: Buckets, h: nat, id: Id)
    ensures CookiesOf(Hashed(b, h, id)) == CookiesOf(b) + {id}
  {
    var c := Hashed(b, h, id);
    forall x | x in CookiesOf(b) + {id} ensures x in CookiesOf(c) {
      if x == id { assert h in c && id in c[h]; }
      else {
        var g :| g in b && x in b[g];
        assert g in c && x in c[g];
      }
    }
  }

  lemma UnhashedCookies(b: Buckets, h: nat, id: Id)
    requires forall g :: g in b && id in b[g] ==> g == h
    ensures CookiesOf(Unhashed(b, h, id)) == CookiesOf(b) - {id}
  {
    var c := Unhashed(b, h, id);
    forall x | x in CookiesOf(b) - {id} ensures x in CookiesOf(c) {
      var g :| g in b && x in b[g];
      assert g in c && x in c[g];
    }
    assert forall g :: g in c && g != h ==> c[g] == b[g];
  }

  // ---------- eviction heaps ----------

  /** All entries of the heaps. */
  function SumOf(heaps: seq<seq<Id>>): multiset<Id> {
    if heaps == [] then multiset{} else multiset(heaps[0]) + SumOf(heaps[1..])
  }

  lemma {:induction false} SumUpdate(heaps: seq<seq<Id>>, t: nat, l: seq<Id>)
    requires t < |heaps|
    ensures SumOf(heaps[t := l]) + multiset(heaps[t]) == SumOf(heaps) + multiset(l)
  {
    if t == 0 {
      assert heaps[0 := l][1..] == heaps[1..];
    } else {
      assert heaps[t := l][1..] == heaps[1..][t - 1 := l];
      SumUpdate(heaps[1..], t - 1, l);
      var h, a, b := multiset(heaps[0]), SumOf(heaps[1..][t - 1 := l]), SumOf(heaps[1..]);
      assert h + a + multiset(heaps[t]) == h + (a + multiset(heaps[t])) == h + (b + multiset(l)) == h + b + multiset(l);
    }
  }

  lemma {:induction false} InSomeHeap(heaps: seq<seq<Id>>, id: Id)
    ensures SumOf(heaps)[id] > 0 <==> exists t :: 0 <= t < |heaps| && id in heaps[t]
  {
    if heaps != [] {
      InSomeHeap(heaps[1..], id);
      if id in heaps[0] { assert id in multiset(heaps[0]); }
      if t :| 0 <= t < |heaps[1..]| && id in heaps[1..][t] { assert id in heaps[t + 1]; }
      if t :| 0 <= t < |heaps| && id in heaps[t] && t > 0 { assert id in heaps[1..][t - 1]; }
    }
  }

  /** `l` without its first entry of `id`, if it has one. */
  function RemoveFirst(l: seq<Id>, id: Id): (r: seq<Id>) {
    if l == [] then [] else if l[0] == id then l[1..] else [l[0]] + RemoveFirst(l[1..], id)
  }

  lemma {:induction false} RemovedOnce(l: seq<Id>, id: Id)
    ensures multiset(RemoveFirst(l, id)) == multiset(l) - multiset{id}
  {
    if l != [] {
      assert l == [l[0]] + l[1..];
      if l[0] != id { RemovedOnce(l[1..], id); }
    }
  }

  /** The program finds the entry by its position. */
  lemma {:induction false} RemovedAt(l: seq<Id>, id: Id, k: nat)
    requires k < |l| && l[k] == id && id !in l[..k]
    ensures RemoveFirst(l, id) == l[..k] + l[k + 1..]
  {
    if k > 0 {
      assert l[0] in l[..k];
      assert l[1..][..k - 1] == l[..k][1..];
      RemovedAt(l[1..], id, k - 1);
      assert l[1..][k..] == l[k + 1..];
    }
  }

  lemma {:induction false} NothingRemoved(l: seq<Id>, id: Id)
    requires id !in l
    ensures RemoveFirst(l, id) == l
  {
    if l != [] { NothingRemoved(l[1..], id); }
  }

  lemma HeapedSum(heaps: seq<seq<Id>>, t: nat, id: Id)
    requires t < |heaps|
    ensures SumOf(heaps[t := heaps[t] + [id]]) == SumOf(heaps) + multiset{id}
  {
    SumUpdate(heaps, t, heaps[t] + [id]);
    var s, r := SumOf(heaps), SumOf(heaps[t := heaps[t] + [id]]);
    assert multiset(heaps[t] + [id]) == multiset(heaps[t]) + multiset{id};
    forall x ensures r[x] == (s + multiset{id})[x] {
      assert (r + multiset(heaps[t]))[x] == (s + (multiset(heaps[t]) + multiset{id}))[x];
    }
  }

  lemma UnheapedSum(heaps: seq<seq<Id>>, t: nat, id: Id)
    requires t < |heaps| && forall k :: 0 <= k < |heaps| && id in heaps[k] ==> k == t
    ensures SumOf(heaps[t := RemoveFirst(heaps[t], id)]) == SumOf(heaps) - multiset{id}
  {
    SumUpdate(heaps, t, RemoveFirst(heaps[t], id));
    RemovedOnce(heaps[t], id);
    InSomeHeap(heaps, id);
    var s, r := SumOf(heaps), SumOf(heaps[t := RemoveFirst(heaps[t], id)]);
    forall x ensures r[x] == (s - multiset{id})[x] {
      assert (r + multiset(heaps[t]))[x] == (s + (multiset(heaps[t]) - multiset{id}))[x];
      assert x == id && multiset(heaps[t])[id] == 0 ==> id !in heaps[t];
    }
  }

  // ---------- groups with their lists of rules ----------

  datatype GroupObj = GroupObj(gid: GroupId, kind: nat, body: nat, versions: Versions, rules: seq<Id>)

  function GroupOf(o: GroupObj): Group {
    Group(o.gid, o.kind, o.body, o.versions, multiset(o.rules))
  }

  function AllGroups(groups: map<Id, GroupObj>): map<Id, Group> {
    map g | g in groups :: GroupOf(groups[g])
  }

  predicate Holds(groups: map<Id, GroupObj>, gid: GroupId, g: Id) {
    g in groups && groups[g].gid == gid && groups[g].versions.remove.None?
  }

  /** No two current groups have one number. */
  ghost predicate OneToANumber(groups: map<Id, GroupObj>) {
    forall g, h, gid :: Holds(groups, gid, g) && Holds(groups, gid, h) ==> g == h
  }

  /** Some current group has the number. */
  ghost predicate Has(groups: map<Id, GroupObj>, gid: GroupId) {
    exists g :: Holds(groups, gid, g)
  }

  /** The same numbers have current groups. */
  ghost predicate SameNumbers(a: map<Id, GroupObj>, b: map<Id, GroupObj>) {
    forall gid :: Has(a, gid) <==> Has(b, gid)
  }

  lemma StillNumbered(groups: map<Id, GroupObj>, g: Id, l: seq<Id>)
    requires g in groups
    ensures SameNumbers(groups, groups[g := groups[g].(rules := l)])
  {
    var b := groups[g := groups[g].(rules := l)];
    forall gid, h ensures Holds(groups, gid, h) <==> Holds(b, gid, h) {}
  }

  lemma KnownIfHas(groups: map<Id, GroupObj>, s: Switch, gid: GroupId)
    requires s.groups == AllGroups(groups)
    ensures GroupKnown(s, gid) <==> Has(groups, gid)
  {
    if GroupKnown(s, gid) {
      var g :| g in s.groups && s.groups[g].gid == gid && s.groups[g].versions.remove.None?;
      assert Holds(groups, gid, g);
    }
    if g :| Holds(groups, gid, g) { assert g in s.groups && s.groups[g].gid == gid; }
  }

  /** Every number has a current group. */
  ghost predicate HasAll(groups: map<Id, GroupObj>, gids: seq<GroupId>) {
    forall gid :: gid in gids ==> Has(groups, gid)
  }

  lemma OkIfHasAll(groups: map<Id, GroupObj>, s: Switch, a: Actions)
    requires s.groups == AllGroups(groups)
    ensures ActionsOk(s, a) <==> HasAll(groups, a.groups)
  {
    forall gid ensures GroupKnown(s, gid) <==> Has(groups, gid) { KnownIfHas(groups, s, gid); }
  }

  function Joined1(groups: map<Id, GroupObj>, g: Id, id: Id): map<Id, GroupObj>
    requires g in groups
  {
    groups[g := groups[g].(rules := groups[g].rules + [id])]
  }

  function Left1(groups: map<Id, GroupObj>, g: Id, id: Id): map<Id, GroupObj>
    requires g in groups
  {
    groups[g := groups[g].(rules := RemoveFirst(groups[g].rules, id))]
  }

  lemma SetTwice(m: multiset<Id>, id: Id, a: nat, b: nat)
    ensures m[id := a][id := b] == m[id := b]
    ensures m[id := m[id]] == m
  {
    var p, q := m[id := a][id := b], m[id := b];
    assert forall x :: p[x] == q[x];
    var r := m[id := m[id]];
    assert forall x :: r[x] == m[x];
  }

  lemma OneMore(l: seq<Id>, id: Id)
    ensures multiset(l + [id]) == multiset(l)[id := multiset(l)[id] + 1]
  {
    var a, b := multiset(l + [id]), multiset(l)[id := multiset(l)[id] + 1];
    assert forall x :: a[x] == b[x];
  }

  lemma OneLess(l: seq<Id>, id: Id)
    ensures multiset(RemoveFirst(l, id)) == multiset(l)[id := Less(multiset(l)[id], 1)]
  {
    RemovedOnce(l, id);
    var m := multiset(l);
    var a, b := m - multiset{id}, m[id := Less(m[id], 1)];
    forall x ensures a[x] == b[x] { if x != id { assert multiset{id}[x] == 0; } }
  }

  lemma EntersThis(o: GroupObj, gid: GroupId, id: Id)
    requires o.gid == gid && o.versions.remove.None?
    ensures Enlisted(GroupOf(o), multiset{gid}, id) == GroupOf(o.(rules := o.rules + [id]))
    ensures Delisted(GroupOf(o), multiset{gid}, id) == GroupOf(o.(rules := RemoveFirst(o.rules, id)))
  {
    OneMore(o.rules, id);
    OneLess(o.rules, id);
  }

  lemma PassesOther(o: GroupObj, gid: GroupId, id: Id)
    requires o.gid != gid || o.versions.remove.Some?
    ensures Enlisted(GroupOf(o), multiset{gid}, id) == GroupOf(o) == Delisted(GroupOf(o), multiset{gid}, id)
  {
    SetTwice(multiset(o.rules), id, 0, 0);
  }

  /** All groups but one are as they were. */
  lemma OneSet(groups: map<Id, GroupObj>, g: Id, o: GroupObj, target: map<Id, Group>)
    requires g in groups && target.Keys == groups.Keys && target[g] == GroupOf(o)
    requires forall h :: h in groups && h != g ==> target[h] == GroupOf(groups[h])
    ensures AllGroups(groups[g := o]) == target
  {
  }

  lemma OthersPass(groups: map<Id, GroupObj>, gid: GroupId, g: Id, id: Id)
    requires OneToANumber(groups) && Holds(groups, gid, g)
    ensures forall h :: h in groups && h != g ==> Enlisted(GroupOf(groups[h]), multiset{gid}, id) == GroupOf(groups[h])
    ensures forall h :: h in groups && h != g ==> Delisted(GroupOf(groups[h]), multiset{gid}, id) == GroupOf(groups[h])
  {
    forall h | h in groups && h != g
      ensures Enlisted(GroupOf(groups[h]), multiset{gid}, id) == GroupOf(groups[h]) == Delisted(GroupOf(groups[h]), multiset{gid}, id)
    {
      assert !Holds(groups, gid, h);
      PassesOther(groups[h], gid, id);
    }
  }

  /** Entering a rule in the one current group of a number. */
  lemma EntersGroup(groups: map<Id, GroupObj>, gid: GroupId, g: Id, id: Id)
    requires OneToANumber(groups) && Holds(groups, gid, g)
    ensures AllGroups(Joined1(groups, g, id)) == Enlist(AllGroups(groups), multiset{gid}, id)
  {
    OthersPass(groups, gid, g, id);
    EntersThis(groups[g], gid, id);
    OneSet(groups, g, groups[g].(rules := groups[g].rules + [id]), Enlist(AllGroups(groups), multiset{gid}, id));
  }

  lemma LeavesGroup(groups: map<Id, GroupObj>, gid: GroupId, g: Id, id: Id)
    requires OneToANumber(groups) && Holds(groups, gid, g)
    ensures AllGroups(Left1(groups, g, id)) == Delist(AllGroups(groups), multiset{gid}, id)
  {
    OthersPass(groups, gid, g, id);
    EntersThis(groups[g], gid, id);
    OneSet(groups, g, groups[g].(rules := RemoveFirst(groups[g].rules, id)), Delist(AllGroups(groups), multiset{gid}, id));
  }

  lemma StillOneToANumber(groups: map<Id, GroupObj>, g: Id, id: Id)
    requires OneToANumber(groups) && g in groups
    ensures OneToANumber(Joined1(groups, g, id)) && OneToANumber(Left1(groups, g, id))
  {
    forall x, y, n | Holds(Joined1(groups, g, id), n, x) && Holds(Joined1(groups, g, id), n, y) ensures x == y {
      assert Holds(groups, n, x) && Holds(groups, n, y);
    }
    forall x, y, n | Holds(Left1(groups, g, id), n, x) && Holds(Left1(groups, g, id), n, y) ensures x == y {
      assert Holds(groups, n, x) && Holds(groups, n, y);
    }
  }

  /** Where a number has no current group there is nothing to enter or leave. */
  lemma NoSuchGroup(groups: map<Id, GroupObj>, gid: GroupId, id: Id)
    requires forall g :: !Holds(groups, gid, g)
    ensures Enlist(AllGroups(groups), multiset{gid}, id) == AllGroups(groups)
    ensures Delist(AllGroups(groups), multiset{gid}, id) == AllGroups(groups)
  {
    var a := AllGroups(groups);
    forall h | h in groups
      ensures Enlist(a, multiset{gid}, id)[h] == a[h] && Delist(a, multiset{gid}, id)[h] == a[h]
    {
      assert !Holds(groups, gid, h);
      PassesOther(groups[h], gid, id);
    }
  }

  // ---------- group actions, one at a time ----------

  lemma EnlistNothing(groups: map<Id, Group>, id: Id)
    ensures Enlist(groups, multiset{}, id) == groups
  {
    forall g | g in groups ensures Enlist(groups, multiset{}, id)[g] == groups[g] {
      SetTwice(groups[g].members, id, 0, 0);
    }
  }

  lemma EnlistInParts(groups: map<Id, Group>, a: multiset<GroupId>, b: multiset<GroupId>, id: Id)
    ensures Enlist(Enlist(groups, a, id), b, id) == Enlist(groups, a + b, id)
  {
    var two, both := Enlist(Enlist(groups, a, id), b, id), Enlist(groups, a + b, id);
    forall g | g in groups ensures two[g] == both[g] {
      var m, n := groups[g].members, groups[g].gid;
      SetTwice(m, id, m[id] + a[n], m[id] + (a + b)[n]);
    }
    assert two == both;
  }

  lemma LessInParts(x: nat, a: nat, b: nat)
    ensures Less(Less(x, a), b) == Less(x, a + b)
  {
  }

  lemma DelistNothing(groups: map<Id, Group>, id: Id)
    ensures Delist(groups, multiset{}, id) == groups
  {
    forall g | g in groups ensures Delist(groups, multiset{}, id)[g] == groups[g] {
      SetTwice(groups[g].members, id, 0, 0);
    }
  }

  lemma DelistInParts(groups: map<Id, Group>, a: multiset<GroupId>, b: multiset<GroupId>, id: Id)
    ensures Delist(Delist(groups, a, id), b, id) == Delist(groups, a + b, id)
  {
    var two, both := Delist(Delist(groups, a, id), b, id), Delist(groups, a + b, id);
    forall g | g in groups ensures two[g] == both[g] {
      var m, n := groups[g].members, groups[g].gid;
      LessInParts(m[id], a[n], b[n]);
      SetTwice(m, id, Less(m[id], a[n]), Less(m[id], (a + b)[n]));
    }
    assert two == both;
  }

  // ---------- what the lists refer to ----------

  /** Every entry of the cookie index is a rule of the switch, in the bucket of its cookie. */
  ghost predicate BucketsOk(b: Buckets, rules: map<Id, Rule>, hash: bv64 -> nat) {
    forall h, id :: h in b && id in b[h] ==> id in rules && hash(rules[id].c.cookie) == h
  }

  /** Every rule of the switch that is in a heap is in that of its table. */
  ghost predicate HeapsOk(heaps: seq<seq<Id>>, rules: map<Id, Rule>) {
    forall t, id :: 0 <= t < |heaps| && id in heaps[t] && id in rules ==> rules[id].c.key.table == t
  }

  lemma NewRuleInNone(b: Buckets, heaps: seq<seq<Id>>, rules: map<Id, Rule>, hash: bv64 -> nat, id: Id, r: Rule)
    requires BucketsOk(b, rules, hash) && HeapsOk(heaps, rules) && id !in rules && id !in SumOf(heaps)
    ensures BucketsOk(b, rules[id := r], hash) && HeapsOk(heaps, rules[id := r])
  {
    InSomeHeap(heaps, id);
    assert forall h, x :: h in b && x in b[h] ==> x != id;
  }

  ghost predicate OneCurrent(s: Switch) {
    forall g, h, gid :: IsCurrent(s, gid, g) && IsCurrent(s, gid, h) ==> g == h
  }

  lemma OneCurrentMeans(groups: map<Id, GroupObj>, s: Switch)
    requires s.groups == AllGroups(groups)
    ensures forall gid, g :: IsCurrent(s, gid, g) <==> Holds(groups, gid, g)
    ensures OneCurrent(s) <==> OneToANumber(groups)
  {
    forall gid, g ensures IsCurrent(s, gid, g) <==> Holds(groups, gid, g) {}
    if OneCurrent(s) {
      forall g, h, gid | Holds(groups, gid, g) && Holds(groups, gid, h) ensures g == h {
        assert IsCurrent(s, gid, g) && IsCurrent(s, gid, h);
      }
    }
    if OneToANumber(groups) {
      forall g, h, gid | IsCurrent(s, gid, g) && IsCurrent(s, gid, h) ensures g == h {
        assert Holds(groups, gid, g) && Holds(groups, gid, h);
      }
    }
  }

  // ---------- entering and leaving all lists ----------

  /** `ofproto_rule_insert__`. */
  function Inserting(s: Switch, id: Id): Switch
    requires id in s.rules
  {
    var r := s.rules[id];
    s.(rules := s.rules[id := r.(state := Inserted)], cookies := s.cookies + {id},
       evictable := Joined(s.evictable, s.tables, id, r.c), groups := Enlist(s.groups, GroupsOf(r.c), id))
  }

  /** `ofproto_rule_remove__`. */
  function Removing(s: Switch, id: Id): Switch
    requires id in s.rules
  {
    var r := s.rules[id];
    s.(rules := s.rules[id := r.(state := Removed)], cookies := s.cookies - {id},
       evictable := s.evictable - multiset{id}, groups := Delist(s.groups, GroupsOf(r.c), id))
  }

  lemma OutInParts(s: Switch, id: Id, v: nat)
    requires id in s.rules
    ensures var r := s.rules[id];
            Removing(s.(rules := s.rules[id := r.(versions := r.versions.(remove := Some(v)))]), id) == Out(s, id, v)
  {
  }

  lemma BackInParts(s: Switch, id: Id)
    requires id in s.rules
    ensures var t := Inserting(s, id);
            var r := t.rules[id];
            t.(rules := t.rules[id := r.(versions := r.versions.(remove := None))]) == Back(s, id)
  {
  }

  lemma InInParts(s: Switch, id: Id, c: Content, v: nat)
    ensures Inserting(s.(rules := s.rules[id := Rule(c, Versions(v, None), Initialized, false)]), id) == In(s, id, c, v)
  {
  }

  lemma DropInParts(s: Switch, id: Id)
    requires id in s.rules
    ensures var t := Removing(s, id); t.(rules := t.rules - {id}) == Drop(s, id)
  {
    assert Removing(s, id).rules - {id} == s.rules - {id};
  }
}
