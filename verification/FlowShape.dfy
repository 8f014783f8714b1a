/** What starting and reverting a flow mod amounts to, whatever state it is done in: which rules leave, which
    come, and what becomes of the cookie index and the eviction heap. */
module FlowShape {
  import opened FlowTable
  import opened FlowMod
  import opened FlowModRevert
  import opened FlowModInv
  import FlowMeaning

  /** A rule that comes back. */
  function Reborn(r: Rule): Rule {
    r.(versions := r.versions.(remove := None), state := Inserted)
  }

  function Unmarked(r: Rule): Rule {
    r.(evicted := false)
  }

  predicate Newborn(r: Rule, v: nat) {
    r == Rule(r.c, Versions(v, None), Inserted, false)
  }

  function OneIf(b: bool): nat {
    if b then 1 else 0
  }

  ghost predicate SameFrame(s: Switch, t: Switch) {
    && t.tables == s.tables && t.version == s.version && |t.nFlows| == |s.nFlows| && SameButMembers(s, t)
  }

  // ---------- starts ----------

  /** The rules `olds` are no longer shown from version `v` on, and the rules `news` are. */
  ghost predicate RulesStarted(r: map<Id, Rule>, r': map<Id, Rule>, v: nat, olds: set<Id>, news: set<Id>) {
    && olds <= r.Keys && news !! r.Keys && r'.Keys == r.Keys + news
    && (forall id :: id in r && id !in olds ==> r'[id] == r[id])
    && (forall id :: id in olds ==> Unmarked(r'[id]) == Unmarked(Gone(r[id], v)) && (r[id].evicted ==> r'[id].evicted))
    && (forall id :: id in news ==> Newborn(r'[id], v))
  }

  ghost predicate HeapStarted(s: Switch, t: Switch, olds: set<Id>, news: set<Id>) {
    forall id: nat ::
      if id in news then id in t.rules && t.evictable[id] == s.evictable[id] + OneIf(Evictable(s.tables, t.rules[id].c))
      else if id in olds then t.evictable[id] <= Less(s.evictable[id], 1)
      else t.evictable[id] == s.evictable[id]
  }

  ghost predicate StartShape(s: Switch, t: Switch, v: nat, olds: set<Id>, news: set<Id>) {
    && RulesStarted(s.rules, t.rules, v, olds, news)
    && t.cookies == s.cookies - olds + news
    && HeapStarted(s, t, olds, news)
    && SameFrame(s, t)
  }

  // ---------- reverts ----------

  /** The rules `olds` are back in their place and the rules `news` are gone. */
  ghost predicate RulesReverted(r: map<Id, Rule>, r': map<Id, Rule>, olds: set<Id>, news: set<Id>) {
    && olds <= r.Keys && olds !! news && r'.Keys == r.Keys - news
    && (forall id :: id in r' && id !in olds ==> r'[id] == r[id])
    && (forall id :: id in olds ==> r'[id] == Reborn(r[id]))
  }

  ghost predicate HeapReverted(s: Switch, t: Switch, olds: set<Id>, news: set<Id>) {
    forall id: nat ::
      if id in news then t.evictable[id] == Less(s.evictable[id], 1)
      else if id in olds then
        && id in s.rules
        && (!s.rules[id].evicted ==> t.evictable[id] == s.evictable[id] + OneIf(Evictable(s.tables, s.rules[id].c)))
      else t.evictable[id] == s.evictable[id]
  }

  ghost predicate RevertShape(s: Switch, t: Switch, olds: set<Id>, news: set<Id>) {
    && RulesReverted(s.rules, t.rules, olds, news)
    && t.cookies == s.cookies + olds - news
    && HeapReverted(s, t, olds, news)
    && SameFrame(s, t)
  }

  ghost function SetOf(l: seq<Id>): set<Id> {
    set id | id in l
  }

  // ---------- the primitive changes ----------

  lemma OutShape(s: Switch, id: Id, v: nat)
    requires id in s.rules
    ensures StartShape(s, Out(s, id, v), v, {id}, {})
  {
    var t := Out(s, id, v);
    assert HeapStarted(s, t, {id}, {});
    assert t.cookies == s.cookies - {id} + {};
  }

  lemma InShape(s: Switch, id: Id, c: Content, v: nat)
    requires id !in s.rules
    ensures StartShape(s, In(s, id, c, v), v, {}, {id})
  {
    var t := In(s, id, c, v);
    assert HeapStarted(s, t, {}, {id});
    assert t.cookies == s.cookies - {} + {id};
  }

  lemma BackShape(s: Switch, id: Id)
    requires id in s.rules
    ensures RevertShape(s, Back(s, id), {id}, {})
  {
    var t := Back(s, id);
    assert HeapReverted(s, t, {id}, {});
    assert t.cookies == s.cookies + {id} - {};
  }

  lemma DropShape(s: Switch, id: Id)
    requires id in s.rules
    ensures RevertShape(s, Drop(s, id), {}, {id})
  {
    var t := Drop(s, id);
    assert HeapReverted(s, t, {}, {id});
    assert t.cookies == s.cookies + {} - {id};
  }

  // ---------- one after the other ----------

  lemma FrameThen(s: Switch, t: Switch, u: Switch)
    requires SameFrame(s, t) && SameFrame(t, u)
    ensures SameFrame(s, u)
  {
    forall g | g in s.groups ensures u.groups[g].(members := multiset{}) == s.groups[g].(members := multiset{}) {
      assert t.groups[g].(members := multiset{}) == s.groups[g].(members := multiset{});
    }
  }

  lemma RulesStartedThen(r: map<Id, Rule>, r1: map<Id, Rule>, r2: map<Id, Rule>, v: nat,
                         a: set<Id>, x: set<Id>, b: set<Id>, y: set<Id>)
    requires RulesStarted(r, r1, v, a, x) && RulesStarted(r1, r2, v, b, y) && b !! a && b !! x
    ensures RulesStarted(r, r2, v, a + b, x + y)
  {
  }

  lemma HeapStartedThen(s: Switch, t: Switch, u: Switch, v: nat, a: set<Id>, x: set<Id>, b: set<Id>, y: set<Id>)
    requires RulesStarted(s.rules, t.rules, v, a, x) && RulesStarted(t.rules, u.rules, v, b, y) && b !! a && b !! x
    requires HeapStarted(s, t, a, x) && HeapStarted(t, u, b, y) && t.tables == s.tables
    ensures HeapStarted(s, u, a + b, x + y)
  {
  }

  lemma StartThen(s: Switch, t: Switch, u: Switch, v: nat, a: set<Id>, x: set<Id>, b: set<Id>, y: set<Id>)
    requires StartShape(s, t, v, a, x) && StartShape(t, u, v, b, y) && b !! a && b !! x
    ensures StartShape(s, u, v, a + b, x + y)
  {
    RulesStartedThen(s.rules, t.rules, u.rules, v, a, x, b, y);
    HeapStartedThen(s, t, u, v, a, x, b, y);
    FrameThen(s, t, u);
  }

  lemma RulesRevertedThen(r: map<Id, Rule>, r1: map<Id, Rule>, r2: map<Id, Rule>,
                          a: set<Id>, x: set<Id>, b: set<Id>, y: set<Id>)
    requires RulesReverted(r, r1, a, x) && RulesReverted(r1, r2, b, y) && a !! b && a !! y
    ensures RulesReverted(r, r2, a + b, x + y)
  {
  }

  lemma HeapRevertedThen(s: Switch, t: Switch, u: Switch, a: set<Id>, x: set<Id>, b: set<Id>, y: set<Id>)
    requires RulesReverted(s.rules, t.rules, a, x) && RulesReverted(t.rules, u.rules, b, y)
    requires a !! b && a !! y && x !! y
    requires HeapReverted(s, t, a, x) && HeapReverted(t, u, b, y) && t.tables == s.tables
    ensures HeapReverted(s, u, a + b, x + y)
  {
  }

  lemma RevertThen(s: Switch, t: Switch, u: Switch, a: set<Id>, x: set<Id>, b: set<Id>, y: set<Id>)
    requires RevertShape(s, t, a, x) && RevertShape(t, u, b, y) && a !! b && a !! y && x !! y
    ensures RevertShape(s, u, a + b, x + y)
  {
    RulesRevertedThen(s.rules, t.rules, u.rules, a, x, b, y);
    HeapRevertedThen(s, t, u, a, x, b, y);
    FrameThen(s, t, u);
  }

  // ---------- single steps ----------

  lemma CountShape(s: Switch, table: nat, d: int, v: nat)
    requires table < |s.nFlows|
    ensures StartShape(s, Count(s, table, d), v, {}, {}) && RevertShape(s, Count(s, table, d), {}, {})
  {
  }

  function Maybe(id: Option<Id>): set<Id> {
    if id.Some? then {id.value} else {}
  }

  lemma InAfter(s: Switch, t: Switch, v: nat, olds: set<Id>, c: Content, id: Id)
    requires StartShape(s, t, v, olds, {}) && id !in s.rules
    ensures StartShape(s, In(t, id, c, v), v, olds, {id})
  {
    InShape(t, id, c, v);
    StartThen(s, t, In(t, id, c, v), v, olds, {}, {}, {id});
    assert olds + {} == olds && {} + {id} == {id};
  }

  lemma ReplaceShape(s: Switch, v: nat, prior: Option<Id>, c: Content, id: Id)
    requires c.key.table < |s.nFlows| && id !in s.rules && (prior.Some? ==> prior.value in s.rules)
    ensures StartShape(s, Replace(s, v, prior, c, id), v, Maybe(prior), {id})
  {
    if prior.Some? {
      OutShape(s, prior.value, v);
      InAfter(s, Out(s, prior.value, v), v, {prior.value}, c, id);
    } else {
      CountShape(s, c.key.table, 1, v);
      InAfter(s, Count(s, c.key.table, 1), v, {}, c, id);
    }
  }

  lemma MarkedOutShape(s: Switch, v: nat, w: Id)
    requires w in s.rules
    ensures StartShape(s, Out(MarkEvicted(s, w), w, v), v, {w}, {})
  {
    var m := MarkEvicted(s, w);
    OutShape(m, w, v);
    MarkedBefore(s, m, Out(m, w, v), v, w);
  }

  lemma MarkedBefore(s: Switch, m: Switch, t: Switch, v: nat, w: Id)
    requires w in s.rules && m == MarkEvicted(s, w) && StartShape(m, t, v, {w}, {})
    ensures StartShape(s, t, v, {w}, {})
  {
    forall id: nat ensures id != w ==> m.evictable[id] == s.evictable[id] {}
    assert m.evictable[w] <= s.evictable[w];
    assert HeapStarted(s, t, {w}, {});
  }

  lemma EvictShape(s: Switch, v: nat, w: Id, c: Content, id: Id)
    requires c.key.table < |s.nFlows| && id !in s.rules && w in s.rules
    ensures StartShape(s, Replace(MarkEvicted(s, w), v, Some(w), c, id), v, {w}, {id})
  {
    MarkedOutShape(s, v, w);
    InAfter(s, Out(MarkEvicted(s, w), w, v), v, {w}, c, id);
  }

  lemma DeleteOneShape(s: Switch, v: nat, id: Id)
    requires id in s.rules && s.rules[id].c.key.table < |s.nFlows|
    ensures StartShape(s, DeleteOne(s, v, id), v, {id}, {})
  {
    var t := Count(s, s.rules[id].c.key.table, -1);
    CountShape(s, s.rules[id].c.key.table, -1, v);
    OutShape(t, id, v);
    StartThen(s, t, Out(t, id, v), v, {}, {}, {id}, {});
    assert {} + {id} == {id};
  }

  lemma PutBackShape(s: Switch, id: Id)
    requires id in s.rules
    ensures var r := s.rules[id];
            RevertShape(s, Back(if r.evicted then s.(evictable := Joined(s.evictable, s.tables, id, r.c)) else s, id), {id}, {})
  {
    var r := s.rules[id];
    if r.evicted {
      var t := s.(evictable := Joined(s.evictable, s.tables, id, r.c));
      BackShape(t, id);
      assert HeapReverted(s, Back(t, id), {id}, {});
    } else {
      BackShape(s, id);
    }
  }

  lemma UncountedDropShape(s: Switch, id: Id)
    requires id in s.rules && s.rules[id].c.key.table < |s.nFlows|
    ensures RevertShape(s, Unreplace(s, None, id), {}, {id})
  {
    var t := Count(s, s.rules[id].c.key.table, -1);
    CountShape(s, s.rules[id].c.key.table, -1, 0);
    DropAfter(s, t, {}, id);
  }

  lemma DropAfter(s: Switch, t: Switch, olds: set<Id>, id: Id)
    requires RevertShape(s, t, olds, {}) && id in s.rules && id !in olds
    ensures RevertShape(s, Drop(t, id), olds, {id})
  {
    DropShape(t, id);
    RevertThen(s, t, Drop(t, id), olds, {}, {}, {id});
    assert olds + {} == olds && {} + {id} == {id};
  }

  lemma UnreplaceShape(s: Switch, prior: Option<Id>, id: Id)
    requires id in s.rules && s.rules[id].c.key.table < |s.nFlows|
    requires prior.Some? ==> prior.value in s.rules && prior.value != id
    ensures RevertShape(s, Unreplace(s, prior, id), Maybe(prior), {id})
  {
    if prior.None? {
      UncountedDropShape(s, id);
    } else {
      var r := s.rules[prior.value];
      PutBackShape(s, prior.value);
      DropAfter(s, Back(if r.evicted then s.(evictable := Joined(s.evictable, s.tables, prior.value, r.c)) else s, prior.value),
                {prior.value}, id);
    }
  }

  lemma UndeleteOneShape(s: Switch, id: Id)
    requires id in s.rules && s.rules[id].c.key.table < |s.nFlows|
    ensures RevertShape(s, UndeleteOne(s, id), {id}, {})
  {
    var k := s.rules[id].c.key.table;
    var t := Back(s, id);
    BackShape(s, id);
    CountShape(t, k, 1, 0);
    RevertThen(s, t, Count(t, k, 1), {id}, {}, {}, {});
    assert {id} + {} == {id};
  }

  // ---------- lists of rules ----------

  ghost predicate Distinct(l: seq<Id>) {
    forall i, j :: 0 <= i < j < |l| ==> l[i] != l[j]
  }

  lemma SetOfSplit(l: seq<Id>)
    requires l != [] && Distinct(l)
    ensures SetOf(l) == {l[0]} + SetOf(l[1..]) && l[0] !in SetOf(l[1..]) && Distinct(l[1..])
  {
    assert l == [l[0]] + l[1..];
  }

  lemma {:induction false} ReplaceAllShape(s: Switch, v: nat, olds: seq<Id>, news: seq<Id>, cs: seq<Content>)
    requires Replaceable(s, olds, news, cs) && Separate(s, olds, news)
    ensures StartShape(s, ReplaceAll(s, v, olds, news, cs), v, SetOf(olds), SetOf(news))
    decreases |olds|
  {
    if olds == [] {
      assert SetOf(olds) == {} && SetOf(news) == {};
      NothingShape(s, v);
    } else {
      var t := Replace(s, v, Some(olds[0]), cs[0], news[0]);
      ReplaceShape(s, v, Some(olds[0]), cs[0], news[0]);
      ReplaceFrame(s, v, olds, news, cs);
      ReplaceAllShape(t, v, olds[1..], news[1..], cs[1..]);
      SetOfSplit(olds);
      SetOfSplit(news);
      HeadApart(s, olds, news, cs);
      StartThen(s, t, ReplaceAll(t, v, olds[1..], news[1..], cs[1..]), v,
                {olds[0]}, {news[0]}, SetOf(olds[1..]), SetOf(news[1..]));
    }
  }

  /** Deleting the rules `ids` leads from `s` to `u`. */
  ghost predicate Deletes(s: Switch, v: nat, ids: seq<Id>, u: Switch) {
    AllIn(s, ids) && Distinct(ids) && u == DeleteAll(s, v, ids)
  }

  lemma DeletesFirst(s: Switch, v: nat, ids: seq<Id>, u: Switch) returns (t: Switch)
    requires ids != [] && Deletes(s, v, ids, u)
    ensures StartShape(s, t, v, {ids[0]}, {}) && Deletes(t, v, ids[1..], u)
  {
    t := DeleteOne(s, v, ids[0]);
    DeleteOneShape(s, v, ids[0]);
    UndeleteNext(s, t, ids);
  }

  lemma DeletesNothing(s: Switch, v: nat, ids: seq<Id>, u: Switch)
    requires ids == [] && Deletes(s, v, ids, u)
    ensures StartShape(s, u, v, SetOf(ids), {})
  {
    assert SetOf(ids) == {};
    NothingShape(s, v);
  }

  lemma {:induction false} DeleteAllShape(s: Switch, v: nat, ids: seq<Id>, u: Switch)
    requires Deletes(s, v, ids, u)
    ensures StartShape(s, u, v, SetOf(ids), {})
    decreases |ids|
  {
    if ids == [] {
      DeletesNothing(s, v, ids, u);
    } else {
      var t := DeletesFirst(s, v, ids, u);
      DeleteAllShape(t, v, ids[1..], u);
      SetOfSplit(ids);
      StartThen(s, t, u, v, {ids[0]}, {}, SetOf(ids[1..]), {});
    }
  }

  lemma UnreplaceNext(s: Switch, t: Switch, olds: seq<Id>, news: seq<Id>)
    requires olds != [] && Unreplaceable(s, olds, news)
    requires RulesReverted(s.rules, t.rules, {olds[0]}, {news[0]}) && |t.nFlows| == |s.nFlows|
    ensures Unreplaceable(t, olds[1..], news[1..])
  {
    assert forall i :: 0 <= i < |olds[1..]| ==> olds[1..][i] == olds[i + 1] && news[1..][i] == news[i + 1];
  }

  lemma UndeleteNext(s: Switch, t: Switch, ids: seq<Id>)
    requires ids != [] && AllIn(s, ids)
    requires t.rules.Keys == s.rules.Keys && |t.nFlows| == |s.nFlows|
    requires forall id :: id in s.rules ==> t.rules[id].c == s.rules[id].c
    ensures AllIn(t, ids[1..])
  {
    assert forall i :: 0 <= i < |ids[1..]| ==> ids[1..][i] == ids[i + 1];
  }

  lemma NothingShape(s: Switch, v: nat)
    ensures StartShape(s, s, v, {}, {}) && RevertShape(s, s, {}, {})
  {
  }

  lemma HeadsApart(s: Switch, olds: seq<Id>, news: seq<Id>)
    requires olds != [] && Unreplaceable(s, olds, news) && Distinct(olds)
    ensures {olds[0]} !! SetOf(olds[1..]) && {olds[0]} !! SetOf(news[1..]) && {news[0]} !! SetOf(news[1..])
    ensures SetOf(olds) == {olds[0]} + SetOf(olds[1..]) && SetOf(news) == {news[0]} + SetOf(news[1..])
  {
    SetOfSplit(olds);
    SetOfSplit(news);
  }

  lemma UnreplaceRest(s: Switch, t: Switch, u: Switch, olds: seq<Id>, news: seq<Id>)
    requires olds != [] && Unreplaceable(s, olds, news) && Distinct(olds)
    requires RevertShape(s, t, {olds[0]}, {news[0]}) && RevertShape(t, u, SetOf(olds[1..]), SetOf(news[1..]))
    ensures RevertShape(s, u, SetOf(olds), SetOf(news))
  {
    HeadsApart(s, olds, news);
    RevertThen(s, t, u, {olds[0]}, {news[0]}, SetOf(olds[1..]), SetOf(news[1..]));
  }

  /** Undoing the replacements of `olds` by `news` leads from `s` to `u`. */
  ghost predicate Unreplaces(s: Switch, olds: seq<Id>, news: seq<Id>, u: Switch) {
    Unreplaceable(s, olds, news) && Distinct(olds) && u == UnreplaceAll(s, olds, news)
  }

  lemma UnreplacesFirst(s: Switch, olds: seq<Id>, news: seq<Id>, u: Switch) returns (t: Switch)
    requires olds != [] && Unreplaces(s, olds, news, u)
    ensures RevertShape(s, t, {olds[0]}, {news[0]}) && Unreplaces(t, olds[1..], news[1..], u)
  {
    t := Unreplace(s, Some(olds[0]), news[0]);
    UnreplaceShape(s, Some(olds[0]), news[0]);
    UnreplaceNext(s, t, olds, news);
  }

  lemma UnreplacesNothing(s: Switch, olds: seq<Id>, news: seq<Id>, u: Switch)
    requires olds == [] && Unreplaces(s, olds, news, u)
    ensures RevertShape(s, u, SetOf(olds), SetOf(news))
  {
    assert SetOf(olds) == {} && SetOf(news) == {};
    NothingShape(s, 0);
  }

  lemma {:induction false} UnreplaceAllShape(s: Switch, olds: seq<Id>, news: seq<Id>, u: Switch)
    requires Unreplaces(s, olds, news, u)
    ensures RevertShape(s, u, SetOf(olds), SetOf(news))
    decreases |olds|
  {
    if olds == [] {
      UnreplacesNothing(s, olds, news, u);
    } else {
      var t := UnreplacesFirst(s, olds, news, u);
      UnreplaceAllShape(t, olds[1..], news[1..], u);
      UnreplaceRest(s, t, u, olds, news);
    }
  }

  lemma {:induction false} UndeleteAllShape(s: Switch, ids: seq<Id>)
    requires AllIn(s, ids) && Distinct(ids)
    ensures RevertShape(s, UndeleteAll(s, ids), SetOf(ids), {})
    decreases |ids|
  {
    if ids == [] {
      assert SetOf(ids) == {};
      NothingShape(s, 0);
    } else {
      var t := UndeleteOne(s, ids[0]);
      UndeleteOneShape(s, ids[0]);
      UndeleteNext(s, t, ids);
      UndeleteAllShape(t, ids[1..]);
      SetOfSplit(ids);
      RevertThen(s, t, UndeleteAll(t, ids[1..]), {ids[0]}, {}, SetOf(ids[1..]), {});
    }
  }

  // ---------- flow mods ----------

  /** How a start from `s` was recorded: by the rules that left and the rules that came. */
  ghost predicate Recorded(s: Switch, next: nat, v: nat, m: FlowMod, st: Started) {
    && next <= st.next
    && StartShape(s, st.s, v, SetOf(st.undo.olds), SetOf(st.undo.news))
    && Distinct(st.undo.olds)
    && Taken(st.s, next, st.next, SetOf(st.undo.news))
    && Revertible(st.s, m, st.undo)
    && Paired(st.s, m, st.undo)
    && (m.Delete? ==> st.undo.news == [])
  }

  /** A rule and its replacement are in one table. */
  ghost predicate Paired(t: Switch, m: FlowMod, u: Undo) {
    !m.Delete? && u.olds != [] ==>
      && |u.olds| == |u.news|
      && forall i :: 0 <= i < |u.olds| ==>
           u.olds[i] in t.rules && u.news[i] in t.rules && t.rules[u.olds[i]].c.key.table == t.rules[u.news[i]].c.key.table
  }

  /** The rules `news` have ids from `next` up to, excluding, `end`. */
  ghost predicate Taken(t: Switch, next: nat, end: nat, news: set<Id>) {
    forall id :: id in news ==> next <= id < end && id in t.rules && t.rules[id].c.key.table < |t.tables|
  }

  lemma RecordedFirst(s: Switch, next: nat, v: nat, m: FlowMod, t: Switch)
    requires Runnable(s, next) && !m.Delete?
    requires StartShape(s, t, v, {}, {next})
    requires next in t.rules && t.rules[next].c.key.table < |t.nFlows| == |t.tables|
    ensures Recorded(s, next, v, m, Started(t, next + 1, Undo([], [next])))
  {
    assert SetOf([next]) == {next};
    assert SetOf([]) == {};
    assert Taken(t, next, next + 1, {next});
  }

  lemma RecordedOver(s: Switch, next: nat, v: nat, m: FlowMod, t: Switch, p: Id)
    requires Runnable(s, next) && !m.Delete?
    requires StartShape(s, t, v, {p}, {next})
    requires next in t.rules && t.rules[next].c.key.table < |t.nFlows| == |t.tables|
    requires t.rules[next].c.key.table == s.rules[p].c.key.table
    ensures Recorded(s, next, v, m, Started(t, next + 1, Undo([p], [next])))
  {
    assert SetOf([next]) == {next};
    assert SetOf([p]) == {p};
    assert Taken(t, next, next + 1, {next});
    assert p in s.rules && next !in s.rules;
    assert p in t.rules && Unmarked(t.rules[p]).c == s.rules[p].c;
  }

  lemma ReplaceRecorded(s: Switch, next: nat, v: nat, m: FlowMod, old': Option<Id>, c: Content)
    requires Runnable(s, next) && !m.Delete? && c.key.table < |s.tables|
    requires old'.Some? ==> old'.value in s.rules && s.rules[old'.value].c.key.table == c.key.table
    ensures Recorded(s, next, v, m,
              Started(Replace(s, v, old', c, next), next + 1, Undo(if old'.Some? then [old'.value] else [], [next])))
  {
    ReplaceShape(s, v, old', c, next);
    if old'.Some? { RecordedOver(s, next, v, m, Replace(s, v, old', c, next), old'.value); }
    else { RecordedFirst(s, next, v, m, Replace(s, v, old', c, next)); }
  }

  lemma EvictRecorded(s: Switch, next: nat, v: nat, m: FlowMod, w: Id, c: Content)
    requires Runnable(s, next) && !m.Delete? && c.key.table < |s.tables|
    requires w in s.rules && s.rules[w].c.key.table == c.key.table
    ensures Recorded(s, next, v, m, Started(Replace(MarkEvicted(s, w), v, Some(w), c, next), next + 1, Undo([w], [next])))
  {
    EvictShape(s, v, w, c, next);
    RecordedOver(s, next, v, m, Replace(MarkEvicted(s, w), v, Some(w), c, next), w);
  }

  lemma AddRecorded(s: Switch, next: nat, v: nat, m: FlowMod, isAdd: bool)
    requires Runnable(s, next) && !m.Delete? && m.c.key.table < |s.tables| && AddStart(s, next, v, m.c, isAdd).Ok?
    ensures Recorded(s, next, v, m, AddStart(s, next, v, m.c, isAdd).value)
  {
    match FindExactly(s, m.c.key, v) {
      case Some(id) =>
        assert IsExactly(s, m.c.key, v, id);
        ReplaceRecorded(s, next, v, m, Some(id), Successor(s.rules[id], m.c, isAdd, true));
      case None =>
        if s.nFlows[m.c.key.table] >= s.tables[m.c.key.table].maxFlows {
          assert CanBeVictim(s, m.c.key.table, Victim(s, m.c.key.table).value);
          EvictRecorded(s, next, v, m, Victim(s, m.c.key.table).value, m.c);
        } else {
          ReplaceRecorded(s, next, v, m, None, m.c);
        }
    }
  }

  lemma ManyTaken(t: Switch, next: nat, olds: seq<Id>, news: seq<Id>)
    requires Unreplaceable(t, olds, news) && news == NewIds(next, |olds|) && |t.nFlows| == |t.tables|
    ensures Taken(t, next, next + |olds|, SetOf(news))
  {
    forall id | id in SetOf(news)
      ensures next <= id < next + |olds| && id in t.rules && t.rules[id].c.key.table < |t.tables|
    {
      var i :| 0 <= i < |news| && news[i] == id;
    }
  }

  lemma ManyRecorded(s: Switch, next: nat, v: nat, m: FlowMod, t: Switch, olds: seq<Id>, news: seq<Id>)
    requires m.Modify? && StartShape(s, t, v, SetOf(olds), SetOf(news)) && Distinct(olds)
    requires Unreplaceable(t, olds, news) && Taken(t, next, next + |olds|, SetOf(news)) && Paired(t, m, Undo(olds, news))
    ensures Recorded(s, next, v, m, Started(t, next + |olds|, Undo(olds, news)))
  {
  }

  lemma CopiesPaired(s: Switch, v: nat, m: FlowMod, olds: seq<Id>, news: seq<Id>, t: Switch)
    requires m.Modify? && AllIn(s, olds) && Separate(s, olds, news) && |news| == |olds|
    requires var cs := Copies(s, olds, m.c, m.modifyCookie);
             Replaceable(s, olds, news, cs) && t == ReplaceAll(s, v, olds, news, cs)
    ensures Paired(t, m, Undo(olds, news))
  {
    var cs := Copies(s, olds, m.c, m.modifyCookie);
    ReplaceAllKeeps(s, v, olds, news, cs);
    forall i | 0 <= i < |olds|
      ensures olds[i] in t.rules && news[i] in t.rules && t.rules[olds[i]].c.key.table == t.rules[news[i]].c.key.table
    {
      assert olds[i] in s.rules && cs[i].key == s.rules[olds[i]].c.key;
    }
  }

  lemma ModifyRecorded(s: Switch, next: nat, v: nat, m: FlowMod, olds: seq<Id>)
    requires Runnable(s, next) && m.Modify? && m.c.key.table < |s.tables| && AllIn(s, olds) && Distinct(olds)
    requires ModifyThese(s, next, v, m, olds).Ok?
    ensures Recorded(s, next, v, m, ModifyThese(s, next, v, m, olds).value)
  {
    var news, cs := NewIds(next, |olds|), Copies(s, olds, m.c, m.modifyCookie);
    var t := ReplaceAll(s, v, olds, news, cs);
    ReplaceAllShape(s, v, olds, news, cs);
    AllUnreplaceable(s, v, olds, news, cs);
    ManyTaken(t, next, olds, news);
    CopiesPaired(s, v, m, olds, news, t);
    ManyRecorded(s, next, v, m, t, olds, news);
  }

  lemma DeleteRecorded(s: Switch, next: nat, v: nat, m: FlowMod, ids: seq<Id>)
    requires Runnable(s, next) && m.Delete? && AllIn(s, ids) && Distinct(ids)
    ensures Recorded(s, next, v, m, Started(DeleteAll(s, v, ids), next, Undo(ids, [])))
  {
    DeleteAllShape(s, v, ids, DeleteAll(s, v, ids));
    DeleteAllKeeps(s, v, ids);
    assert SetOf([]) == {};
  }

  lemma CollectIsIn(s: Switch, cr: Criteria, next: nat)
    requires TablesInRange(s)
    ensures AllIn(s, Collect(s, cr, next)) && Distinct(Collect(s, cr, next))
  {
    var l := Collect(s, cr, next);
    forall i | 0 <= i < |l| ensures l[i] in s.rules { assert Selected(s, cr, l[i]); }
  }

  lemma StartRecorded(s: Switch, next: nat, v: nat, m: FlowMod)
    requires Runnable(s, next) && ModReady(s, m) && Start(s, next, v, m).Ok?
    ensures Recorded(s, next, v, m, Start(s, next, v, m).value)
  {
    match m {
      case Add(c) => AddRecorded(s, next, v, m, true);
      case Modify(cr, _, _, _) =>
        CollectIsIn(s, cr, next);
        if Collect(s, cr, next) != [] { ModifyRecorded(s, next, v, m, Collect(s, cr, next)); }
        else if m.mayAdd { AddRecorded(s, next, v, m, false); }
        else { assert SetOf([]) == {}; NothingShape(s, v); }
      case Delete(cr) =>
        CollectIsIn(s, cr, next);
        DeleteRecorded(s, next, v, m, Collect(s, cr, next));
    }
  }

  /** What a new rule holds that comes in place of `prior`: what an add or a modify makes of it; but if it bears the
      mark of an eviction, left by a bundle that failed, nothing of it is taken over but the key. */
  function MadeOf(prior: Rule, c: Content, isAdd: bool, changeCookie: bool): Content {
    if prior.evicted then Content(prior.c.key, c.cookie, c.actions, c.attrs)
    else if isAdd then FlowMeaning.AddedOver(prior.c, c) else FlowMeaning.Modified(prior.c, c, changeCookie)
  }

  lemma SuccessorIsMade(prior: Rule, c: Content, isAdd: bool, changeCookie: bool)
    requires c.key == prior.c.key && (isAdd ==> changeCookie)
    ensures Successor(prior, c, isAdd, changeCookie) == MadeOf(prior, c, isAdd, changeCookie)
  {
    FlowMeaning.InheritMeans(prior.c, c, changeCookie);
  }

  /** In any state: what an add, or a modify that adds, puts in the place of the rule with its key. */
  lemma AddContents(s: Switch, next: nat, v: nat, c: Content, isAdd: bool)
    requires Runnable(s, next) && c.key.table < |s.tables| && AddStart(s, next, v, c, isAdd).Ok?
    ensures var st := AddStart(s, next, v, c, isAdd).value;
            && st.undo.news == [next] && next in st.s.rules
            && st.s.rules[next].c == match FindExactly(s, c.key, v)
                                     case None => c
                                     case Some(id) => MadeOf(s.rules[id], c, isAdd, true)
  {
    match FindExactly(s, c.key, v) {
      case Some(id) =>
        assert IsExactly(s, c.key, v, id);
        SuccessorIsMade(s.rules[id], c, isAdd, true);
      case None =>
        if s.nFlows[c.key.table] >= s.tables[c.key.table].maxFlows {
          assert CanBeVictim(s, c.key.table, Victim(s, c.key.table).value);
        }
    }
  }

  lemma CopyIsMade(s: Switch, m: FlowMod, olds: seq<Id>, cs: seq<Content>, i: nat)
    requires m.Modify? && AllIn(s, olds) && i < |olds| && cs == Copies(s, olds, m.c, m.modifyCookie)
    ensures cs[i] == MadeOf(s.rules[olds[i]], m.c, false, m.modifyCookie)
  {
    var prior := s.rules[olds[i]];
    SuccessorIsMade(prior, m.c.(key := prior.c.key), false, m.modifyCookie);
  }

  lemma CopiesReady(s: Switch, next: nat, m: FlowMod, olds: seq<Id>, news: seq<Id>, cs: seq<Content>)
    requires Runnable(s, next) && m.Modify? && AllIn(s, olds) && Distinct(olds)
    requires news == NewIds(next, |olds|) && cs == Copies(s, olds, m.c, m.modifyCookie)
    ensures Replaceable(s, olds, news, cs) && Separate(s, olds, news)
  {
  }

  lemma CopyIsKept(s: Switch, v: nat, olds: seq<Id>, news: seq<Id>, cs: seq<Content>, i: nat)
    requires Replaceable(s, olds, news, cs) && Separate(s, olds, news) && i < |news|
    ensures var t := ReplaceAll(s, v, olds, news, cs); news[i] in t.rules && t.rules[news[i]].c == cs[i]
  {
    ReplaceAllKeeps(s, v, olds, news, cs);
  }

  lemma ModifiesThese(s: Switch, next: nat, v: nat, m: FlowMod, olds: seq<Id>, st: Started)
    requires m.Modify? && m.c.key.table < |s.tables| && TablesInRange(s) && ModifyStart(s, next, v, m) == Ok(st)
    requires olds == Collect(s, m.cr, next) && olds != [] && AllIn(s, olds)
    ensures ModifyThese(s, next, v, m, olds) == Ok(st)
  {
  }

  lemma TheseAreReplaced(s: Switch, next: nat, v: nat, m: FlowMod, olds: seq<Id>, news: seq<Id>, cs: seq<Content>, st: Started)
    requires m.Modify? && AllIn(s, olds) && Replaceable(s, olds, news, cs) && ModifyThese(s, next, v, m, olds) == Ok(st)
    requires news == NewIds(next, |olds|) && cs == Copies(s, olds, m.c, m.modifyCookie)
    ensures st.undo == Undo(olds, news) && st.s == ReplaceAll(s, v, olds, news, cs)
  {
  }

  lemma TheseContents(s: Switch, next: nat, v: nat, m: FlowMod, olds: seq<Id>, i: nat, st: Started)
    requires Runnable(s, next) && m.Modify? && AllIn(s, olds) && Distinct(olds) && i < |olds|
    requires ModifyThese(s, next, v, m, olds) == Ok(st)
    ensures st.undo == Undo(olds, NewIds(next, |olds|)) && next + i in st.s.rules
    ensures st.s.rules[next + i].c == MadeOf(s.rules[olds[i]], m.c, false, m.modifyCookie)
  {
    var news, cs := NewIds(next, |olds|), Copies(s, olds, m.c, m.modifyCookie);
    CopiesReady(s, next, m, olds, news, cs);
    TheseAreReplaced(s, next, v, m, olds, news, cs, st);
    CopyIsKept(s, v, olds, news, cs, i);
    CopyIsMade(s, m, olds, cs, i);
    assert news[i] == next + i;
  }

  /** And what a modify puts in the place of the `i`-th of the rules it finds. */
  lemma ModifyContents(s: Switch, next: nat, v: nat, m: FlowMod, olds: seq<Id>, i: nat, st: Started)
    requires Runnable(s, next) && m.Modify? && m.c.key.table < |s.tables| && ModifyStart(s, next, v, m) == Ok(st)
    requires olds == Collect(s, m.cr, next) && i < |olds|
    ensures st.undo == Undo(olds, NewIds(next, |olds|)) && olds[i] in s.rules && next + i in st.s.rules
    ensures st.s.rules[next + i].c == MadeOf(s.rules[olds[i]], m.c, false, m.modifyCookie)
  {
    CollectIsIn(s, m.cr, next);
    ModifiesThese(s, next, v, m, olds, st);
    TheseContents(s, next, v, m, olds, i, st);
  }

  lemma RecordedRunnable(s: Switch, next: nat, v: nat, m: FlowMod, st: Started)
    requires Runnable(s, next) && Recorded(s, next, v, m, st)
    ensures Runnable(st.s, st.next)
  {
    forall g | g in st.s.groups ensures g < st.next && st.s.groups[g].kind < |st.s.nGroups| {
      assert st.s.groups[g].(members := multiset{}).kind == s.groups[g].kind;
    }
    forall id | id in st.s.rules ensures st.s.rules[id].c.key.table < |st.s.tables| {
      if id in SetOf(st.undo.olds) { assert Unmarked(st.s.rules[id]).c == s.rules[id].c; }
    }
  }

  /** The rules the revert takes away: all that came, except where a modify found nothing to replace. */
  ghost function Dropped(m: FlowMod, u: Undo): set<Id> {
    if m.Delete? || (m.Modify? && u.olds == []) then {} else SetOf(u.news)
  }

  /** The rules it leaves behind. */
  ghost function LeftBehind(m: FlowMod, u: Undo): set<Id> {
    if m.Modify? && u.olds == [] then SetOf(u.news) else {}
  }

  lemma RevertHasShape(t: Switch, m: FlowMod, u: Undo)
    requires Revertible(t, m, u) && Distinct(u.olds) && SetOf(u.olds) !! SetOf(u.news)
    ensures RevertShape(t, Revert(t, m, u), SetOf(u.olds), Dropped(m, u))
  {
    match m {
      case Add(_) =>
        var prior := if u.olds == [] then None else Some(u.olds[0]);
        assert SetOf(u.olds) == Maybe(prior) && SetOf(u.news) == {u.news[0]};
        UnreplaceShape(t, prior, u.news[0]);
      case Modify(_, _, _, _) =>
        if u.olds == [] { assert SetOf(u.olds) == {}; NothingShape(t, 0); }
        else { UnreplaceAllShape(t, u.olds, u.news, UnreplaceAll(t, u.olds, u.news)); }
      case Delete(_) => UndeleteAllShape(t, u.olds);
    }
  }
}
