/** Learned cookies: rules that learn with "delete learned" keep alive what they taught; when the last
    such rule for a cookie and table goes, the flows with that cookie are deleted from that table,
    which may take further teachers with them. */
module LearnedCookies {
  import opened FlowTable
  import opened FlowMod

  type Lesson = (bv64, nat)

  function LessonOf(c: Content): Lesson {
    (c.cookie, c.key.table)
  }

  function AsSet(l: seq<Lesson>): set<Lesson> {
    set k | k in l
  }

  function Teaches(c: Content, k: Lesson): nat {
    multiset(c.actions.learns)[k]
  }

  ghost function Pick(rules: map<Id, Content>): (id: Id)
    requires rules != map[]
    ensures id in rules
  {
    var id :| id in rules;
    id
  }

  /** How many learn actions for `k` the rules hold together. */
  ghost function Teachers(rules: map<Id, Content>, k: Lesson): nat
    decreases |rules|
  {
    if rules == map[] then 0 else Teaches(rules[Pick(rules)], k) + Teachers(rules - {Pick(rules)}, k)
  }

  /** Any rule can be taken out of the sum first. */
  lemma {:induction false} TeachersWithout(rules: map<Id, Content>, id: Id, k: Lesson)
    requires id in rules
    ensures Teachers(rules, k) == Teaches(rules[id], k) + Teachers(rules - {id}, k)
    decreases |rules|
  {
    var x := Pick(rules);
    if x != id {
      var a, b := rules - {x}, rules - {id};
      TeachersWithout(a, id, k);
      TeachersWithout(b, x, k);
      assert a - {id} == b - {x};
    }
  }

  /** The count of a lesson, absent entries counting as none. */
  function Tally(counts: map<Lesson, int>, k: Lesson): int {
    if k in counts then counts[k] else 0
  }

  /** The counts are exactly the numbers of learn actions in force, and no zero is kept. */
  ghost predicate Exact(rules: map<Id, Content>, counts: map<Lesson, int>) {
    && (forall k :: Tally(counts, k) == Teachers(rules, k))
    && Positive(counts)
  }

  /** Which rules may be deleted for want of a teacher: those not hidden and not in a read-only table. */
  predicate Deletable(tables: seq<TableConfig>, c: Content) {
    && c.key.table < |tables| && !tables[c.key.table].readonly
    && c.key.priority <= MAX_OPENFLOW_PRIORITY
  }

  ghost predicate TaughtBy(rules: map<Id, Content>, some: set<Id>, k: Lesson) {
    exists id :: id in some && id in rules && Teaches(rules[id], k) > 0
  }

  /** A set of rules that can stay together: every deletable one was taught by nobody before, or still is by one of
      the set; lessons in `dead` are over for good. */
  ghost predicate Sustained(tables: seq<TableConfig>, rules: map<Id, Content>, taught: set<Lesson>, dead: set<Lesson>,
                            some: set<Id>) {
    && some <= rules.Keys
    && (forall id :: id in some && Deletable(tables, rules[id]) ==>
          && LessonOf(rules[id]) !in dead
          && (LessonOf(rules[id]) in taught ==> TaughtBy(rules, some, LessonOf(rules[id]))))
  }

  /** Every set that can stay together has stayed. */
  ghost predicate Spared(tables: seq<TableConfig>, rules: map<Id, Content>, taught: set<Lesson>, dead: set<Lesson>,
                         left: set<Id>) {
    forall some :: Sustained(tables, rules, taught, dead, some) ==> some <= left
  }

  /** The rules left are exactly the largest set that can stay together. */
  ghost predicate Cascade(tables: seq<TableConfig>, rules: map<Id, Content>, taught: set<Lesson>, dead: set<Lesson>,
                          left: map<Id, Content>) {
    && left.Keys <= rules.Keys && (forall id :: id in left ==> left[id] == rules[id])
    && Sustained(tables, rules, taught, dead, left.Keys)
    && Spared(tables, rules, taught, dead, left.Keys)
  }

  /** `k` was taught before and is not any more. */
  predicate Died(before: map<Lesson, int>, after: map<Lesson, int>, k: Lesson) {
    k in before && k !in after
  }

  /** What a flush has done when it has come through the lessons `seen`. */
  ghost predicate Swept(tables: seq<TableConfig>, r0: map<Id, Content>, n0: map<Lesson, int>, seen: set<Lesson>,
                        r: map<Id, Content>, n: map<Lesson, int>) {
    && r.Keys <= r0.Keys && (forall id :: id in r ==> r[id] == r0[id])
    && (forall id :: id in r && Deletable(tables, r[id]) ==>
          LessonOf(r[id]) !in seen && !Died(n0, n, LessonOf(r[id])))
  }

  ghost predicate Positive(counts: map<Lesson, int>) {
    forall k :: k in counts ==> counts[k] > 0
  }

  /** No count has grown. */
  ghost predicate Shrunk(before: map<Lesson, int>, after: map<Lesson, int>) {
    forall k :: Tally(after, k) <= Tally(before, k)
  }

  lemma DiedInStages(a: map<Lesson, int>, b: map<Lesson, int>, c: map<Lesson, int>, k: Lesson)
    requires Positive(a) && Positive(b) && Positive(c) && Shrunk(a, b) && Shrunk(b, c)
    ensures Died(a, c, k) <==> Died(a, b, k) || Died(b, c, k)
    ensures Shrunk(a, c)
  {
    assert Tally(b, k) <= Tally(a, k);
    assert Tally(c, k) <= Tally(b, k);
    forall x ensures Tally(c, x) <= Tally(a, x) {
      assert Tally(c, x) <= Tally(b, x) <= Tally(a, x);
    }
  }

  lemma {:induction false} SomeTeacher(rules: map<Id, Content>, k: Lesson)
    ensures Teachers(rules, k) > 0 <==> TaughtBy(rules, rules.Keys, k)
    decreases |rules|
  {
    if rules != map[] {
      var x := Pick(rules);
      var rest := rules - {x};
      SomeTeacher(rest, k);
      if Teaches(rules[x], k) == 0 && TaughtBy(rules, rules.Keys, k) {
        var id :| id in rules.Keys && id in rules && Teaches(rules[id], k) > 0;
        assert id in rest.Keys;
      } else if TaughtBy(rest, rest.Keys, k) {
        var id :| id in rest.Keys && id in rest && Teaches(rest[id], k) > 0;
        assert id in rules.Keys;
      }
    }
  }

  lemma TaughtIfCounted(rules: map<Id, Content>, counts: map<Lesson, int>, k: Lesson)
    requires Exact(rules, counts)
    ensures k in counts <==> TaughtBy(rules, rules.Keys, k)
  {
    SomeTeacher(rules, k);
    assert Tally(counts, k) == Teachers(rules, k);
  }

  lemma OneMore(learns: seq<Lesson>, i: nat)
    requires i < |learns|
    ensures multiset(learns[..i + 1]) == multiset(learns[..i]) + multiset{learns[i]}
    ensures multiset(learns[..i])[learns[i]] < multiset(learns)[learns[i]]
  {
    assert learns[..i + 1] == learns[..i] + [learns[i]];
    assert learns == learns[..i + 1] + learns[i + 1..];
    assert multiset(learns) == multiset(learns[..i + 1]) + multiset(learns[i + 1..]);
  }

  class Table {
    const tables: seq<TableConfig>
    /** The rules lookups find in the newest version. */
    var rules: map<Id, Content>
    var counts: map<Lesson, int>

    constructor (t: seq<TableConfig>)
      ensures tables == t && rules == map[] && Exact(rules, counts)
    {
      tables, rules, counts := t, map[], map[];
    }

    /** `learned_cookies_inc`. */
    method Increment(learns: seq<Lesson>)
      modifies this`counts
      requires Positive(counts)
      ensures forall k :: Tally(counts, k) == Tally(old(counts), k) + multiset(learns)[k]
      ensures Positive(counts)
    {
      for i := 0 to |learns|
        invariant forall k :: Tally(counts, k) == Tally(old(counts), k) + multiset(learns[..i])[k]
        invariant Positive(counts)
      {
        assert learns[..i + 1] == learns[..i] + [learns[i]];
        counts := counts[learns[i] := Tally(counts, learns[i]) + 1];
      }
      assert learns[..|learns|] == learns;
    }

    /** `learned_cookies_dec`: appends to `dead` the lessons whose last teacher this was. */
    method Decrement(learns: seq<Lesson>, dead: seq<Lesson>) returns (dead': seq<Lesson>)
      modifies this`counts
      requires forall k :: multiset(learns)[k] <= Tally(counts, k)
      requires Positive(counts)
      ensures forall k :: Tally(counts, k) == Tally(old(counts), k) - multiset(learns)[k]
      ensures Positive(counts)
      ensures forall k :: k in dead' <==> k in dead || Died(old(counts), counts, k)
    {
      dead' := dead;
      for i := 0 to |learns|
        invariant forall k :: Tally(counts, k) == Tally(old(counts), k) - multiset(learns[..i])[k]
        invariant Positive(counts)
        invariant forall k :: k in dead' <==> k in dead || Died(old(counts), counts, k)
      {
        var c := learns[i];
        OneMore(learns, i);
        assert Tally(counts, c) >= 1;
        if counts[c] == 1 {
          counts := counts - {c};
          dead' := dead' + [c];
        } else {
          counts := counts[c := counts[c] - 1];
        }
      }
      assert learns[..|learns|] == learns;
    }

    /** The loop of `delete_flows_finish__`: takes back the lessons of the rules deleted from `r0`. */
    method TakeBack(ghost r0: map<Id, Content>, victims: map<Id, Content>) returns (dead: seq<Lesson>)
      modifies this`counts
      requires Exact(r0, counts) && victims.Keys <= r0.Keys && forall id :: id in victims ==> victims[id] == r0[id]
      ensures Exact(r0 - victims.Keys, counts) && Shrunk(old(counts), counts)
      ensures forall k :: k in dead <==> Died(old(counts), counts, k)
    {
      dead := [];
      var todo := victims.Keys;
      ghost var r := r0;
      while todo != {}
        invariant todo <= victims.Keys && r == r0 - (victims.Keys - todo)
        invariant Exact(r, counts) && Shrunk(old(counts), counts)
        invariant forall k :: k in dead <==> Died(old(counts), counts, k)
        decreases todo
      {
        var id :| id in todo;
        var learns := victims[id].actions.learns;
        forall k ensures Teachers(r, k) == multiset(learns)[k] + Teachers(r - {id}, k) {
          TeachersWithout(r, id, k);
        }
        ghost var n := counts;
        assert forall k :: multiset(learns)[k] <= Teachers(r, k) == Tally(n, k);
        dead := Decrement(learns, dead);
        forall k ensures Tally(counts, k) <= Tally(n, k) { }
        forall k ensures Died(old(counts), counts, k) <==> Died(old(counts), n, k) || Died(n, counts, k) {
          DiedInStages(old(counts), n, counts, k);
        }
        DiedInStages(old(counts), n, counts, LessonOf(victims[id]));
        todo, r := todo - {id}, r - {id};
      }
      assert r == r0 - victims.Keys;
    }

    /** `learned_cookies_flush`, mutually recursive with the deletion of flows; every recursive call has fewer rules to
        work on. */
    method Flush(dead: seq<Lesson>)
      modifies this
      requires Exact(rules, counts) && forall k :: k in dead ==> k !in counts
      ensures Exact(rules, counts) && Shrunk(old(counts), counts)
      ensures Swept(tables, old(rules), old(counts), AsSet(dead), rules, counts)
      ensures Spared(tables, old(rules), old(counts).Keys, AsSet(dead), rules.Keys)
      decreases |rules|, 1
    {
      ghost var all := AsSet(dead);
      for i := 0 to |dead|
        invariant Exact(rules, counts) && Shrunk(old(counts), counts)
        invariant Swept(tables, old(rules), old(counts), AsSet(dead[..i]), rules, counts)
        invariant Spared(tables, old(rules), old(counts).Keys, all, rules.Keys)
        invariant |rules| <= |old(rules)|
      {
        assert dead[..i + 1] == dead[..i] + [dead[i]];
        assert AsSet(dead[..i + 1]) == AsSet(dead[..i]) + {dead[i]};
        assert Tally(counts, dead[i]) <= Tally(old(counts), dead[i]);
        FlushOne(dead[i], old(rules), old(counts), AsSet(dead[..i]), all);
      }
      assert dead[..|dead|] == dead;
    }

    /** One turn of the flush: `delete_flows__` on what was taught by lesson `c`. */
    method FlushOne(c: Lesson, ghost r0: map<Id, Content>, ghost n0: map<Lesson, int>, ghost seen: set<Lesson>,
                    ghost all: set<Lesson>)
      modifies this
      requires Exact(rules, counts) && c !in counts && Positive(n0) && Shrunk(n0, counts) && c in all
      requires Swept(tables, r0, n0, seen, rules, counts)
      requires Spared(tables, r0, n0.Keys, all, rules.Keys)
      ensures Exact(rules, counts) && Shrunk(n0, counts) && |rules| <= |old(rules)|
      ensures Swept(tables, r0, n0, seen + {c}, rules, counts)
      ensures Spared(tables, r0, n0.Keys, all, rules.Keys)
      decreases |rules|, 0
    {
      var victims := map id | id in rules && Deletable(tables, rules[id]) && LessonOf(rules[id]) == c :: rules[id];
      if victims.Keys != {} {
        ghost var r, n := rules, counts;
        FewerRules(rules, victims.Keys);
        rules := rules - victims.Keys;
        var more := TakeBack(r, victims);
        ghost var r1, n1 := rules, counts;
        ghost var over := AsSet(more);
        SparedFurther(tables, r0, n0, all, r, n, victims.Keys, c, r1, n1, over);
        Flush(more);
        FewerOrEqual(r1, rules);
        SweptFurther(tables, r0, n0, seen, r, n, c, r1, n1, over, rules, counts);
      } else {
        forall id | id in rules && Deletable(tables, rules[id]) ensures LessonOf(rules[id]) != c {
          assert id !in victims.Keys;
        }
      }
    }

    /** `delete_flows__`. */
    method DeleteFlows(doomed: set<Id>)
      modifies this
      requires Exact(rules, counts) && doomed <= rules.Keys
      ensures Exact(rules, counts)
      ensures Cascade(tables, old(rules) - doomed, old(counts).Keys, {}, rules)
    {
      var victims := map id | id in doomed :: rules[id];
      ghost var r, n := rules, counts;
      rules := rules - doomed;
      assert victims.Keys == doomed;
      var dead := TakeBack(r, victims);
      ghost var r1, n1 := rules, counts;
      Flush(dead);
      forall k ensures k in dead <==> k in n && k !in n1 { }
      forall k | k in n1 ensures k in n { assert Tally(n1, k) <= Tally(n, k); }
      CascadeAfterFlush(tables, r1, n.Keys, n1, AsSet(dead), rules, counts);
    }

    /** `replace_rule_finish`: takes rule `id` into account and a prior rule, if any, out of it. */
    method FinishOne(ghost r: map<Id, Content>, id: Id, c: Content, prior: Option<(Id, Content)>,
                     ghost n0: map<Lesson, int>, ghost i: nat, dead: seq<Lesson>, ghost r2: map<Id, Content>, ghost learns: seq<Lesson>)
      returns (dead': seq<Lesson>)
      modifies this`counts
      requires Exact(r, counts) && id !in r && Positive(n0) && learns == c.actions.learns
      requires prior.Some? ==> prior.value.0 in r && r[prior.value.0] == prior.value.1
      requires Turned(n0, counts, learns, i, dead)
      requires r2 == r[id := c] - (if prior.None? then {} else {prior.value.0})
      ensures Exact(r2, counts)
      ensures Turned(n0, counts, learns, i + 1, dead')
    {
      ghost var n := counts;
      ghost var r1: map<Id, Content> := r[id := c];
      EnteredTeachers(r, id, c);
      Increment(c.actions.learns);
      dead' := dead;
      ghost var n1 := counts;
      if prior.Some? {
        LeftTeachers(r1, prior.value.0);
        assert forall k :: multiset(prior.value.1.actions.learns)[k] <= Teachers(r1, k) == Tally(n1, k);
        dead' := Decrement(prior.value.1.actions.learns, dead);
      } else {
        assert r2 == r1;
      }
      OneTurn(n0, n, learns, i, dead, n1, counts, dead', r2, id);
    }

    /** `replace_rule_finish` for each new rule of an add or modify, and the flush that follows. The starts have put the
        rules `news`, which all have the same actions, in the place of `priors`; an added rule may have no prior. */
    method FinishReplace(ghost r0: map<Id, Content>, news: seq<Id>, priors: seq<Id>, olds: map<Id, Content>)
      modifies this
      requires Exact(r0, counts)
      requires priors == [] || |priors| == |news|
      requires priors == [] ==> |news| == 1
      requires Replaced(r0, rules, news, priors)
      requires forall i :: 0 <= i < |priors| ==> priors[i] in olds && olds[priors[i]] == r0[priors[i]]
      ensures Exact(rules, counts)
      ensures Cascade(tables, old(rules), old(counts).Keys + (if news == [] then {} else AsSet(old(rules)[news[0]].actions.learns)),
                      {}, rules)
    {
      var learns := if news == [] then [] else rules[news[0]].actions.learns;
      var dead := FinishEach(r0, news, priors, olds, learns);
      ghost var n1 := counts;
      TurnedTaught(old(counts), n1, learns, |news|, dead);
      Flush(dead);
      CascadeAfterFlush(tables, old(rules), old(counts).Keys + AsSet(learns), n1, AsSet(dead), rules, counts);
    }

    /** The loop over the new rules and the ones they replace. */
    method FinishEach(ghost r0: map<Id, Content>, news: seq<Id>, priors: seq<Id>, olds: map<Id, Content>, ghost learns: seq<Lesson>)
      returns (dead: seq<Lesson>)
      modifies this`counts
      requires Exact(r0, counts) && Finishing(r0, rules, news, priors, olds, learns)
      ensures Exact(rules, counts) && Turned(old(counts), counts, learns, |news|, dead)
    {
      dead := [];
      ghost var r: map<Id, Content>, n0 := r0, counts;
      FinishingStarts(r0, rules, news, priors, olds, learns);
      for i := 0 to |news|
        invariant Exact(r, counts) && Between(r0, rules, news, priors, i, r)
        invariant Turned(n0, counts, learns, i, dead)
      {
        dead, r := FinishTurn(r0, news, priors, olds, learns, i, r, n0, dead);
      }
      FinishingEnds(r0, rules, news, priors, olds, learns, r);
    }

    method FinishTurn(ghost r0: map<Id, Content>, news: seq<Id>, priors: seq<Id>, olds: map<Id, Content>, ghost learns: seq<Lesson>,
                      i: nat, ghost r: map<Id, Content>, ghost n0: map<Lesson, int>, dead: seq<Lesson>)
      returns (dead': seq<Lesson>, ghost r': map<Id, Content>)
      modifies this`counts
      requires Finishing(r0, rules, news, priors, olds, learns) && Between(r0, rules, news, priors, i, r) && i < |news|
      requires Exact(r, counts) && Positive(n0) && Turned(n0, counts, learns, i, dead)
      ensures Exact(r', counts) && Between(r0, rules, news, priors, i + 1, r') && Turned(n0, counts, learns, i + 1, dead')
    {
      r' := FinishingNext(r0, rules, news, priors, olds, learns, i, r);
      var prior := if priors == [] then None else Some((priors[i], olds[priors[i]]));
      dead' := FinishOne(r, news[i], rules[news[i]], prior, n0, i, dead, r', learns);
    }
  }

  lemma EnteredTeachers(r: map<Id, Content>, id: Id, c: Content)
    requires id !in r
    ensures forall k :: Teachers(r[id := c], k) == multiset(c.actions.learns)[k] + Teachers(r, k)
  {
    forall k ensures Teachers(r[id := c], k) == multiset(c.actions.learns)[k] + Teachers(r, k) {
      TeachersWithout(r[id := c], id, k);
      assert r[id := c] - {id} == r;
    }
  }

  lemma LeftTeachers(r: map<Id, Content>, id: Id)
    requires id in r
    ensures forall k :: Teachers(r, k) == multiset(r[id].actions.learns)[k] + Teachers(r - {id}, k)
  {
    forall k ensures Teachers(r, k) == multiset(r[id].actions.learns)[k] + Teachers(r - {id}, k) { TeachersWithout(r, id, k); }
  }

  /** The new rules stand in the place of the old ones, whose contents are at hand, and teach `learns`. */
  ghost predicate Finishing(r0: map<Id, Content>, r1: map<Id, Content>, news: seq<Id>, priors: seq<Id>, olds: map<Id, Content>,
                            learns: seq<Lesson>) {
    && Replaced(r0, r1, news, priors) && (priors == [] || |priors| == |news|)
    && (forall i :: 0 <= i < |priors| ==> priors[i] in olds && olds[priors[i]] == r0[priors[i]])
    && learns == (if news == [] then [] else r1[news[0]].actions.learns)
  }

  lemma FinishingStarts(r0: map<Id, Content>, r1: map<Id, Content>, news: seq<Id>, priors: seq<Id>, olds: map<Id, Content>,
                        learns: seq<Lesson>)
    requires Finishing(r0, r1, news, priors, olds, learns)
    ensures Between(r0, r1, news, priors, 0, r0)
  {
    BetweenEnds(r0, r1, news, priors, r0);
  }

  lemma FinishingEnds(r0: map<Id, Content>, r1: map<Id, Content>, news: seq<Id>, priors: seq<Id>, olds: map<Id, Content>,
                      learns: seq<Lesson>, r: map<Id, Content>)
    requires Finishing(r0, r1, news, priors, olds, learns) && Between(r0, r1, news, priors, |news|, r)
    ensures r == r1
  {
    BetweenEnds(r0, r1, news, priors, r);
  }

  lemma FinishingNext(r0: map<Id, Content>, r1: map<Id, Content>, news: seq<Id>, priors: seq<Id>, olds: map<Id, Content>,
                      learns: seq<Lesson>, i: nat, r: map<Id, Content>) returns (r': map<Id, Content>)
    requires Finishing(r0, r1, news, priors, olds, learns) && Between(r0, r1, news, priors, i, r) && i < |news|
    ensures news[i] in r1 && news[i] !in r && r1[news[i]].actions.learns == learns
    ensures priors != [] ==> i < |priors| && priors[i] in r && priors[i] in olds && r[priors[i]] == olds[priors[i]]
    ensures r' == r[news[i] := r1[news[i]]] - (if priors == [] then {} else {priors[i]})
    ensures Between(r0, r1, news, priors, i + 1, r')
  {
    BetweenStep(r0, r1, news, priors, i, r);
    r' := r[news[i] := r1[news[i]]] - (if priors == [] then {} else {priors[i]});
  }

  ghost predicate Replaced(r0: map<Id, Content>, r: map<Id, Content>, news: seq<Id>, priors: seq<Id>) {
    && (forall i, j :: 0 <= i < j < |news| ==> news[i] != news[j])
    && (forall i, j :: 0 <= i < j < |priors| ==> priors[i] != priors[j])
    && (forall i :: 0 <= i < |news| ==> news[i] !in r0)
    && (forall i :: 0 <= i < |priors| ==> priors[i] in r0)
    && (forall id :: id in r <==> id in news || (id in r0 && id !in priors))
    && (forall id :: id in r && id in r0 ==> r[id] == r0[id])
    && (forall i :: 0 <= i < |news| ==> r[news[i]].actions == r[news[0]].actions)
  }

  /** The first `i` members of `l`. */
  ghost function First(l: seq<Id>, i: nat): set<Id>
    ensures First(l, 0) == {}
  {
    set j | 0 <= j < i && j < |l| :: l[j]
  }

  lemma FirstNext(l: seq<Id>, i: nat)
    requires i < |l| && forall j, k :: 0 <= j < k < |l| ==> l[j] != l[k]
    ensures First(l, i + 1) == First(l, i) + {l[i]} && l[i] !in First(l, i)
  {
    assert forall j :: 0 <= j < i ==> l[j] != l[i];
  }

  /** `r` stands for the rules accounted for after `i` replacements. */
  ghost predicate Between(r0: map<Id, Content>, r1: map<Id, Content>, news: seq<Id>, priors: seq<Id>, i: nat, r: map<Id, Content>) {
    && r.Keys == r0.Keys - First(priors, i) + First(news, i)
    && (forall id :: id in r ==> if id in r0 then r[id] == r0[id] else id in r1 && r[id] == r1[id])
  }

  lemma BetweenEnds(r0: map<Id, Content>, r1: map<Id, Content>, news: seq<Id>, priors: seq<Id>, r: map<Id, Content>)
    requires Replaced(r0, r1, news, priors) && (priors == [] || |priors| == |news|)
    ensures Between(r0, r1, news, priors, 0, r0)
    ensures Between(r0, r1, news, priors, |news|, r) ==> r == r1
  {
    if Between(r0, r1, news, priors, |news|, r) {
      forall id ensures id in r <==> id in r1 {
        assert id in First(news, |news|) <==> id in news;
        assert id in First(priors, |news|) <==> id in priors;
      }
    }
  }

  /** The next new rule and the next prior one stand where they should. */
  lemma NextPair(r0: map<Id, Content>, r1: map<Id, Content>, news: seq<Id>, priors: seq<Id>, i: nat, r: map<Id, Content>)
    requires Between(r0, r1, news, priors, i, r) && Replaced(r0, r1, news, priors) && i < |news|
    requires priors == [] || |priors| == |news|
    ensures news[i] !in r && news[i] !in r0 && news[i] in r1
    ensures priors != [] ==> priors[i] in r0 && priors[i] in r && r[priors[i]] == r0[priors[i]] && priors[i] !in First(news, i)
  {
    FirstNext(news, i);
    assert news[i] in news;
    if priors != [] { FirstNext(priors, i); }
  }

  lemma BetweenStep(r0: map<Id, Content>, r1: map<Id, Content>, news: seq<Id>, priors: seq<Id>, i: nat, r: map<Id, Content>)
    requires Between(r0, r1, news, priors, i, r) && Replaced(r0, r1, news, priors) && i < |news|
    requires priors == [] || |priors| == |news|
    ensures news[i] !in r && news[i] in r1 && (priors != [] ==> priors[i] in r && r[priors[i]] == r0[priors[i]])
    ensures Between(r0, r1, news, priors, i + 1, r[news[i] := r1[news[i]]] - (if priors == [] then {} else {priors[i]}))
  {
    NextPair(r0, r1, news, priors, i, r);
    var more := if priors == [] then {} else {priors[i]};
    SetStep(r0.Keys, First(priors, i), First(news, i), news[i], more);
    FirstNext(news, i);
    if priors != [] { FirstNext(priors, i); }
    MapStep(r, news[i], r1[news[i]], more);
    assert First(priors, i + 1) == First(priors, i) + more;
  }

  lemma MapStep(r: map<Id, Content>, id: Id, c: Content, more: set<Id>)
    ensures (r[id := c] - more).Keys == r.Keys + {id} - more
    ensures forall x :: x in r[id := c] - more ==> (r[id := c] - more)[x] == if x == id then c else r[x]
  {
  }

  lemma SetStep(all: set<Id>, gone: set<Id>, come: set<Id>, id: Id, more: set<Id>)
    requires id !in all && more <= all && more !! come
    ensures (all - gone + come) + {id} - more == all - (gone + more) + (come + {id})
  {
  }

  /** The counts and the dead lessons after `i` replacements by rules that learn `learns`. */
  ghost predicate Turned(n0: map<Lesson, int>, n: map<Lesson, int>, learns: seq<Lesson>, i: nat, dead: seq<Lesson>) {
    && (i > 0 ==> forall k :: k in learns ==> k in n)
    && (i == 0 ==> n == n0)
    && (forall k :: k !in learns ==> Tally(n, k) <= Tally(n0, k))
    && (forall k :: k in dead <==> Died(n0, n, k))
  }

  /** When all is accounted for, what was taught is over exactly if it is not counted any more. */
  lemma TurnedTaught(n0: map<Lesson, int>, n: map<Lesson, int>, learns: seq<Lesson>, i: nat, dead: seq<Lesson>)
    requires Turned(n0, n, learns, i, dead) && Positive(n0) && Positive(n) && (i == 0 ==> learns == [])
    ensures n.Keys <= n0.Keys + AsSet(learns)
    ensures forall k :: k in AsSet(dead) <==> k in n0.Keys + AsSet(learns) && k !in n
    ensures forall k :: k in dead ==> k !in n
  {
    forall k | k in n ensures k in n0.Keys + AsSet(learns) {
      if k !in learns { assert Tally(n, k) <= Tally(n0, k); }
    }
  }

  lemma OneTurn(n0: map<Lesson, int>, n: map<Lesson, int>, learns: seq<Lesson>, i: nat, dead: seq<Lesson>,
                n': map<Lesson, int>, n'': map<Lesson, int>, dead': seq<Lesson>, r: map<Id, Content>, id: Id)
    requires Turned(n0, n, learns, i, dead)
    requires Positive(n0) && Positive(n) && Positive(n') && Shrunk(n', n'')
    requires forall k :: Tally(n', k) == Tally(n, k) + multiset(learns)[k]
    requires forall k :: k in dead' <==> k in dead || Died(n', n'', k)
    requires Exact(r, n'') && id in r && r[id].actions.learns == learns
    ensures Turned(n0, n'', learns, i + 1, dead')
  {
    forall k | k in learns ensures k in n'' {
      assert Teaches(r[id], k) > 0;
      TaughtIfCounted(r, n'', k);
    }
    forall k | k !in learns ensures Tally(n'', k) <= Tally(n, k) && (k in n' <==> k in n) {
      assert multiset(learns)[k] == 0;
      assert Tally(n'', k) <= Tally(n', k);
    }
    forall k ensures k in dead' <==> Died(n0, n'', k) {
      if k !in learns {
        assert Tally(n'', k) <= Tally(n, k) <= Tally(n0, k);
      }
    }
  }

  lemma FewerRules(rules: map<Id, Content>, victims: set<Id>)
    requires victims <= rules.Keys && victims != {}
    ensures |rules - victims| < |rules|
  {
    assert (rules - victims).Keys == rules.Keys - victims;
    assert |(rules - victims).Keys| == |rules.Keys| - |victims|;
  }

  lemma FewerOrEqual(a: map<Id, Content>, b: map<Id, Content>)
    requires b.Keys <= a.Keys
    ensures |b| <= |a|
  {
    if b.Keys != a.Keys {
      assert |a.Keys - b.Keys| == |a.Keys| - |b.Keys|;
    }
  }

  /** A sweep, a deletion of everything taught by `c`, and the sweep that deletion calls for make one sweep. */
  lemma SweptFurther(tables: seq<TableConfig>, r0: map<Id, Content>, n0: map<Lesson, int>, seen: set<Lesson>,
                     r: map<Id, Content>, n: map<Lesson, int>, c: Lesson,
                     r1: map<Id, Content>, n1: map<Lesson, int>, over: set<Lesson>,
                     r2: map<Id, Content>, n2: map<Lesson, int>)
    requires Swept(tables, r0, n0, seen, r, n) && Shrunk(n0, n) && Shrunk(n, n1) && Shrunk(n1, n2)
    requires Positive(n0) && Positive(n) && Positive(n1) && Positive(n2)
    requires r1.Keys <= r.Keys && forall id :: id in r1 ==> r1[id] == r[id] && (Deletable(tables, r[id]) ==> LessonOf(r[id]) != c)
    requires forall k :: k in over <==> Died(n, n1, k)
    requires Swept(tables, r1, n1, over, r2, n2)
    ensures Swept(tables, r0, n0, seen + {c}, r2, n2) && Shrunk(n0, n2)
  {
    DiedInStages(n, n1, n2, c);
    DiedInStages(n0, n, n2, c);
    forall id | id in r2 && Deletable(tables, r2[id])
      ensures LessonOf(r2[id]) !in seen + {c} && !Died(n0, n2, LessonOf(r2[id]))
    {
      var k := LessonOf(r2[id]);
      assert id in r1 && r2[id] == r1[id] == r[id];
      DiedInStages(n, n1, n2, k);
      DiedInStages(n0, n, n2, k);
    }
  }

  /** What can stay together under the whole flush can also stay together after one turn of it. */
  lemma SparedFurther(tables: seq<TableConfig>, r0: map<Id, Content>, n0: map<Lesson, int>, all: set<Lesson>,
                      r: map<Id, Content>, n: map<Lesson, int>, victims: set<Id>, c: Lesson,
                      r1: map<Id, Content>, n1: map<Lesson, int>, over: set<Lesson>)
    requires Spared(tables, r0, n0.Keys, all, r.Keys) && c in all && Positive(n0) && Shrunk(n0, n) && Shrunk(n, n1)
    requires r.Keys <= r0.Keys && forall id :: id in r ==> r[id] == r0[id]
    requires r1 == r - victims && forall id :: id in victims ==> id in r && Deletable(tables, r[id]) && LessonOf(r[id]) == c
    requires Exact(r, n) && Exact(r1, n1) && forall k :: k in over <==> Died(n, n1, k)
    ensures forall some :: Sustained(tables, r0, n0.Keys, all, some) ==> Sustained(tables, r1, n1.Keys, over, some)
  {
    forall some | Sustained(tables, r0, n0.Keys, all, some) ensures Sustained(tables, r1, n1.Keys, over, some) {
      assert some <= r.Keys;
      forall id | id in some ensures id in r1 { }
      forall id | id in some && Deletable(tables, r1[id])
        ensures LessonOf(r1[id]) !in over
        ensures LessonOf(r1[id]) in n1 ==> TaughtBy(r1, some, LessonOf(r1[id]))
      {
        var k := LessonOf(r1[id]);
        assert Tally(n, k) <= Tally(n0, k);
        assert Tally(n1, k) <= Tally(n, k);
        if k in n {
          var j :| j in some && j in r0 && Teaches(r0[j], k) > 0;
          assert j in r1 && r1[j] == r0[j];
          TaughtIfCounted(r1, n1, k);
        }
      }
    }
  }

  lemma CascadeAfterFlush(tables: seq<TableConfig>, r1: map<Id, Content>, taught: set<Lesson>, n1: map<Lesson, int>,
                          dead: set<Lesson>, r2: map<Id, Content>, n2: map<Lesson, int>)
    requires n1.Keys <= taught && forall k :: k in dead <==> k in taught && k !in n1
    requires Shrunk(n1, n2) && Exact(r1, n1) && Exact(r2, n2)
    requires Swept(tables, r1, n1, dead, r2, n2) && Spared(tables, r1, n1.Keys, dead, r2.Keys)
    ensures Cascade(tables, r1, taught, {}, r2)
  {
    forall id | id in r2 && Deletable(tables, r2[id]) && LessonOf(r2[id]) in taught
      ensures TaughtBy(r1, r2.Keys, LessonOf(r2[id]))
    {
      var k := LessonOf(r2[id]);
      TaughtIfCounted(r2, n2, k);
      var j :| j in r2.Keys && j in r2 && Teaches(r2[j], k) > 0;
      assert j in r1 && r1[j] == r2[j];
    }
    forall some | Sustained(tables, r1, taught, {}, some) ensures Sustained(tables, r1, n1.Keys, dead, some) {
      forall id | id in some && Deletable(tables, r1[id])
        ensures LessonOf(r1[id]) !in dead
        ensures LessonOf(r1[id]) in n1 ==> TaughtBy(r1, some, LessonOf(r1[id]))
      {
        var k := LessonOf(r1[id]);
        if k in taught {
          var j :| j in some && j in r1 && Teaches(r1[j], k) > 0;
          TaughtIfCounted(r1, n1, k);
        }
      }
    }
  }
}
