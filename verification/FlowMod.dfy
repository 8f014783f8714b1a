/** Flow mods and group mods as start and revert. A start makes changes that lookups will see
    in version `v` only; a revert takes them back. */
module FlowMod {
  import opened FlowTable

  // ---------- selecting rules ----------

  const ALL_ONES: bv64 := 0xFFFF_FFFF_FFFF_FFFF
  const MAX_OPENFLOW_PRIORITY: nat := 0xFFFF

  /** `table` is `None` for all tables. */
  datatype Criteria = Criteria(table: Option<nat>, pattern: Pattern, priority: nat, strict: bool,
                               cookie: bv64, mask: bv64, outPort: Option<nat>, outGroup: Option<GroupId>,
                               includeReadonly: bool)

  predicate CookieMatches(c: bv64, cookie: bv64, mask: bv64) {
    (c ^ cookie) & mask == 0
  }

  /** Everything `wide` requires, `narrow` requires too. */
  predicate Narrower(narrow: Pattern, wide: Pattern) {
    forall b :: b in wide ==> b in narrow && narrow[b] == wide[b]
  }

  /** The match itself: loose, or strict on pattern and priority. */
  predicate Fits(cr: Criteria, c: Content) {
    if cr.strict then c.key.pattern == cr.pattern && c.key.priority == cr.priority
    else Narrower(c.key.pattern, cr.pattern)
  }

  /** What `collect_rule` checks of table, outputs and priority. */
  predicate Placed(cr: Criteria, c: Content) {
    && (cr.table.Some? ==> cr.table.value == c.key.table)
    && (cr.outPort.Some? ==> cr.outPort.value in c.actions.outPorts)
    && (cr.outGroup.Some? ==> cr.outGroup.value in c.actions.groups)
    && (c.key.priority > MAX_OPENFLOW_PRIORITY ==> cr.strict && cr.priority > MAX_OPENFLOW_PRIORITY)
  }

  /** What `collect_rule` itself checks, apart from versions. */
  predicate Collectable(cr: Criteria, c: Content) {
    Placed(cr, c) && CookieMatches(c.cookie, cr.cookie, cr.mask)
  }

  /** The tables a scan visits: the one asked for, or all that are not hidden. */
  predicate Visited(tables: seq<TableConfig>, cr: Criteria, table: nat) {
    table < |tables| && (if cr.table.Some? then cr.table.value == table else !tables[table].hidden)
  }

  /** Rules the search comes across: through the cookie index if the whole cookie is given,
      otherwise by scanning tables for what is visible in the newest version. */
  ghost predicate Encountered(s: Switch, cr: Criteria, id: Id) {
    && id in s.rules
    && (if cr.mask == ALL_ONES then id in s.cookies
        else Visited(s.tables, cr, s.rules[id].c.key.table) && s.rules[id].versions.remove.None?)
  }

  ghost predicate Selected(s: Switch, cr: Criteria, id: Id) {
    && Encountered(s, cr, id)
    && Fits(cr, s.rules[id].c) && Collectable(cr, s.rules[id].c)
    && s.rules[id].versions.remove.None?
  }

  predicate Writable(tables: seq<TableConfig>, cr: Criteria, c: Content) {
    c.key.table < |tables| && (!tables[c.key.table].readonly || cr.includeReadonly)
  }

  /** The modifiable selected rules below `n`, in order. */
  ghost function Collect(s: Switch, cr: Criteria, n: nat): (l: seq<Id>)
    ensures forall k :: 0 <= k < |l| ==> l[k] < n && Selected(s, cr, l[k]) && Writable(s.tables, cr, s.rules[l[k]].c)
    ensures forall i, j :: 0 <= i < j < |l| ==> l[i] < l[j]
    ensures forall id: nat :: id < n && Selected(s, cr, id) && Writable(s.tables, cr, s.rules[id].c) ==> id in l
  {
    if n == 0 then [] else
      var below := Collect(s, cr, n - 1);
      if Selected(s, cr, n - 1) && Writable(s.tables, cr, s.rules[n - 1].c) then below + [n - 1] else below
  }

  datatype Error = BadTableId | Eperm | BadOutGroup | Overlap | TableFull | GroupExists | OutOfGroups | UnknownGroup
  datatype Outcome<+T> = Ok(value: T) | Err(error: Error)

  predicate TableIdOk(s: Switch, cr: Criteria) {
    cr.table.Some? ==> cr.table.value < |s.tables|
  }

  ghost predicate ReadonlyHit(s: Switch, cr: Criteria) {
    exists id :: Selected(s, cr, id) && !Writable(s.tables, cr, s.rules[id].c)
  }

  /** `collect_rules_loose` and `collect_rules_strict`. */
  ghost function CollectRules(s: Switch, cr: Criteria, next: nat): Outcome<seq<Id>> {
    if !TableIdOk(s, cr) then Err(BadTableId)
    else if Collect(s, cr, next) == [] && ReadonlyHit(s, cr) then Err(Eperm)
    else Ok(Collect(s, cr, next))
  }

  // ---------- flow mods ----------

  datatype FlowMod =
    | Add(c: Content)
    | Modify(cr: Criteria, c: Content, mayAdd: bool, modifyCookie: bool)
    | Delete(cr: Criteria)

  /** What a revert needs to know. */
  datatype Undo = Undo(olds: seq<Id>, news: seq<Id>)
  datatype Started = Started(s: Switch, next: nat, undo: Undo)

  ghost predicate GroupKnown(s: Switch, gid: GroupId) {
    exists g :: g in s.groups && s.groups[g].gid == gid && s.groups[g].versions.remove.None?
  }

  ghost predicate ActionsOk(s: Switch, a: Actions) {
    forall gid :: gid in a.groups ==> GroupKnown(s, gid)
  }

  ghost predicate IsExactly(s: Switch, key: Key, v: nat, id: Id) {
    id in s.rules && s.rules[id].c.key == key && VisibleAt(s.rules[id].versions, v)
  }

  /** The first rule below `n` with this key that version `v` shows. */
  ghost function FirstBelow(s: Switch, key: Key, v: nat, n: nat): (r: Option<Id>)
    ensures r.Some? ==> IsExactly(s, key, v, r.value) && forall id: nat :: id < r.value ==> !IsExactly(s, key, v, id)
    ensures r.None? ==> forall id: nat :: id < n ==> !IsExactly(s, key, v, id)
  {
    if n == 0 then None else
      match FirstBelow(s, key, v, n - 1)
      case Some(id) => Some(id)
      case None => if IsExactly(s, key, v, n - 1) then Some(n - 1) else None
  }

  /** `classifier_find_rule_exactly`. Should several rules with the key be visible, it is the oldest. */
  ghost function FindExactly(s: Switch, key: Key, v: nat): (r: Option<Id>)
    ensures r.Some? ==> IsExactly(s, key, v, r.value) && forall id: nat :: id < r.value ==> !IsExactly(s, key, v, id)
    ensures r.None? ==> forall id :: !IsExactly(s, key, v, id)
  {
    if exists id: Id :: IsExactly(s, key, v, id) then var id: Id :| IsExactly(s, key, v, id); FirstBelow(s, key, v, id + 1) else None
  }

  /** Two patterns that some packet satisfies together. */
  predicate Compatible(a: Pattern, b: Pattern) {
    forall x :: x in a && x in b ==> a[x] == b[x]
  }

  predicate OverlapsContent(c: Content, d: Content) {
    c.key.table == d.key.table && c.key.priority == d.key.priority && Compatible(c.key.pattern, d.key.pattern)
  }

  ghost predicate Overlaps(s: Switch, c: Content, v: nat) {
    exists id :: id in s.rules && VisibleAt(s.rules[id].versions, v) && OverlapsContent(c, s.rules[id].c)
  }

  ghost predicate CanBeVictim(s: Switch, table: nat, id: Id) {
    id in s.rules && s.evictable[id] > 0 && s.rules[id].c.key.table == table
  }

  /** Some rule from the table's eviction groups, if eviction is on and they are not empty. */
  ghost function Victim(s: Switch, table: nat): Option<Id>
    requires table < |s.tables|
  {
    if s.tables[table].eviction && exists id :: CanBeVictim(s, table, id)
    then var id :| CanBeVictim(s, table, id); Some(id) else None
  }

  /** What a new rule takes over from the one it replaces. */
  function Inherit(prior: Content, c: Content, isAdd: bool, modifyCookie: bool): Content {
    c.(attrs := if isAdd then c.attrs else prior.attrs,
       cookie := if modifyCookie && c.cookie != ALL_ONES && c.cookie != prior.cookie then c.cookie else prior.cookie)
  }

  /** The contents of the new rule. From a rule marked as evicted nothing is taken over, be the mark left by a bundle
      that failed. */
  function Successor(prior: Rule, c: Content, isAdd: bool, modifyCookie: bool): Content {
    if prior.evicted then c else Inherit(prior.c, c, isAdd, modifyCookie)
  }

  /** `replace_rule_start`, the contents of the new rule being settled. */
  function Replace(s: Switch, v: nat, prior: Option<Id>, c: Content, id: Id): Switch
    requires c.key.table < |s.nFlows| && (prior.Some? ==> prior.value in s.rules)
  {
    In(if prior.Some? then Out(s, prior.value, v) else Count(s, c.key.table, 1), id, c, v)
  }

  /** `replace_rule_revert`. */
  function Unreplace(s: Switch, prior: Option<Id>, id: Id): Switch
    requires id in s.rules && s.rules[id].c.key.table < |s.nFlows|
    requires prior.Some? ==> prior.value in s.rules && prior.value != id
  {
    var s1 :=
      if prior.None? then Count(s, s.rules[id].c.key.table, -1)
      else
        var r := s.rules[prior.value];
        // An evicted rule is put back into an eviction group here, and once more with the rest.
        Back(if r.evicted then s.(evictable := Joined(s.evictable, s.tables, prior.value, r.c)) else s, prior.value);
    Drop(s1, id)
  }

  function MarkEvicted(s: Switch, id: Id): Switch
    requires id in s.rules
  {
    s.(rules := s.rules[id := s.rules[id].(evicted := true)], evictable := s.evictable - multiset{id})
  }

  /** `add_flow_start`, on behalf of an add or of a modify that found nothing to modify. */
  ghost function AddStart(s: Switch, next: nat, v: nat, c: Content, isAdd: bool): Outcome<Started>
    requires c.key.table < |s.nFlows| == |s.tables|
  {
    if !ActionsOk(s, c.actions) then Err(BadOutGroup) else
      match FindExactly(s, c.key, v)
      case Some(id) =>
        Ok(Started(Replace(s, v, Some(id), Successor(s.rules[id], c, isAdd, true), next), next + 1, Undo([id], [next])))
      case None =>
        if c.attrs.checkOverlap && Overlaps(s, c, v) then Err(Overlap)
        else MakeRoom(s, next, v, c)
  }

  /** Adds a rule that replaces none, evicting another if the table is full. */
  ghost function MakeRoom(s: Switch, next: nat, v: nat, c: Content): Outcome<Started>
    requires c.key.table < |s.nFlows| == |s.tables|
  {
    if s.nFlows[c.key.table] >= s.tables[c.key.table].maxFlows then
      match Victim(s, c.key.table)
      case None => Err(TableFull)
      case Some(w) => Ok(Started(Replace(MarkEvicted(s, w), v, Some(w), c, next), next + 1, Undo([w], [next])))
    else Ok(Started(Replace(s, v, None, c, next), next + 1, Undo([], [next])))
  }

  /** Distinct rules of the switch with tables it has. */
  ghost predicate Replaceable(s: Switch, olds: seq<Id>, news: seq<Id>, cs: seq<Content>) {
    && |olds| == |news| == |cs|
    && (forall i :: 0 <= i < |olds| ==> olds[i] in s.rules && cs[i].key.table < |s.nFlows|)
  }

  /** The second loop of `modify_flows_start__`. */
  function ReplaceAll(s: Switch, v: nat, olds: seq<Id>, news: seq<Id>, cs: seq<Content>): Switch
    requires Replaceable(s, olds, news, cs)
    decreases |olds|
  {
    if olds == [] then s
    else ReplaceAll(Replace(s, v, Some(olds[0]), cs[0], news[0]), v, olds[1..], news[1..], cs[1..])
  }

  /** The loop of `modify_flows_revert`, in the same order. */
  function UnreplaceAll(s: Switch, olds: seq<Id>, news: seq<Id>): Switch
    requires Unreplaceable(s, olds, news)
    decreases |olds|
  {
    if olds == [] then s
    else UnreplaceAll(Unreplace(s, Some(olds[0]), news[0]), olds[1..], news[1..])
  }

  ghost predicate Unreplaceable(s: Switch, olds: seq<Id>, news: seq<Id>) {
    && |olds| == |news|
    && (forall i, j :: 0 <= i < j < |news| ==> news[i] != news[j])
    && (forall i, j :: 0 <= i < |olds| && 0 <= j < |news| ==> olds[i] != news[j])
    && (forall i :: 0 <= i < |olds| ==> olds[i] in s.rules && news[i] in s.rules
                                        && s.rules[news[i]].c.key.table < |s.nFlows|)
  }

  function NewIds(next: nat, n: nat): (l: seq<Id>)
    ensures |l| == n && forall i :: 0 <= i < n ==> l[i] == next + i
  {
    seq(n, i => next + i)
  }

  /** The modified copies of the rules in `olds`. */
  function Copies(s: Switch, olds: seq<Id>, c: Content, modifyCookie: bool): (l: seq<Content>)
    requires forall i :: 0 <= i < |olds| ==> olds[i] in s.rules
    ensures |l| == |olds|
    ensures forall i :: 0 <= i < |olds| ==>
              l[i] == Successor(s.rules[olds[i]], c.(key := s.rules[olds[i]].c.key), false, modifyCookie)
  {
    seq(|olds|, i requires 0 <= i < |olds| =>
      Successor(s.rules[olds[i]], c.(key := s.rules[olds[i]].c.key), false, modifyCookie))
  }

  ghost predicate AllIn(s: Switch, ids: seq<Id>) {
    forall i :: 0 <= i < |ids| ==> ids[i] in s.rules && s.rules[ids[i]].c.key.table < |s.nFlows|
  }

  /** Replaces each of the rules `olds` by its modified copy. */
  ghost function ModifyThese(s: Switch, next: nat, v: nat, m: FlowMod, olds: seq<Id>): Outcome<Started>
    requires m.Modify? && AllIn(s, olds)
  {
    if !ActionsOk(s, m.c.actions) then Err(BadOutGroup) else
      var news := NewIds(next, |olds|);
      Ok(Started(ReplaceAll(s, v, olds, news, Copies(s, olds, m.c, m.modifyCookie)), next + |olds|, Undo(olds, news)))
  }

  ghost function ModifyStart(s: Switch, next: nat, v: nat, m: FlowMod): Outcome<Started>
    requires m.Modify? && m.c.key.table < |s.nFlows| == |s.tables|
    requires TablesInRange(s)
  {
    match CollectRules(s, m.cr, next)
    case Err(e) => Err(e)
    case Ok(olds) =>
      if olds != [] then ModifyThese(s, next, v, m, olds)
      else if m.mayAdd then AddStart(s, next, v, m.c, false)
      else Ok(Started(s, next, Undo([], [])))
  }

  ghost predicate TablesInRange(s: Switch) {
    |s.nFlows| == |s.tables| && forall id :: id in s.rules ==> s.rules[id].c.key.table < |s.tables|
  }

  /** `delete_flows_start__`. */
  function DeleteAll(s: Switch, v: nat, ids: seq<Id>): Switch
    requires AllIn(s, ids)
    decreases |ids|
  {
    if ids == [] then s
    else DeleteAll(Out(Count(s, s.rules[ids[0]].c.key.table, -1), ids[0], v), v, ids[1..])
  }

  /** `delete_flows_revert__`, in the same order. */
  function UndeleteAll(s: Switch, ids: seq<Id>): Switch
    requires AllIn(s, ids)
    decreases |ids|
  {
    if ids == [] then s
    else UndeleteAll(Count(Back(s, ids[0]), s.rules[ids[0]].c.key.table, 1), ids[1..])
  }

  ghost function DeleteStart(s: Switch, next: nat, v: nat, m: FlowMod): Outcome<Started>
    requires m.Delete? && TablesInRange(s)
  {
    match CollectRules(s, m.cr, next)
    case Err(e) => Err(e)
    case Ok(ids) =>
      Ok(Started(DeleteAll(s, v, ids), next, Undo(ids, [])))
  }

  predicate ModReady(s: Switch, m: FlowMod) {
    m.Delete? || m.c.key.table < |s.tables|
  }

  /** `ofproto_flow_mod_start`. */
  ghost function Start(s: Switch, next: nat, v: nat, m: FlowMod): Outcome<Started>
    requires TablesInRange(s) && ModReady(s, m)
  {
    match m
    case Add(c) => AddStart(s, next, v, c, true)
    case Modify(_, _, _, _) => ModifyStart(s, next, v, m)
    case Delete(_) => DeleteStart(s, next, v, m)
  }

  ghost predicate Revertible(s: Switch, m: FlowMod, u: Undo) {
    match m
    case Add(_) => |u.olds| <= 1 == |u.news| && u.news[0] in s.rules && s.rules[u.news[0]].c.key.table < |s.nFlows|
                   && (u.olds != [] ==> Unreplaceable(s, u.olds, u.news))
    case Modify(_, _, _, _) => u.olds != [] ==> Unreplaceable(s, u.olds, u.news)
    case Delete(_) => AllIn(s, u.olds)
  }

  /** `ofproto_flow_mod_revert`. A modify with no old rules is left as it is, even if it added a rule. */
  ghost function Revert(s: Switch, m: FlowMod, u: Undo): Switch
    requires Revertible(s, m, u)
  {
    match m
    case Add(_) => Unreplace(s, if u.olds == [] then None else Some(u.olds[0]), u.news[0])
    case Modify(_, _, _, _) => if u.olds == [] then s else UnreplaceAll(s, u.olds, u.news)
    case Delete(_) => UndeleteAll(s, u.olds)
  }
}
