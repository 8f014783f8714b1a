/** What flow mods and group mods mean to a controller: a plain set of rules and of groups,
    without versions, identities or indexes. */
module FlowSpec {
  import opened FlowTable
  import opened FlowMod
  import opened FlowModInv
  import opened FlowMeaning

  datatype Plain = Plain(rules: set<Content>, groups: set<GroupContent>)

  ghost predicate KnowsGroup(a: Plain, gid: GroupId) {
    exists g :: g in a.groups && g.gid == gid
  }

  ghost predicate PlainActionsOk(a: Plain, acts: Actions) {
    forall gid :: gid in acts.groups ==> KnowsGroup(a, gid)
  }

  /** Rules of a read-only table change only on behalf of requests that may change them. */
  predicate Changeable(tables: seq<TableConfig>, cr: Criteria, c: Content) {
    c.key.table < |tables| && (tables[c.key.table].readonly ==> cr.includeReadonly)
  }

  ghost function Targets(a: Plain, tables: seq<TableConfig>, cr: Criteria): set<Content> {
    set x | x in a.rules && Asked(tables, cr, x) && Changeable(tables, cr, x)
  }

  ghost predicate OnlyReadonly(a: Plain, tables: seq<TableConfig>, cr: Criteria) {
    Targets(a, tables, cr) == {} && exists x :: x in a.rules && Asked(tables, cr, x) && !Changeable(tables, cr, x)
  }

  ghost function PlainTable(a: Plain, t: nat): set<Content> {
    set x | x in a.rules && x.key.table == t
  }

  ghost function SameKey(a: Plain, key: Key): set<Content> {
    set x | x in a.rules && x.key == key
  }

  /** What a request leaves where a rule with its key was: an add overwrites, a modify that found nothing else
      modifies. */
  function Over(was: Content, c: Content, isAdd: bool): Content {
    if isAdd then AddedOver(was, c) else Modified(was, c, true)
  }

  /** A rule is added over the one with its key; else it must not overlap if it says so, and must find room or make
      room by evicting `victim`. */
  ghost function PlainAdd(a: Plain, tables: seq<TableConfig>, c: Content, isAdd: bool, victim: Option<Content>): Outcome<Plain>
    requires c.key.table < |tables|
  {
    if !PlainActionsOk(a, c.actions) then Err(BadOutGroup)
    else if SameKey(a, c.key) != {} then
      Ok(a.(rules := a.rules - SameKey(a, c.key) + set x | x in SameKey(a, c.key) :: Over(x, c, isAdd)))
    else if c.attrs.checkOverlap && exists x :: x in a.rules && Collide(c, x) then Err(Overlap)
    else if |PlainTable(a, c.key.table)| >= tables[c.key.table].maxFlows then
      if victim.None? then Err(TableFull) else Ok(a.(rules := a.rules - {victim.value} + {c}))
    else Ok(a.(rules := a.rules + {c}))
  }

  ghost function PlainModify(a: Plain, tables: seq<TableConfig>, m: FlowMod, victim: Option<Content>): Outcome<Plain>
    requires m.Modify? && m.c.key.table < |tables|
  {
    var hit := Targets(a, tables, m.cr);
    if m.cr.table.Some? && m.cr.table.value >= |tables| then Err(BadTableId)
    else if OnlyReadonly(a, tables, m.cr) then Err(Eperm)
    else if hit != {} then
      if !PlainActionsOk(a, m.c.actions) then Err(BadOutGroup)
      else Ok(a.(rules := a.rules - hit + set x | x in hit :: Modified(x, m.c, m.modifyCookie)))
    else if m.mayAdd then PlainAdd(a, tables, m.c, false, victim)
    else Ok(a)
  }

  ghost function PlainDelete(a: Plain, tables: seq<TableConfig>, cr: Criteria): Outcome<Plain> {
    if cr.table.Some? && cr.table.value >= |tables| then Err(BadTableId)
    else if OnlyReadonly(a, tables, cr) then Err(Eperm)
    else Ok(a.(rules := a.rules - Targets(a, tables, cr)))
  }

  ghost function PlainMod(a: Plain, tables: seq<TableConfig>, m: FlowMod, victim: Option<Content>): Outcome<Plain>
    requires m.Delete? || m.c.key.table < |tables|
  {
    match m
    case Add(c) => PlainAdd(a, tables, c, true, victim)
    case Modify(_, _, _, _) => PlainModify(a, tables, m, victim)
    case Delete(cr) => PlainDelete(a, tables, cr)
  }
}
