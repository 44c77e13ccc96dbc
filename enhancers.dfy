/** The linking helpers of the mock index: id extraction, the random entity
    enhancer, the positional chapter enhancer, and right-to-left composition
    of enhancers over one collection. */
module Enhancers {
  import opened Entities

  /** `getId`. */
  function GetId(e: Entity): Id {
    e.id
  }

  /** `list.map(getId)`. */
  function Ids(list: seq<Entity>): (ids: seq<Id>)
    ensures |ids| == |list|
    ensures forall i :: 0 <= i < |list| ==> ids[i] == list[i].id
  {
    if list == [] then [] else [GetId(list[0])] + Ids(list[1..])
  }

  /** `extractIds`: the id pool of a collection, empty when the collection
      is empty or absent. */
  function ExtractIds(list: Option<seq<Entity>>): (ids: seq<Id>)
    ensures list.None? ==> ids == []
    ensures list.Some? ==> |ids| == |list.value|
    ensures list.Some? ==> forall i :: 0 <= i < |list.value| ==> ids[i] == list.value[i].id
  {
    if list.None? || list.value == [] then [] else Ids(list.value)
  }

  /** `randomIntBetween` and `randomEntries` of `./_utils`, as oracles. Each
      call also receives its tick: the position, among all random draws of
      one run, of the entity it is drawing for. */
  datatype Random = Random(intBetween: (int, int, nat) -> int, entries: (seq<Id>, int, nat) -> seq<Id>)

  /** The arguments of `makeEntityEnhancer`. */
  datatype Relation = Relation(min: int, max: int, pool: seq<Id>, field: Field)

  /** `randomEntries(pool, randomIntBetween(min, max))` at one tick. */
  function Draw(rnd: Random, rel: Relation, tick: nat): seq<Id> {
    rnd.entries(rel.pool, rnd.intBetween(rel.min, rel.max, tick), tick)
  }

  /** The enhancer `makeEntityEnhancer(rel)` applied to `es`, the random
      source standing at `tick`: entity `i` gets its own draw at `tick + i`
      and is otherwise left as it was. */
  function EntityEnhance(rel: Relation, rnd: Random, es: seq<Entity>, tick: nat): (r: seq<Entity>)
    ensures |r| == |es|
  {
    seq(|es|, i requires 0 <= i < |es| => Set(es[i], rel.field, Draw(rnd, rel, tick + i)))
  }

  /** Entity `i` changes only at the target field, which holds its own
      draw. */
  lemma EntityEnhanceAt(rel: Relation, rnd: Random, es: seq<Entity>, tick: nat, i: nat)
    requires i < |es|
    ensures var r := EntityEnhance(rel, rnd, es, tick);
            SameExcept(es[i], r[i], rel.field) && Get(r[i], rel.field) == Some(Draw(rnd, rel, tick + i))
  {
  }

  /** `chaptersPerModule[idx]`: undefined past the end. */
  function GroupAt(groups: seq<seq<Entity>>, idx: nat): Option<seq<Entity>> {
    if idx < |groups| then Some(groups[idx]) else None
  }

  /** The enhancer `makeChapterEnhancer({chaptersPerModule, path})`: entity
      `i` gets the ids of group `i` in group order, or `[]` when there is no
      group `i`; no length check is made. */
  function ChapterEnhance(groups: seq<seq<Entity>>, field: Field, es: seq<Entity>): (r: seq<Entity>)
    ensures |r| == |es|
  {
    seq(|es|, i requires 0 <= i < |es| => Set(es[i], field, ExtractIds(GroupAt(groups, i))))
  }

  /** Entity `i` changes only at the target field, which holds the ids of
      group `i` in group order, or `[]` when there is no group `i`. */
  lemma ChapterEnhanceAt(groups: seq<seq<Entity>>, field: Field, es: seq<Entity>, i: nat)
    requires i < |es|
    ensures var r := ChapterEnhance(groups, field, es);
            && SameExcept(es[i], r[i], field) && Get(r[i], field) == Some(ExtractIds(GroupAt(groups, i)))
            && (i < |groups| ==> Get(r[i], field) == Some(Ids(groups[i])))
            && (|groups| <= i ==> Get(r[i], field) == Some([]))
  {
    if i < |groups| {
      assert GroupAt(groups, i) == Some(groups[i]);
      if groups[i] == [] {
        assert Ids(groups[i]) == [];
      }
    }
  }

  /** Referential integrity of the random enhancer, under the hypothesis
      that `randomEntries` only returns members of its pool. */
  ghost predicate DrawsFromPool(rnd: Random) {
    forall pool, n, t, x :: x in rnd.entries(pool, n, t) ==> x in pool
  }

  lemma DrawInPool(rnd: Random, rel: Relation, tick: nat)
    requires DrawsFromPool(rnd)
    ensures forall x :: x in Draw(rnd, rel, tick) ==> x in rel.pool
  {
    var n := rnd.intBetween(rel.min, rel.max, tick);
    forall x | x in rnd.entries(rel.pool, n, tick) ensures x in rel.pool {
    }
  }

  lemma LinkedDrawInPool(e: Entity, rnd: Random, rel: Relation, tick: nat)
    requires DrawsFromPool(rnd)
    requires Get(e, rel.field) == Some(Draw(rnd, rel, tick))
    ensures forall x :: x in Get(e, rel.field).value ==> x in rel.pool
  {
    DrawInPool(rnd, rel, tick);
  }

  lemma EnhancedLinksInPool(rel: Relation, rnd: Random, es: seq<Entity>, tick: nat)
    requires DrawsFromPool(rnd)
    ensures LinksInto(EntityEnhance(rel, rnd, es, tick), rel.field, rel.pool)
  {
    var r := EntityEnhance(rel, rnd, es, tick);
    forall i | 0 <= i < |es|
      ensures Get(r[i], rel.field).Some? && forall x :: x in Get(r[i], rel.field).value ==> x in rel.pool
    {
      DrawInPool(rnd, rel, tick + i);
      EntityEnhanceAt(rel, rnd, es, tick, i);
    }
  }

  /** A non-empty list holds its head; it lets the solver see that a draw
      from an empty pool has no first element. */
  lemma HeadIsMember(d: seq<Id>)
    ensures d != [] ==> d[0] in d
  {
  }

  /** An empty pool degrades to empty attachments, without an error. */
  lemma EmptyPoolGivesEmptyLinks(rel: Relation, rnd: Random, es: seq<Entity>, tick: nat)
    requires DrawsFromPool(rnd)
    requires rel.pool == []
    ensures var r := EntityEnhance(rel, rnd, es, tick);
            forall i :: 0 <= i < |es| ==> Get(r[i], rel.field) == Some([])
  {
    var r := EntityEnhance(rel, rnd, es, tick);
    forall i | 0 <= i < |es| ensures Get(r[i], rel.field) == Some([]) {
      var d := Draw(rnd, rel, tick + i);
      EntityEnhanceAt(rel, rnd, es, tick, i);
      DrawInPool(rnd, rel, tick + i);
      HeadIsMember(d);
    }
  }

  function Min(a: int, b: int): int {
    if a <= b then a else b
  }

  /** The range hypotheses: `randomIntBetween` is inclusive of both bounds,
      and `randomEntries` returns as many entries as asked, or the whole
      pool when asked for more. */
  ghost predicate CountsInRange(rnd: Random) {
    forall lo, hi, t :: lo <= hi ==> lo <= rnd.intBetween(lo, hi, t) <= hi
  }

  ghost predicate EntriesSized(rnd: Random) {
    forall pool, n, t :: 0 <= n ==> |rnd.entries(pool, n, t)| == Min(n, |pool|)
  }

  /** The size an attachment of `rel` may have: at most `max` and at most the
      pool, and at least `min` unless the pool is smaller. */
  predicate SizeFits(len: nat, rel: Relation) {
    len <= rel.max && len <= |rel.pool| && len >= Min(rel.min, |rel.pool|)
  }

  lemma DrawSizeFits(rnd: Random, rel: Relation, tick: nat)
    requires CountsInRange(rnd) && EntriesSized(rnd)
    requires 0 <= rel.min <= rel.max
    ensures SizeFits(|Draw(rnd, rel, tick)|, rel)
  {
    var n := rnd.intBetween(rel.min, rel.max, tick);
    assert rel.min <= n <= rel.max;
    assert |rnd.entries(rel.pool, n, tick)| == Min(n, |rel.pool|);
  }

  /** One enhancer of a composed chain. */
  datatype Enhancer = RandomLinks(rel: Relation) | ChapterLinks(groups: seq<seq<Entity>>, field: Field)

  function Target(e: Enhancer): Field {
    match e
    case RandomLinks(rel) => rel.field
    case ChapterLinks(_, field) => field
  }

  /** What `e` attaches to entity `i` of a collection it sees at `tick`. */
  function Attached(e: Enhancer, rnd: Random, tick: nat, i: nat): seq<Id> {
    match e
    case RandomLinks(rel) => Draw(rnd, rel, tick + i)
    case ChapterLinks(groups, _) => ExtractIds(GroupAt(groups, i))
  }

  /** A collection together with the tick of the random source. */
  datatype Step = Step(entities: seq<Entity>, tick: nat)

  /** The ticks an enhancer spends on a collection of `n` entities. */
  function Cost(e: Enhancer, n: nat): nat {
    if e.RandomLinks? then n else 0
  }

  function Apply(e: Enhancer, rnd: Random, es: seq<Entity>, tick: nat): (r: Step)
    ensures |r.entities| == |es|
    ensures r.tick == tick + Cost(e, |es|)
  {
    match e
    case RandomLinks(rel) => Step(EntityEnhance(rel, rnd, es, tick), tick + |es|)
    case ChapterLinks(groups, field) => Step(ChapterEnhance(groups, field, es), tick)
  }

  /** Either enhancer writes only its target, and writes there what it
      draws or looks up for entity `i`. */
  lemma ApplyAt(e: Enhancer, rnd: Random, es: seq<Entity>, tick: nat, i: nat)
    requires i < |es|
    ensures var r := Apply(e, rnd, es, tick).entities;
            SameExcept(es[i], r[i], Target(e)) && Get(r[i], Target(e)) == Some(Attached(e, rnd, tick, i))
  {
    match e
    case RandomLinks(rel) => EntityEnhanceAt(rel, rnd, es, tick, i);
    case ChapterLinks(groups, field) => ChapterEnhanceAt(groups, field, es, i);
  }

  /** The ticks a whole chain spends on a collection of `n` entities. */
  function Spent(chain: seq<Enhancer>, n: nat): nat {
    if chain == [] then 0 else Cost(chain[0], n) + Spent(chain[1..], n)
  }

  /** lodash `compose(chain[0], ..., chain[k-1])`: the last enhancer runs
      first. */
  function Compose(chain: seq<Enhancer>, rnd: Random, es: seq<Entity>, tick: nat): (r: Step)
    ensures |r.entities| == |es|
    ensures r.tick == tick + Spent(chain, |es|)
    decreases |chain|
  {
    if chain == [] then Step(es, tick)
    else
      var inner := Compose(chain[1..], rnd, es, tick);
      Apply(chain[0], rnd, inner.entities, inner.tick)
  }

  function Targets(chain: seq<Enhancer>): set<Field> {
    set k | 0 <= k < |chain| :: Target(chain[k])
  }

  ghost predicate DistinctTargets(chain: seq<Enhancer>) {
    forall a, b :: 0 <= a < b < |chain| ==> Target(chain[a]) != Target(chain[b])
  }

  /** One step of `Compose`: the outermost enhancer applied to what the
      rest of the chain leaves. */
  lemma ComposeUnfold(chain: seq<Enhancer>, rnd: Random, es: seq<Entity>, tick: nat)
    requires 0 < |chain|
    ensures var inner := Compose(chain[1..], rnd, es, tick);
            Compose(chain, rnd, es, tick) == Apply(chain[0], rnd, inner.entities, inner.tick)
  {
  }

  /** What a chain makes of entity `i` of a collection of `n`: each
      enhancer, innermost first, sets its target to what it attaches at the
      tick the enhancers inside it left. */
  function ComposeAt(chain: seq<Enhancer>, rnd: Random, e: Entity, n: nat, tick: nat, i: nat): Entity
    decreases |chain|
  {
    if chain == [] then e
    else Set(ComposeAt(chain[1..], rnd, e, n, tick, i), Target(chain[0]), Attached(chain[0], rnd, tick + Spent(chain[1..], n), i))
  }

  /** A composed chain works entity by entity: entity `i` of the result is
      what the chain makes of entity `i` alone. */
  lemma {:induction false} ComposePointwise(chain: seq<Enhancer>, rnd: Random, es: seq<Entity>, tick: nat, i: nat)
    requires i < |es|
    ensures Compose(chain, rnd, es, tick).entities[i] == ComposeAt(chain, rnd, es[i], |es|, tick, i)
    decreases |chain|
  {
    if chain != [] {
      var inner := Compose(chain[1..], rnd, es, tick);
      ComposeUnfold(chain, rnd, es, tick);
      ComposePointwise(chain[1..], rnd, es, tick, i);
      ApplyAt(chain[0], rnd, inner.entities, inner.tick, i);
      SetIsTheOnlyUpdate(inner.entities[i], Compose(chain, rnd, es, tick).entities[i],
                         Target(chain[0]), Attached(chain[0], rnd, inner.tick, i));
    }
  }

  /** The tail of a chain with disjoint targets has disjoint targets, none
      of them the head's. */
  lemma DistinctTail(chain: seq<Enhancer>, j: nat)
    requires DistinctTargets(chain)
    requires 0 < j < |chain|
    ensures DistinctTargets(chain[1..])
    ensures Target(chain[0]) != Target(chain[j])
    ensures chain[1..][j - 1] == chain[j] && chain[1..][j..] == chain[j + 1..]
  {
    forall a, b | 0 <= a < b < |chain[1..]| ensures Target(chain[1..][a]) != Target(chain[1..][b]) {
      assert chain[1..][a] == chain[a + 1] && chain[1..][b] == chain[b + 1];
    }
  }

  /** What a chain leaves at field `f` of entity `i`: the attachment of the
      outermost enhancer that writes `f`, or what the entity held before
      when none does. */
  function FieldAfter(chain: seq<Enhancer>, rnd: Random, e: Entity, n: nat, tick: nat, i: nat, f: Field): Option<seq<Id>>
    decreases |chain|
  {
    if chain == [] then Get(e, f)
    else if Target(chain[0]) == f then Some(Attached(chain[0], rnd, tick + Spent(chain[1..], n), i))
    else FieldAfter(chain[1..], rnd, e, n, tick, i, f)
  }

  /** `FieldAfter` reads the fields of `ComposeAt`. */
  lemma {:induction false} FieldAfterIsGet(chain: seq<Enhancer>, rnd: Random, e: Entity, n: nat, tick: nat, i: nat, f: Field)
    ensures Get(ComposeAt(chain, rnd, e, n, tick, i), f) == FieldAfter(chain, rnd, e, n, tick, i, f)
    decreases |chain|
  {
    if chain != [] {
      FieldAfterIsGet(chain[1..], rnd, e, n, tick, i, f);
    }
  }

  /** With disjoint targets, the field `chain[j]` writes is written by no
      enhancer outside it, so it ends holding what `chain[j]` attached. */
  lemma {:induction false} FieldAfterKeepsEveryTarget(chain: seq<Enhancer>, rnd: Random, e: Entity, n: nat, tick: nat, i: nat, j: nat)
    requires DistinctTargets(chain)
    requires j < |chain|
    ensures FieldAfter(chain, rnd, e, n, tick, i, Target(chain[j]))
            == Some(Attached(chain[j], rnd, tick + Spent(chain[j + 1..], n), i))
    decreases |chain|
  {
    if j > 0 {
      DistinctTail(chain, j);
      FieldAfterKeepsEveryTarget(chain[1..], rnd, e, n, tick, i, j - 1);
    }
  }

  /** With disjoint targets, every enhancer's write survives the ones run
      after it: the entity ends with the attachment that `chain[j]` made
      when the source stood at the tick left by the enhancers after `j`. */
  lemma {:induction false} ComposeKeepsEveryTarget(chain: seq<Enhancer>, rnd: Random, e: Entity, n: nat, tick: nat, i: nat, j: nat)
    requires DistinctTargets(chain)
    requires j < |chain|
    ensures Get(ComposeAt(chain, rnd, e, n, tick, i), Target(chain[j]))
            == Some(Attached(chain[j], rnd, tick + Spent(chain[j + 1..], n), i))
  {
    FieldAfterKeepsEveryTarget(chain, rnd, e, n, tick, i, j);
    FieldAfterIsGet(chain, rnd, e, n, tick, i, Target(chain[j]));
  }

  /** The collection a chain leaves, built entity by entity. */
  function Composed(chain: seq<Enhancer>, rnd: Random, es: seq<Entity>, tick: nat): (r: seq<Entity>)
    ensures |r| == |es|
  {
    seq(|es|, i requires 0 <= i < |es| => ComposeAt(chain, rnd, es[i], |es|, tick, i))
  }

  /** Running the enhancers one after another on the whole collection is
      the same as running the chain on each entity alone. */
  lemma ComposeIsComposed(chain: seq<Enhancer>, rnd: Random, es: seq<Entity>, tick: nat)
    ensures Compose(chain, rnd, es, tick).entities == Composed(chain, rnd, es, tick)
  {
    forall i | 0 <= i < |es|
      ensures Compose(chain, rnd, es, tick).entities[i] == Composed(chain, rnd, es, tick)[i]
    {
      ComposePointwise(chain, rnd, es, tick, i);
    }
  }

  /** With disjoint targets, every enhancer's write survives in every
      entity of the composed collection. */
  lemma ComposeWrites(chain: seq<Enhancer>, rnd: Random, es: seq<Entity>, tick: nat, j: nat)
    requires DistinctTargets(chain)
    requires j < |chain|
    ensures var r := Composed(chain, rnd, es, tick);
            forall i :: 0 <= i < |es| ==>
              Get(r[i], Target(chain[j])) == Some(Attached(chain[j], rnd, tick + Spent(chain[j + 1..], |es|), i))
  {
    var r := Composed(chain, rnd, es, tick);
    forall i | 0 <= i < |es|
      ensures Get(r[i], Target(chain[j])) == Some(Attached(chain[j], rnd, tick + Spent(chain[j + 1..], |es|), i))
    {
      ComposeKeepsEveryTarget(chain, rnd, es[i], |es|, tick, i, j);
    }
  }

  /** A chain changes nothing but its targets: the id, the top-level keys,
      the other `content` keys and every other field are as before. */
  lemma {:induction false} ComposeChangesOnlyTargets(chain: seq<Enhancer>, rnd: Random, e: Entity, n: nat, tick: nat, i: nat, g: Field)
    ensures var r := ComposeAt(chain, rnd, e, n, tick, i);
            r.id == e.id && r.attrs == e.attrs && Rest(r) == Rest(e)
            && (g !in Targets(chain) ==> Get(r, g) == Get(e, g))
    decreases |chain|
  {
    if chain != [] {
      assert Targets(chain[1..]) <= Targets(chain) by {
        forall k | 0 <= k < |chain[1..]| ensures Target(chain[1..][k]) in Targets(chain) {
          assert chain[1..][k] == chain[k + 1];
        }
      }
      assert Target(chain[0]) in Targets(chain);
      ComposeChangesOnlyTargets(chain[1..], rnd, e, n, tick, i, g);
    }
  }

  /** `before` and `after` hold the same records, changed at most in the
      fields of `targets`. */
  ghost predicate ChangedOnly(before: seq<Entity>, after: seq<Entity>, targets: set<Field>) {
    && |after| == |before|
    && (forall i :: 0 <= i < |before| ==>
          after[i].id == before[i].id && after[i].attrs == before[i].attrs && Rest(after[i]) == Rest(before[i]))
    && (forall i, g :: 0 <= i < |before| && g !in targets ==> Get(after[i], g) == Get(before[i], g))
  }

  lemma ComposeChangesOnly(chain: seq<Enhancer>, rnd: Random, es: seq<Entity>, tick: nat)
    ensures ChangedOnly(es, Composed(chain, rnd, es, tick), Targets(chain))
  {
    var r := Composed(chain, rnd, es, tick);
    // The id, the keys and the other content keys do not depend on the
    // field the per-record lemma is asked about; any field will do.
    forall i | 0 <= i < |es|
      ensures r[i].id == es[i].id && r[i].attrs == es[i].attrs && Rest(r[i]) == Rest(es[i])
    {
      ComposeChangesOnlyTargets(chain, rnd, es[i], |es|, tick, i, Medias);
    }
    forall i, g | 0 <= i < |es| && g !in Targets(chain)
      ensures Get(r[i], g) == Get(es[i], g)
    {
      ComposeChangesOnlyTargets(chain, rnd, es[i], |es|, tick, i, g);
    }
  }

  lemma ExtractIdsOfPresent(list: seq<Entity>)
    ensures ExtractIds(Some(list)) == Ids(list)
  {
  }

  /** Records that keep their ids keep the id pool. */
  lemma ChangedOnlyKeepsIds(before: seq<Entity>, after: seq<Entity>, targets: set<Field>)
    requires ChangedOnly(before, after, targets)
    ensures Ids(after) == Ids(before)
  {
  }

  /** Every entity of `es` has the field `f`, and every id there is in `pool`. */
  ghost predicate LinksInto(es: seq<Entity>, f: Field, pool: seq<Id>) {
    forall i :: 0 <= i < |es| ==> Get(es[i], f).Some? && forall x :: x in Get(es[i], f).value ==> x in pool
  }

  /** Every entity of `es` has the field of `rel`, of a size that fits `rel`. */
  ghost predicate SizesFit(es: seq<Entity>, rel: Relation) {
    forall i :: 0 <= i < |es| ==> Get(es[i], rel.field).Some? && SizeFits(|Get(es[i], rel.field).value|, rel)
  }

  /** Referential integrity of a composed chain: a random enhancer's links,
      still there at the end, all come from its pool. */
  lemma ComposeLinksInPool(chain: seq<Enhancer>, rnd: Random, es: seq<Entity>, tick: nat, j: nat)
    requires DrawsFromPool(rnd)
    requires DistinctTargets(chain)
    requires j < |chain| && chain[j].RandomLinks?
    ensures LinksInto(Composed(chain, rnd, es, tick), Target(chain[j]), chain[j].rel.pool)
  {
    var r := Composed(chain, rnd, es, tick);
    var rel := chain[j].rel;
    forall i | 0 <= i < |es|
      ensures Get(r[i], rel.field).Some? && forall x :: x in Get(r[i], rel.field).value ==> x in rel.pool
    {
      ComposeAtLinksInPool(chain, rnd, es[i], |es|, tick, i, j);
    }
  }

  /** The same for one entity of a collection of `n`. */
  lemma ComposeAtLinksInPool(chain: seq<Enhancer>, rnd: Random, e: Entity, n: nat, tick: nat, i: nat, j: nat)
    requires DrawsFromPool(rnd)
    requires DistinctTargets(chain)
    requires j < |chain| && chain[j].RandomLinks?
    ensures var links := Get(ComposeAt(chain, rnd, e, n, tick, i), chain[j].rel.field);
            links.Some? && forall x :: x in links.value ==> x in chain[j].rel.pool
  {
    var rel := chain[j].rel;
    var t := tick + Spent(chain[j + 1..], n);
    ComposeKeepsEveryTarget(chain, rnd, e, n, tick, i, j);
    assert Attached(chain[j], rnd, t, i) == Draw(rnd, rel, t + i);
    DrawInPool(rnd, rel, t + i);
  }

  /** Range bounds of a composed chain, under the range hypotheses. */
  lemma ComposeSizesFit(chain: seq<Enhancer>, rnd: Random, es: seq<Entity>, tick: nat, j: nat)
    requires CountsInRange(rnd) && EntriesSized(rnd)
    requires DistinctTargets(chain)
    requires j < |chain| && chain[j].RandomLinks? && 0 <= chain[j].rel.min <= chain[j].rel.max
    ensures SizesFit(Composed(chain, rnd, es, tick), chain[j].rel)
  {
    var r := Composed(chain, rnd, es, tick);
    var rel := chain[j].rel;
    forall i | 0 <= i < |es|
      ensures Get(r[i], rel.field).Some? && SizeFits(|Get(r[i], rel.field).value|, rel)
    {
      ComposeAtSizeFits(chain, rnd, es[i], |es|, tick, i, j);
    }
  }

  /** The same for one entity of a collection of `n`. */
  lemma ComposeAtSizeFits(chain: seq<Enhancer>, rnd: Random, e: Entity, n: nat, tick: nat, i: nat, j: nat)
    requires CountsInRange(rnd) && EntriesSized(rnd)
    requires DistinctTargets(chain)
    requires j < |chain| && chain[j].RandomLinks? && 0 <= chain[j].rel.min <= chain[j].rel.max
    ensures var links := Get(ComposeAt(chain, rnd, e, n, tick, i), chain[j].rel.field);
            links.Some? && SizeFits(|links.value|, chain[j].rel)
  {
    var rel := chain[j].rel;
    var t := tick + Spent(chain[j + 1..], n);
    ComposeKeepsEveryTarget(chain, rnd, e, n, tick, i, j);
    assert Attached(chain[j], rnd, t, i) == Draw(rnd, rel, t + i);
    DrawSizeFits(rnd, rel, t + i);
  }

  /** The chapter enhancer spends no ticks, so where it stands in a chain
      next to a random enhancer with another target does not change the
      result. */
  lemma ChapterLinksCommute(rel: Relation, groups: seq<seq<Entity>>, field: Field, rnd: Random, es: seq<Entity>, tick: nat)
    requires rel.field != field
    ensures Compose([RandomLinks(rel), ChapterLinks(groups, field)], rnd, es, tick)
            == Compose([ChapterLinks(groups, field), RandomLinks(rel)], rnd, es, tick)
  {
    var x, y := RandomLinks(rel), ChapterLinks(groups, field);
    assert [x, y][1..] == [y] && [y, x][1..] == [x];
    assert [y][1..] == [] && [x][1..] == [];
    ComposeIsComposed([x, y], rnd, es, tick);
    ComposeIsComposed([y, x], rnd, es, tick);
    forall i | 0 <= i < |es|
      ensures Composed([x, y], rnd, es, tick)[i] == Composed([y, x], rnd, es, tick)[i]
    {
      ChapterLinksCommuteAt(rel, groups, field, rnd, es[i], |es|, tick, i);
    }
  }

  /** The same for one entity of a collection of `n`. */
  lemma ChapterLinksCommuteAt(rel: Relation, groups: seq<seq<Entity>>, field: Field, rnd: Random, e: Entity, n: nat, tick: nat, i: nat)
    requires rel.field != field
    ensures ComposeAt([RandomLinks(rel), ChapterLinks(groups, field)], rnd, e, n, tick, i)
            == ComposeAt([ChapterLinks(groups, field), RandomLinks(rel)], rnd, e, n, tick, i)
  {
    var x, y := RandomLinks(rel), ChapterLinks(groups, field);
    var c, d := ExtractIds(GroupAt(groups, i)), Draw(rnd, rel, tick + i);
    assert [x, y][1..] == [y] && [y, x][1..] == [x];
    assert [y][1..] == [] && [x][1..] == [];
    assert ComposeAt([y], rnd, e, n, tick, i) == Set(e, field, c);
    assert ComposeAt([x], rnd, e, n, tick, i) == Set(e, rel.field, d);
    SetCommutes(e, field, c, rel.field, d);
  }
}
