/** The records as the objects they are at run time. lodash `set` writes
    into the object it is given and returns that same object, so an
    enhancer changes its collection's objects in place and a composed chain
    changes them step by step. Each method here is proved to leave the
    objects holding what the value-level model of the same step computes. */
module Records {
  import opened Entities
  import opened Enhancers

  class Record {
    const id: Id
    const attrs: map<string, Value>
    var content: Option<Content>

    /** The record's current value. */
    function Snapshot(): Entity
      reads this
    {
      Entity(id, attrs, content)
    }

    constructor (e: Entity)
      ensures Snapshot() == e
    {
      id, attrs, content := e.id, e.attrs, e.content;
    }

    /** `set(this, "content.<f>", v)`. */
    method SetLink(f: Field, v: seq<Id>)
      modifies this
      ensures Snapshot() == Set(old(Snapshot()), f, v)
    {
      content := Some(Content(Links(Snapshot())[f := v], Rest(Snapshot())));
    }
  }

  /** The current values of a collection of records. */
  function Snapshots(rs: seq<Record>): (es: seq<Entity>)
    reads rs
    ensures |es| == |rs|
    ensures forall i :: 0 <= i < |rs| ==> es[i] == rs[i].Snapshot()
  {
    seq(|rs|, i requires 0 <= i < |rs| reads rs => rs[i].Snapshot())
  }

  /** No object occurs twice in the collection. */
  ghost predicate Distinct(rs: seq<Record>) {
    forall i, j :: 0 <= i < j < |rs| ==> rs[i] != rs[j]
  }

  /** The enhancer of `makeEntityEnhancer(rel)`, run on the objects of `rs`:
      it returns the same objects and leaves each one as the value model
      says; `next` is the tick of the random source afterwards. */
  method EnhanceInPlace(rel: Relation, rnd: Random, rs: seq<Record>, tick: nat) returns (out: seq<Record>, next: nat)
    requires Distinct(rs)
    modifies rs
    ensures out == rs
    ensures Snapshots(rs) == EntityEnhance(rel, rnd, old(Snapshots(rs)), tick)
    ensures next == tick + |rs|
  {
    ghost var before := Snapshots(rs);
    ghost var want := EntityEnhance(rel, rnd, before, tick);
    var i := 0;
    while i < |rs|
      invariant 0 <= i <= |rs|
      invariant forall j :: 0 <= j < i ==> rs[j].Snapshot() == want[j]
      invariant forall j :: i <= j < |rs| ==> rs[j].Snapshot() == before[j]
    {
      var count := rnd.intBetween(rel.min, rel.max, tick + i);
      var entries := rnd.entries(rel.pool, count, tick + i);
      rs[i].SetLink(rel.field, entries);
      i := i + 1;
    }
    out, next := rs, tick + |rs|;
  }

  /** The enhancer of `makeChapterEnhancer({chaptersPerModule, path})`, run
      on the objects of `rs`. */
  method ChapterEnhanceInPlace(groups: seq<seq<Entity>>, field: Field, rs: seq<Record>) returns (out: seq<Record>)
    requires Distinct(rs)
    modifies rs
    ensures out == rs
    ensures Snapshots(rs) == ChapterEnhance(groups, field, old(Snapshots(rs)))
  {
    ghost var before := Snapshots(rs);
    var idx := 0;
    while idx < |rs|
      invariant 0 <= idx <= |rs|
      invariant forall j :: 0 <= j < idx ==> rs[j].Snapshot() == Set(before[j], field, ExtractIds(GroupAt(groups, j)))
      invariant forall j :: idx <= j < |rs| ==> rs[j].Snapshot() == before[j]
    {
      var entries := ExtractIds(GroupAt(groups, idx));
      rs[idx].SetLink(field, entries);
      idx := idx + 1;
    }
    out := rs;
  }

  /** `compose(chain[0], ..., chain[k-1])` run on the objects of `rs`: the
      enhancers run last to first on the same objects, and the objects end
      holding what `Compose` computes. */
  method ComposeInPlace(chain: seq<Enhancer>, rnd: Random, rs: seq<Record>, tick: nat) returns (out: seq<Record>, next: nat)
    requires Distinct(rs)
    modifies rs
    ensures out == rs
    ensures Step(Snapshots(rs), next) == Compose(chain, rnd, old(Snapshots(rs)), tick)
  {
    ghost var before := Snapshots(rs);
    var k := |chain|;
    next := tick;
    assert chain[k..] == [];
    while k > 0
      invariant 0 <= k <= |chain|
      invariant Compose(chain[k..], rnd, before, tick) == Step(Snapshots(rs), next)
    {
      k := k - 1;
      assert chain[k..][1..] == chain[k + 1..];
      var same;
      match chain[k]
      case RandomLinks(rel) =>
        same, next := EnhanceInPlace(rel, rnd, rs, next);
      case ChapterLinks(groups, field) =>
        same := ChapterEnhanceInPlace(groups, field, rs);
    }
    out := rs;
  }
}
