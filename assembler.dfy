/** The exported function of the mock index: it links the leaf collections
    into the final dataset. The leaf generators' outputs are its inputs. */
module Assembler {
  import opened Entities
  import opened Chapters
  import opened Enhancers

  /** A leaf generator's wrapper object `{ <name>: [...], ...meta }`: the
      collection, if the key is there, and the other top-level keys. */
  datatype Base = Base(list: Option<seq<Entity>>, meta: map<string, Value>)

  /** What the leaf generators returned. `tags` is a bare list. */
  datatype Leaves = Leaves(
    authors: Base, medias: Base, modules: Base, pages: Base,
    tags: Option<seq<Entity>>, chapterTypes: seq<string>)

  datatype Dataset = Dataset(
    authors: Base, chapters: seq<Entity>, medias: Base, modules: Base,
    pages: Base, tags: Option<seq<Entity>>)

  /** The TypeError raised when an enhancer chain is handed an absent
      collection and calls `map` on `undefined`. */
  datatype Error = MapOnUndefined(collection: string)

  datatype Result = Ok(value: Dataset) | Err(error: Error)

  /** `countModules`: `modulesBase.modules.length`, 0 when absent. */
  function CountModules(modulesBase: Base): (n: nat)
    ensures modulesBase.list.Some? ==> n == |modulesBase.list.value|
    ensures modulesBase.list.None? ==> n == 0
  {
    if modulesBase.list.Some? then |modulesBase.list.value| else 0
  }

  /** lodash `flatten`, one level: the groups' records in group order. */
  function Flatten(groups: seq<seq<Entity>>): (r: seq<Entity>)
    ensures forall k, x :: 0 <= k < |groups| && x in groups[k] ==> x in r
    ensures forall x :: x in r ==> exists k :: 0 <= k < |groups| && x in groups[k]
  {
    if groups == [] then []
    else
      var tail := Flatten(groups[1..]);
      assert forall k :: 1 <= k < |groups| ==> groups[k] == groups[1..][k - 1];
      groups[0] + tail
  }

  /** With pairs as groups, the flat list has two records per group, group
      `i`'s at positions `2i` and `2i + 1`. */
  lemma {:induction false} FlattenPairs(groups: seq<seq<Entity>>)
    requires forall i :: 0 <= i < |groups| ==> |groups[i]| == 2
    ensures |Flatten(groups)| == 2 * |groups|
    ensures forall i :: 0 <= i < |groups| ==>
              Flatten(groups)[2 * i] == groups[i][0] && Flatten(groups)[2 * i + 1] == groups[i][1]
  {
    if groups != [] {
      var tail := groups[1..];
      FlattenPairs(tail);
      assert Flatten(groups) == groups[0] + Flatten(tail);
      forall i | 1 <= i < |groups|
        ensures Flatten(groups)[2 * i] == groups[i][0] && Flatten(groups)[2 * i + 1] == groups[i][1]
      {
        assert tail[i - 1] == groups[i];
        assert Flatten(groups)[2 * i] == Flatten(tail)[2 * (i - 1)];
        assert Flatten(groups)[2 * i + 1] == Flatten(tail)[2 * (i - 1) + 1];
      }
    }
  }

  /** The id pools of the linked collections. */
  datatype Pools = Pools(authors: seq<Id>, medias: seq<Id>, modules: seq<Id>, tags: seq<Id>)

  function PoolsOf(leaves: Leaves): Pools {
    Pools(ExtractIds(leaves.authors.list), ExtractIds(leaves.medias.list),
          ExtractIds(leaves.modules.list), ExtractIds(leaves.tags))
  }

  /** The four random enhancers, with the bounds of the source. */
  function AddMedias(p: Pools): Relation { Relation(0, 10, p.medias, Medias) }
  function AddAuthors(p: Pools): Relation { Relation(0, 3, p.authors, Authors) }
  function AddModules(p: Pools): Relation { Relation(1, 3, p.modules, Modules) }
  function AddTags(p: Pools): Relation { Relation(0, 10, p.tags, Tags) }

  /** The chains, outermost first as `compose` lists them. */
  function AuthorsChain(p: Pools): seq<Enhancer> {
    [RandomLinks(AddMedias(p)), RandomLinks(AddModules(p))]
  }
  function MediasChain(p: Pools): seq<Enhancer> {
    [RandomLinks(AddAuthors(p)), RandomLinks(AddModules(p)), RandomLinks(AddTags(p))]
  }
  function ModulesChain(p: Pools, groups: seq<seq<Entity>>): seq<Enhancer> {
    [RandomLinks(AddAuthors(p)), ChapterLinks(groups, Field.Chapters)]
  }

  /** The chapter groups, one per module. */
  function ChapterGroups(leaves: Leaves, uuid: nat -> Id): seq<seq<Entity>> {
    GenerateChapters(CountModules(leaves.modules), leaves.chapterTypes, uuid)
  }

  /** The chains' runs, in the order the object literal evaluates them; each
      starts at the tick the previous one left. */
  function AuthorsStep(leaves: Leaves, rnd: Random): Step
    requires leaves.authors.list.Some?
  {
    Compose(AuthorsChain(PoolsOf(leaves)), rnd, leaves.authors.list.value, 0)
  }

  function ChaptersStep(leaves: Leaves, rnd: Random, uuid: nat -> Id): Step
    requires leaves.authors.list.Some?
  {
    Apply(RandomLinks(AddMedias(PoolsOf(leaves))), rnd, Flatten(ChapterGroups(leaves, uuid)), AuthorsStep(leaves, rnd).tick)
  }

  function MediasStep(leaves: Leaves, rnd: Random, uuid: nat -> Id): Step
    requires leaves.authors.list.Some? && leaves.medias.list.Some?
  {
    Compose(MediasChain(PoolsOf(leaves)), rnd, leaves.medias.list.value, ChaptersStep(leaves, rnd, uuid).tick)
  }

  function ModulesStep(leaves: Leaves, rnd: Random, uuid: nat -> Id): Step
    requires leaves.authors.list.Some? && leaves.medias.list.Some? && leaves.modules.list.Some?
  {
    Compose(ModulesChain(PoolsOf(leaves), ChapterGroups(leaves, uuid)), rnd, leaves.modules.list.value,
            MediasStep(leaves, rnd, uuid).tick)
  }

  /** The exported function. The random source starts at tick 0 and is
      consumed in the order the object literal is evaluated: authors,
      chapters, medias, modules. A missing collection makes its chain throw. */
  function Assemble(leaves: Leaves, rnd: Random, uuid: nat -> Id): (r: Result)
    ensures r.Ok? <==> leaves.authors.list.Some? && leaves.medias.list.Some? && leaves.modules.list.Some?
    ensures r.Ok? ==> r.value.pages == leaves.pages && r.value.tags == leaves.tags
    ensures r.Ok? ==> (r.value.authors.meta == leaves.authors.meta && r.value.medias.meta == leaves.medias.meta
                       && r.value.modules.meta == leaves.modules.meta)
    ensures r.Ok? ==> r.value.authors.list.Some? && |r.value.authors.list.value| == |leaves.authors.list.value|
    ensures r.Ok? ==> r.value.medias.list.Some? && |r.value.medias.list.value| == |leaves.medias.list.value|
    ensures r.Ok? ==> r.value.modules.list.Some? && |r.value.modules.list.value| == |leaves.modules.list.value|
  {
    if leaves.authors.list.None? then Err(MapOnUndefined("authors"))
    else if leaves.medias.list.None? then Err(MapOnUndefined("medias"))
    else if leaves.modules.list.None? then Err(MapOnUndefined("modules"))
    else
      Ok(Dataset(
        Base(Some(AuthorsStep(leaves, rnd).entities), leaves.authors.meta),
        ChaptersStep(leaves, rnd, uuid).entities,
        Base(Some(MediasStep(leaves, rnd, uuid).entities), leaves.medias.meta),
        Base(Some(ModulesStep(leaves, rnd, uuid).entities), leaves.modules.meta),
        leaves.pages,
        leaves.tags))
  }

  /** `countModules` sizes the chapter groups: one group per module. */
  lemma ChapterGroupsMatchModules(leaves: Leaves, uuid: nat -> Id)
    ensures leaves.modules.list.Some? ==> |ChapterGroups(leaves, uuid)| == |leaves.modules.list.value|
    ensures leaves.modules.list.None? ==> ChapterGroups(leaves, uuid) == []
  {
  }

  ghost predicate HasField(es: seq<Entity>, f: Field) {
    forall i :: 0 <= i < |es| ==> Get(es[i], f).Some?
  }

  lemma AuthorsTargets(p: Pools)
    ensures DistinctTargets(AuthorsChain(p)) && Targets(AuthorsChain(p)) == {Medias, Modules}
  {
    var ac := AuthorsChain(p);
    assert Target(ac[0]) == Medias && Target(ac[1]) == Modules;
  }

  lemma MediasTargets(p: Pools)
    ensures DistinctTargets(MediasChain(p)) && Targets(MediasChain(p)) == {Authors, Modules, Tags}
  {
    var mc := MediasChain(p);
    assert Target(mc[0]) == Authors && Target(mc[1]) == Modules && Target(mc[2]) == Tags;
  }

  lemma ModulesTargets(p: Pools, groups: seq<seq<Entity>>)
    ensures DistinctTargets(ModulesChain(p, groups)) && Targets(ModulesChain(p, groups)) == {Authors, Field.Chapters}
  {
    var oc := ModulesChain(p, groups);
    assert Target(oc[0]) == Authors && Target(oc[1]) == Field.Chapters;
  }

  /** Authors gain `content.medias` and `content.modules`, and nothing else. */
  lemma AuthorsShape(leaves: Leaves, rnd: Random)
    requires leaves.authors.list.Some?
    ensures var r := AuthorsStep(leaves, rnd).entities;
            ChangedOnly(leaves.authors.list.value, r, {Medias, Modules}) && HasField(r, Medias) && HasField(r, Modules)
  {
    var ac := AuthorsChain(PoolsOf(leaves));
    var a := leaves.authors.list.value;
    AuthorsTargets(PoolsOf(leaves));
    ComposeIsComposed(ac, rnd, a, 0);
    ComposeChangesOnly(ac, rnd, a, 0);
    ComposeWrites(ac, rnd, a, 0, 0);
    ComposeWrites(ac, rnd, a, 0, 1);
  }

  /** Chapters gain `content.medias`, and nothing else. */
  lemma ChaptersShape(leaves: Leaves, rnd: Random, uuid: nat -> Id)
    requires leaves.authors.list.Some?
    ensures var r := ChaptersStep(leaves, rnd, uuid).entities;
            ChangedOnly(Flatten(ChapterGroups(leaves, uuid)), r, {Medias}) && HasField(r, Medias)
  {
    var c0 := Flatten(ChapterGroups(leaves, uuid));
    var c := ChaptersStep(leaves, rnd, uuid).entities;
    var e, t := RandomLinks(AddMedias(PoolsOf(leaves))), AuthorsStep(leaves, rnd).tick;
    forall i | 0 <= i < |c0|
      ensures SameExcept(c0[i], c[i], Medias) && Get(c[i], Medias).Some?
    {
      ApplyAt(e, rnd, c0, t, i);
    }
  }

  /** Medias gain `content.authors`, `content.modules` and `content.tags`,
      and nothing else. */
  lemma MediasShape(leaves: Leaves, rnd: Random, uuid: nat -> Id)
    requires leaves.authors.list.Some? && leaves.medias.list.Some?
    ensures var r := MediasStep(leaves, rnd, uuid).entities;
            && ChangedOnly(leaves.medias.list.value, r, {Authors, Modules, Tags})
            && HasField(r, Authors) && HasField(r, Modules) && HasField(r, Tags)
  {
    var mc := MediasChain(PoolsOf(leaves));
    var m := leaves.medias.list.value;
    var t := ChaptersStep(leaves, rnd, uuid).tick;
    MediasTargets(PoolsOf(leaves));
    ComposeIsComposed(mc, rnd, m, t);
    ComposeChangesOnly(mc, rnd, m, t);
    ComposeWrites(mc, rnd, m, t, 0);
    ComposeWrites(mc, rnd, m, t, 1);
    ComposeWrites(mc, rnd, m, t, 2);
  }

  /** Modules gain `content.authors` and `content.chapters`, and nothing else. */
  lemma ModulesShape(leaves: Leaves, rnd: Random, uuid: nat -> Id)
    requires leaves.authors.list.Some? && leaves.medias.list.Some? && leaves.modules.list.Some?
    ensures var r := ModulesStep(leaves, rnd, uuid).entities;
            ChangedOnly(leaves.modules.list.value, r, {Authors, Field.Chapters}) && HasField(r, Authors) && HasField(r, Field.Chapters)
  {
    var oc := ModulesChain(PoolsOf(leaves), ChapterGroups(leaves, uuid));
    var o := leaves.modules.list.value;
    var t := MediasStep(leaves, rnd, uuid).tick;
    ModulesTargets(PoolsOf(leaves), ChapterGroups(leaves, uuid));
    ComposeIsComposed(oc, rnd, o, t);
    ComposeChangesOnly(oc, rnd, o, t);
    ComposeWrites(oc, rnd, o, t, 0);
    ComposeWrites(oc, rnd, o, t, 1);
  }

  /** The fixed shape of the dataset: every collection keeps its records,
      each record changes only in the fields its chain writes, and all of
      those fields are present. */
  lemma AssembledShape(leaves: Leaves, rnd: Random, uuid: nat -> Id)
    requires Assemble(leaves, rnd, uuid).Ok?
    ensures var d := Assemble(leaves, rnd, uuid).value;
            && ChangedOnly(leaves.authors.list.value, d.authors.list.value, {Medias, Modules})
            && HasField(d.authors.list.value, Medias) && HasField(d.authors.list.value, Modules)
            && ChangedOnly(Flatten(ChapterGroups(leaves, uuid)), d.chapters, {Medias})
            && HasField(d.chapters, Medias)
            && ChangedOnly(leaves.medias.list.value, d.medias.list.value, {Authors, Modules, Tags})
            && HasField(d.medias.list.value, Authors) && HasField(d.medias.list.value, Modules)
            && HasField(d.medias.list.value, Tags)
            && ChangedOnly(leaves.modules.list.value, d.modules.list.value, {Authors, Field.Chapters})
            && HasField(d.modules.list.value, Authors) && HasField(d.modules.list.value, Field.Chapters)
  {
    AuthorsShape(leaves, rnd);
    ChaptersShape(leaves, rnd, uuid);
    MediasShape(leaves, rnd, uuid);
    ModulesShape(leaves, rnd, uuid);
  }

  /** The flat chapter list: two records per module, the one at position
      `k` holding the `k`-th uuid and the chapter type `k % 2`. */
  lemma FlatChapters(moduleCount: nat, chapterTypes: seq<string>, uuid: nat -> Id)
    ensures var flat := Flatten(GenerateChapters(moduleCount, chapterTypes, uuid));
            && |flat| == 2 * moduleCount
            && forall k :: 0 <= k < |flat| ==> IsChapter(flat[k], uuid(k), TypeAt(chapterTypes, k % 2))
  {
    var groups := GenerateChapters(moduleCount, chapterTypes, uuid);
    var flat := Flatten(groups);
    FlattenPairs(groups);
    forall k | 0 <= k < |flat| ensures IsChapter(flat[k], uuid(k), TypeAt(chapterTypes, k % 2)) {
      var i := k / 2;
      if k % 2 == 0 {
        assert k == 2 * i;
        assert IsChapter(groups[i][0], uuid(2 * i + 0), TypeAt(chapterTypes, 0));
      } else {
        assert k == 2 * i + 1;
        assert IsChapter(groups[i][1], uuid(2 * i + 1), TypeAt(chapterTypes, 1));
      }
    }
  }

  lemma ChaptersAtPositions(leaves: Leaves, rnd: Random, uuid: nat -> Id)
    requires leaves.authors.list.Some?
    ensures var c := ChaptersStep(leaves, rnd, uuid).entities;
            && |c| == 2 * CountModules(leaves.modules)
            && forall k :: 0 <= k < |c| ==>
                 c[k].id == uuid(k) && c[k].attrs == map["type" := TypeAt(leaves.chapterTypes, k % 2)]
  {
    var flat := Flatten(ChapterGroups(leaves, uuid));
    var c := ChaptersStep(leaves, rnd, uuid).entities;
    FlatChapters(CountModules(leaves.modules), leaves.chapterTypes, uuid);
    ChaptersShape(leaves, rnd, uuid);
    forall k | 0 <= k < |c|
      ensures c[k].id == uuid(k) && c[k].attrs == map["type" := TypeAt(leaves.chapterTypes, k % 2)]
    {
      ChapterAttrs(flat[k], uuid(k), TypeAt(leaves.chapterTypes, k % 2));
    }
  }

  /** In the dataset, chapter `k` has the `k`-th uuid and chapter type
      `k % 2`, and there are two chapters per module. */
  lemma AssembledChapters(leaves: Leaves, rnd: Random, uuid: nat -> Id)
    requires Assemble(leaves, rnd, uuid).Ok?
    ensures var d := Assemble(leaves, rnd, uuid).value;
            && |d.chapters| == 2 * |d.modules.list.value|
            && forall k :: 0 <= k < |d.chapters| ==>
                 d.chapters[k].id == uuid(k) && d.chapters[k].attrs == map["type" := TypeAt(leaves.chapterTypes, k % 2)]
  {
    var d := Assemble(leaves, rnd, uuid).value;
    assert d.chapters == ChaptersStep(leaves, rnd, uuid).entities;
    ChaptersAtPositions(leaves, rnd, uuid);
  }

  /** Distinct uuids give distinct chapter ids across the whole dataset. */
  lemma AssembledChapterIdsDistinct(leaves: Leaves, rnd: Random, uuid: nat -> Id)
    requires Assemble(leaves, rnd, uuid).Ok?
    requires forall a: nat, b: nat :: a != b ==> uuid(a) != uuid(b)
    ensures var cs := Assemble(leaves, rnd, uuid).value.chapters;
            forall k, l :: 0 <= k < l < |cs| ==> cs[k].id != cs[l].id
  {
    AssembledChapters(leaves, rnd, uuid);
  }

  lemma ModulesHoldOwnChapters(leaves: Leaves, rnd: Random, uuid: nat -> Id)
    requires leaves.authors.list.Some? && leaves.medias.list.Some? && leaves.modules.list.Some?
    ensures var r := ModulesStep(leaves, rnd, uuid).entities;
            var groups := ChapterGroups(leaves, uuid);
            |groups| == |r| &&
            forall i :: 0 <= i < |r| ==> Get(r[i], Field.Chapters) == Some([groups[i][0].id, groups[i][1].id])
  {
    var groups := ChapterGroups(leaves, uuid);
    var oc := ModulesChain(PoolsOf(leaves), groups);
    var o := leaves.modules.list.value;
    var t := MediasStep(leaves, rnd, uuid).tick;
    var r := ModulesStep(leaves, rnd, uuid).entities;
    ModulesTargets(PoolsOf(leaves), groups);
    ChapterGroupsMatchModules(leaves, uuid);
    ComposeIsComposed(oc, rnd, o, t);
    ComposeWrites(oc, rnd, o, t, 1);
    assert oc[1] == ChapterLinks(groups, Field.Chapters);
    forall i | 0 <= i < |o| ensures Get(r[i], Field.Chapters) == Some([groups[i][0].id, groups[i][1].id]) {
      PairIds(groups, i);
    }
  }

  /** The ids the chapter enhancer attaches to module `i`, when group `i`
      is a pair. */
  lemma PairIds(groups: seq<seq<Entity>>, i: nat)
    requires i < |groups| && |groups[i]| == 2
    ensures ExtractIds(GroupAt(groups, i)) == [groups[i][0].id, groups[i][1].id]
  {
    var g := groups[i];
    assert ExtractIds(GroupAt(groups, i)) == Ids(g);
    assert Ids(g) == [g[0].id, g[1].id];
  }

  /** Module `i` holds, in group order, the ids of chapter group `i`: the
      chapters at positions `2i` and `2i + 1` of the dataset. */
  lemma AssembledModulesHoldOwnChapters(leaves: Leaves, rnd: Random, uuid: nat -> Id)
    requires Assemble(leaves, rnd, uuid).Ok?
    ensures var d := Assemble(leaves, rnd, uuid).value;
            && |d.chapters| == 2 * |d.modules.list.value|
            && forall i :: 0 <= i < |d.modules.list.value| ==>
                 Get(d.modules.list.value[i], Field.Chapters) == Some([d.chapters[2 * i].id, d.chapters[2 * i + 1].id])
  {
    var d := Assemble(leaves, rnd, uuid).value;
    var groups := ChapterGroups(leaves, uuid);
    assert d.chapters == ChaptersStep(leaves, rnd, uuid).entities;
    assert d.modules.list.value == ModulesStep(leaves, rnd, uuid).entities;
    ChaptersAtPositions(leaves, rnd, uuid);
    ModulesHoldOwnChapters(leaves, rnd, uuid);
    forall i | 0 <= i < |d.modules.list.value|
      ensures Get(d.modules.list.value[i], Field.Chapters) == Some([d.chapters[2 * i].id, d.chapters[2 * i + 1].id])
    {
      assert IsChapter(groups[i][0], uuid(2 * i + 0), TypeAt(leaves.chapterTypes, 0));
      assert IsChapter(groups[i][1], uuid(2 * i + 1), TypeAt(leaves.chapterTypes, 1));
    }
  }

  /** Referential integrity, under the hypothesis that `randomEntries`
      draws from its pool: every random link of every record is the id of
      a record of the linked collection in the dataset. */
  lemma AuthorsLinks(leaves: Leaves, rnd: Random)
    requires leaves.authors.list.Some? && DrawsFromPool(rnd)
    ensures var r := AuthorsStep(leaves, rnd).entities; var p := PoolsOf(leaves);
            LinksInto(r, Medias, p.medias) && LinksInto(r, Modules, p.modules)
  {
    var ac := AuthorsChain(PoolsOf(leaves));
    AuthorsTargets(PoolsOf(leaves));
    ComposeIsComposed(ac, rnd, leaves.authors.list.value, 0);
    ComposeLinksInPool(ac, rnd, leaves.authors.list.value, 0, 0);
    ComposeLinksInPool(ac, rnd, leaves.authors.list.value, 0, 1);
  }

  lemma ChaptersLinks(leaves: Leaves, rnd: Random, uuid: nat -> Id)
    requires leaves.authors.list.Some? && DrawsFromPool(rnd)
    ensures LinksInto(ChaptersStep(leaves, rnd, uuid).entities, Medias, PoolsOf(leaves).medias)
  {
    var c := ChaptersStep(leaves, rnd, uuid).entities;
    var rel := AddMedias(PoolsOf(leaves));
    var t := AuthorsStep(leaves, rnd).tick;
    forall i | 0 <= i < |c|
      ensures Get(c[i], Medias).Some? && forall x :: x in Get(c[i], Medias).value ==> x in rel.pool
    {
      ApplyAt(RandomLinks(rel), rnd, Flatten(ChapterGroups(leaves, uuid)), t, i);
      LinkedDrawInPool(c[i], rnd, rel, t + i);
    }
  }

  lemma MediasLinks(leaves: Leaves, rnd: Random, uuid: nat -> Id)
    requires leaves.authors.list.Some? && leaves.medias.list.Some? && DrawsFromPool(rnd)
    ensures var r := MediasStep(leaves, rnd, uuid).entities; var p := PoolsOf(leaves);
            LinksInto(r, Authors, p.authors) && LinksInto(r, Modules, p.modules) && LinksInto(r, Tags, p.tags)
  {
    var mc := MediasChain(PoolsOf(leaves));
    var t := ChaptersStep(leaves, rnd, uuid).tick;
    MediasTargets(PoolsOf(leaves));
    ComposeIsComposed(mc, rnd, leaves.medias.list.value, t);
    ComposeLinksInPool(mc, rnd, leaves.medias.list.value, t, 0);
    ComposeLinksInPool(mc, rnd, leaves.medias.list.value, t, 1);
    ComposeLinksInPool(mc, rnd, leaves.medias.list.value, t, 2);
  }

  lemma ModulesLinks(leaves: Leaves, rnd: Random, uuid: nat -> Id)
    requires leaves.authors.list.Some? && leaves.medias.list.Some? && leaves.modules.list.Some? && DrawsFromPool(rnd)
    ensures LinksInto(ModulesStep(leaves, rnd, uuid).entities, Authors, PoolsOf(leaves).authors)
  {
    var oc := ModulesChain(PoolsOf(leaves), ChapterGroups(leaves, uuid));
    ModulesTargets(PoolsOf(leaves), ChapterGroups(leaves, uuid));
    ComposeIsComposed(oc, rnd, leaves.modules.list.value, MediasStep(leaves, rnd, uuid).tick);
    ComposeLinksInPool(oc, rnd, leaves.modules.list.value, MediasStep(leaves, rnd, uuid).tick, 0);
  }

  lemma AssembledLinksResolve(leaves: Leaves, rnd: Random, uuid: nat -> Id)
    requires Assemble(leaves, rnd, uuid).Ok?
    requires DrawsFromPool(rnd)
    ensures var d := Assemble(leaves, rnd, uuid).value;
            var authorIds, mediaIds, moduleIds := Ids(d.authors.list.value), Ids(d.medias.list.value), Ids(d.modules.list.value);
            && LinksInto(d.authors.list.value, Medias, mediaIds)
            && LinksInto(d.authors.list.value, Modules, moduleIds)
            && LinksInto(d.chapters, Medias, mediaIds)
            && LinksInto(d.medias.list.value, Authors, authorIds)
            && LinksInto(d.medias.list.value, Modules, moduleIds)
            && LinksInto(d.medias.list.value, Tags, ExtractIds(d.tags))
            && LinksInto(d.modules.list.value, Authors, authorIds)
            && LinksInto(d.modules.list.value, Field.Chapters, Ids(d.chapters))
  {
    var d := Assemble(leaves, rnd, uuid).value;
    AssembledShape(leaves, rnd, uuid);
    ChangedOnlyKeepsIds(leaves.authors.list.value, d.authors.list.value, {Medias, Modules});
    ChangedOnlyKeepsIds(leaves.medias.list.value, d.medias.list.value, {Authors, Modules, Tags});
    ChangedOnlyKeepsIds(leaves.modules.list.value, d.modules.list.value, {Authors, Field.Chapters});
    ExtractIdsOfPresent(leaves.authors.list.value);
    ExtractIdsOfPresent(leaves.medias.list.value);
    ExtractIdsOfPresent(leaves.modules.list.value);
    AuthorsLinks(leaves, rnd);
    ChaptersLinks(leaves, rnd, uuid);
    MediasLinks(leaves, rnd, uuid);
    ModulesLinks(leaves, rnd, uuid);
    AssembledModulesHoldOwnChapters(leaves, rnd, uuid);
    AssembledChapters(leaves, rnd, uuid);
    ChapterPairsResolve(d.modules.list.value, d.chapters);
  }

  /** The chapter links do not depend on `randomEntries`: with no hypothesis
      on the random source, every module links only to chapters of the
      dataset. */
  lemma AssembledChapterLinksResolve(leaves: Leaves, rnd: Random, uuid: nat -> Id)
    requires Assemble(leaves, rnd, uuid).Ok?
    ensures var d := Assemble(leaves, rnd, uuid).value;
            LinksInto(d.modules.list.value, Field.Chapters, Ids(d.chapters))
  {
    var d := Assemble(leaves, rnd, uuid).value;
    AssembledModulesHoldOwnChapters(leaves, rnd, uuid);
    ChapterPairsResolve(d.modules.list.value, d.chapters);
  }

  /** Modules whose chapter links are the ids of their own pair of chapters
      link only to chapters of the collection. */
  lemma ChapterPairsResolve(ms: seq<Entity>, cs: seq<Entity>)
    requires |cs| == 2 * |ms|
    requires forall i :: 0 <= i < |ms| ==> Get(ms[i], Field.Chapters) == Some([cs[2 * i].id, cs[2 * i + 1].id])
    ensures LinksInto(ms, Field.Chapters, Ids(cs))
  {
    forall i | 0 <= i < |ms|
      ensures Get(ms[i], Field.Chapters).Some? && forall x :: x in Get(ms[i], Field.Chapters).value ==> x in Ids(cs)
    {
      assert Ids(cs)[2 * i] == cs[2 * i].id && Ids(cs)[2 * i + 1] == cs[2 * i + 1].id;
    }
  }

  /** Range bounds, under the range hypotheses on `./_utils`: every random
      attachment in the dataset has a size that fits its relation, e.g.
      each author links between one and three modules when there are at
      least three. */
  lemma AuthorsSizes(leaves: Leaves, rnd: Random)
    requires leaves.authors.list.Some? && CountsInRange(rnd) && EntriesSized(rnd)
    ensures var r := AuthorsStep(leaves, rnd).entities; var p := PoolsOf(leaves);
            SizesFit(r, AddMedias(p)) && SizesFit(r, AddModules(p))
  {
    var ac := AuthorsChain(PoolsOf(leaves));
    AuthorsTargets(PoolsOf(leaves));
    ComposeIsComposed(ac, rnd, leaves.authors.list.value, 0);
    ComposeSizesFit(ac, rnd, leaves.authors.list.value, 0, 0);
    ComposeSizesFit(ac, rnd, leaves.authors.list.value, 0, 1);
  }

  lemma ChaptersSizes(leaves: Leaves, rnd: Random, uuid: nat -> Id)
    requires leaves.authors.list.Some? && CountsInRange(rnd) && EntriesSized(rnd)
    ensures SizesFit(ChaptersStep(leaves, rnd, uuid).entities, AddMedias(PoolsOf(leaves)))
  {
    var c := ChaptersStep(leaves, rnd, uuid).entities;
    var rel := AddMedias(PoolsOf(leaves));
    var t := AuthorsStep(leaves, rnd).tick;
    forall i | 0 <= i < |c| ensures Get(c[i], Medias).Some? && SizeFits(|Get(c[i], Medias).value|, rel) {
      ApplyAt(RandomLinks(rel), rnd, Flatten(ChapterGroups(leaves, uuid)), t, i);
      DrawSizeFits(rnd, rel, t + i);
    }
  }

  lemma MediasSizes(leaves: Leaves, rnd: Random, uuid: nat -> Id)
    requires leaves.authors.list.Some? && leaves.medias.list.Some? && CountsInRange(rnd) && EntriesSized(rnd)
    ensures var r := MediasStep(leaves, rnd, uuid).entities; var p := PoolsOf(leaves);
            SizesFit(r, AddAuthors(p)) && SizesFit(r, AddModules(p)) && SizesFit(r, AddTags(p))
  {
    var mc := MediasChain(PoolsOf(leaves));
    var t := ChaptersStep(leaves, rnd, uuid).tick;
    MediasTargets(PoolsOf(leaves));
    ComposeIsComposed(mc, rnd, leaves.medias.list.value, t);
    ComposeSizesFit(mc, rnd, leaves.medias.list.value, t, 0);
    ComposeSizesFit(mc, rnd, leaves.medias.list.value, t, 1);
    ComposeSizesFit(mc, rnd, leaves.medias.list.value, t, 2);
  }

  lemma ModulesSizes(leaves: Leaves, rnd: Random, uuid: nat -> Id)
    requires leaves.authors.list.Some? && leaves.medias.list.Some? && leaves.modules.list.Some?
    requires CountsInRange(rnd) && EntriesSized(rnd)
    ensures SizesFit(ModulesStep(leaves, rnd, uuid).entities, AddAuthors(PoolsOf(leaves)))
  {
    var oc := ModulesChain(PoolsOf(leaves), ChapterGroups(leaves, uuid));
    ModulesTargets(PoolsOf(leaves), ChapterGroups(leaves, uuid));
    ComposeIsComposed(oc, rnd, leaves.modules.list.value, MediasStep(leaves, rnd, uuid).tick);
    ComposeSizesFit(oc, rnd, leaves.modules.list.value, MediasStep(leaves, rnd, uuid).tick, 0);
  }

  lemma AssembledSizesFit(leaves: Leaves, rnd: Random, uuid: nat -> Id)
    requires Assemble(leaves, rnd, uuid).Ok?
    requires CountsInRange(rnd) && EntriesSized(rnd)
    ensures var d := Assemble(leaves, rnd, uuid).value; var p := PoolsOf(leaves);
            && SizesFit(d.authors.list.value, AddMedias(p)) && SizesFit(d.authors.list.value, AddModules(p))
            && SizesFit(d.chapters, AddMedias(p))
            && SizesFit(d.medias.list.value, AddAuthors(p)) && SizesFit(d.medias.list.value, AddModules(p))
            && SizesFit(d.medias.list.value, AddTags(p))
            && SizesFit(d.modules.list.value, AddAuthors(p))
  {
    AuthorsSizes(leaves, rnd);
    ChaptersSizes(leaves, rnd, uuid);
    MediasSizes(leaves, rnd, uuid);
    ModulesSizes(leaves, rnd, uuid);
  }
}
