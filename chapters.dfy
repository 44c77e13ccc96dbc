/** The chapter generator: per module, one pair of chapter records, one per
    chapter type. `casual.uuid` is the oracle `uuid`; the k-th uuid
    the chapter generator draws is `uuid(k)`. */
module Chapters {
  import opened Entities

  /** `chapterTypes[j]`, undefined past the end of the list. */
  function TypeAt(chapterTypes: seq<string>, j: nat): Value {
    if j < |chapterTypes| then Text(chapterTypes[j]) else Undefined
  }

  /** The object literal `{ id, type }`. */
  function Chapter(id: Id, kind: Value): Entity {
    Entity(id, map["type" := kind], None)
  }

  /** `generateChaptersPerModule`: two records whose ids are the uuids at
      `tick` and `tick + 1`, typed by the first two chapter types. */
  function ChapterPair(chapterTypes: seq<string>, uuid: nat -> Id, tick: nat): (pair: seq<Entity>)
    ensures |pair| == 2
    ensures IsChapter(pair[0], uuid(tick), TypeAt(chapterTypes, 0))
    ensures IsChapter(pair[1], uuid(tick + 1), TypeAt(chapterTypes, 1))
  {
    [Chapter(uuid(tick), TypeAt(chapterTypes, 0)), Chapter(uuid(tick + 1), TypeAt(chapterTypes, 1))]
  }

  /** A record with exactly the keys `id` and `type`. */
  predicate IsChapter(c: Entity, id: Id, kind: Value) {
    c.id == id && c.attrs.Keys == {"type"} && c.attrs["type"] == kind && c.content == None
  }

  /** A chapter's keys besides `id` are exactly `{ type }`. */
  lemma ChapterAttrs(c: Entity, id: Id, kind: Value)
    requires IsChapter(c, id, kind)
    ensures c.id == id && c.attrs == map["type" := kind]
  {
    assert c.attrs.Keys == map["type" := kind].Keys;
  }

  /** The exported builder: `moduleCount` groups, group `i` holding the
      chapters that take the uuids `2i` and `2i + 1`. */
  function GenerateChapters(moduleCount: nat, chapterTypes: seq<string>, uuid: nat -> Id): (groups: seq<seq<Entity>>)
    ensures |groups| == moduleCount
    ensures forall i :: 0 <= i < moduleCount ==> |groups[i]| == 2
    ensures forall i, j :: 0 <= i < moduleCount && 0 <= j < 2 ==>
              IsChapter(groups[i][j], uuid(2 * i + j), TypeAt(chapterTypes, j))
  {
    seq(moduleCount, i requires 0 <= i => ChapterPair(chapterTypes, uuid, 2 * i))
  }

  /** Chapter types after the first two are never read. */
  lemma ExtraChapterTypesIgnored(moduleCount: nat, chapterTypes: seq<string>, uuid: nat -> Id)
    requires |chapterTypes| >= 2
    ensures GenerateChapters(moduleCount, chapterTypes, uuid) == GenerateChapters(moduleCount, chapterTypes[..2], uuid)
  {
    assert TypeAt(chapterTypes, 0) == TypeAt(chapterTypes[..2], 0);
    assert TypeAt(chapterTypes, 1) == TypeAt(chapterTypes[..2], 1);
  }

  /** Every chapter draws its own uuid, so distinct uuids give distinct
      chapter ids across all groups. */
  lemma ChapterIdsDistinct(moduleCount: nat, chapterTypes: seq<string>, uuid: nat -> Id, i: nat, j: nat, i': nat, j': nat)
    requires forall a: nat, b: nat :: a != b ==> uuid(a) != uuid(b)
    requires i < moduleCount && j < 2 && i' < moduleCount && j' < 2
    requires (i, j) != (i', j')
    ensures var groups := GenerateChapters(moduleCount, chapterTypes, uuid);
            groups[i][j].id != groups[i'][j'].id
  {
    assert 2 * i + j != 2 * i' + j';
  }
}
