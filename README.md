# Mock-data graph builder, modelled in Dafny

The Gatsby front end seeds its page builds with a mock dataset. The leaf
generators produce collections of authors, medias, modules, pages and tags.
The chapter generator adds two chapter records per module, one per chapter
type. The linker in `gatsby/mocks/index.js` then attaches foreign ids to the
records:

- random draws of media, author, module and tag ids;
- each module's own chapter ids, taken by position.

This project models that core and proves what it guarantees.

Modules, following the source:

- `Entities` (entities.dfy): records as values. A record has an `id`, its
  other top-level keys, and an optional `content` sub-object. lodash
  `get`/`set` at `content.<field>` become `Get`/`Set` over a fixed enum of
  relation fields (`Medias`, `Authors`, `Modules`, `Tags`, `Chapters`).
- `Chapters` (chapters.js): the per-module pair and the exported builder.
  `casual.uuid` is an oracle `uuid: nat -> Id`: the k-th uuid the chapter
  generator draws is `uuid(k)`.
- `Enhancers` (index.js lines 12-27): `getId`, `extractIds`,
  `makeEntityEnhancer`, `makeChapterEnhancer`, and lodash `compose` over a
  chain of enhancers.
  - `randomIntBetween` and `randomEntries` form an oracle `Random`. Each call
    also receives a tick: the position of its entity among all random draws
    of the run.
  - The assumptions about these helpers are explicit hypotheses
    (`DrawsFromPool`, `CountsInRange`, `EntriesSized`), never proven facts.
- `Assembler` (index.js lines 29-113): `countModules`, lodash `flatten`, the
  relation table, and the exported function.
  - The ticks are threaded in the order the object literal is evaluated:
    authors, chapters, medias, modules.
  - A missing collection makes its chain call `map` on `undefined`. That
    TypeError is the `Err` result.
- `Records` (records.dfy): the same enhancers and compose as methods on
  mutable `Record` objects. lodash `set` writes into the object it is given
  and returns that object, so the source changes records in place. Each
  method is proved to leave the objects holding what the value model
  computes.

Three behaviours of the code that the model keeps:

- lodash `set` mutates the record it is given and returns it, so records
  are changed in place, not copied (gatsby/mocks/index.js:20);
- the enhancers check neither `min <= max` nor that the number of chapter
  groups matches the number of modules; a module without a group gets `[]`
  (gatsby/mocks/index.js:16-27);
- the requested count is passed to `randomEntries` without being clamped to
  the pool size, so the size bound holds only under a hypothesis
  (gatsby/mocks/index.js:18-19).

## Model

| member | source | states |
|---|---|---|
| `Entities.Set` | gatsby/mocks/index.js:20 | after `set`, the field reads back the written ids; id, top-level keys, other content keys and every other field are unchanged; `content` exists afterwards |
| `Entities.SetIsTheOnlyUpdate` | gatsby/mocks/index.js:20 | any record that agrees with `e` except at `f` and holds `v` there equals `Set(e, f, v)` |
| `Entities.SetCommutes` | gatsby/mocks/index.js:20 | writes to two different fields commute |
| `Entities.SetOverwrites` | gatsby/mocks/index.js:20 | a second write to the same field replaces the first |
| `Chapters.TypeAt` | gatsby/mocks/chapters.js:6-10 | no contract of its own: `chapterTypes[j]`, undefined past the end; `Chapters.ChapterPair` and `Chapters.ExtraChapterTypesIgnored` state how it is read |
| `Chapters.Chapter` | gatsby/mocks/chapters.js:4-11 | no contract of its own: the `{ id, type }` literal; `Chapters.ChapterPair` states that it has only these two keys |
| `Chapters.ChapterPair` | gatsby/mocks/chapters.js:3-12 | `generateChaptersPerModule` gives exactly two records, with the uuids at `tick` and `tick + 1`, types `chapterTypes[0]` and `chapterTypes[1]` (undefined if missing), and only the keys `id` and `type` |
| `Chapters.GenerateChapters` | gatsby/mocks/chapters.js:3-19 | exactly `moduleCount` groups (none for 0), each of exactly two records; record `j` of group `i` has the uuid at tick `2i + j`, type `chapterTypes[j]` (undefined if missing), and only the keys `id` and `type` |
| `Chapters.ExtraChapterTypesIgnored` | gatsby/mocks/chapters.js:3-12 | chapter types after the first two have no effect on the groups |
| `Chapters.ChapterAttrs` | gatsby/mocks/chapters.js:3-12 | a chapter record's top-level keys besides `id` are exactly `{ type }`, holding its chapter type |
| `Chapters.ChapterIdsDistinct` | gatsby/mocks/chapters.js:3-17 | if the uuids are distinct, then any two different chapter slots across all groups have different ids |
| `Enhancers.GetId` | gatsby/mocks/index.js:12 | no contract of its own; `Enhancers.Ids` states that mapping it over a list gives `list[i].id` at every position |
| `Enhancers.Ids` | gatsby/mocks/index.js:12-14 | `list.map(getId)` has the list's length, and element `i` is `list[i].id` |
| `Enhancers.ExtractIds` | gatsby/mocks/index.js:12-14 | an absent list gives `[]`; otherwise a list of the same length whose element `i` is the id of record `i` |
| `Enhancers.EntityEnhance` | gatsby/mocks/index.js:16-21 | the enhancer maps the collection, so it keeps its length |
| `Enhancers.EntityEnhanceAt` | gatsby/mocks/index.js:16-21 | record `i` changes only at the target field, which holds `randomEntries(pool, randomIntBetween(min, max))` drawn at its own tick |
| `Enhancers.Draw` | gatsby/mocks/index.js:18-19 | no contract of its own: `randomEntries(pool, randomIntBetween(min, max))` at one tick; `Enhancers.DrawInPool` and `Enhancers.DrawSizeFits` state its properties |
| `Enhancers.DrawInPool` | gatsby/mocks/index.js:18-19 | under `DrawsFromPool`, every drawn id is in the pool |
| `Enhancers.EnhancedLinksInPool` | gatsby/mocks/index.js:16-21 | under `DrawsFromPool`, every enhanced record has the field and every id there is in the pool |
| `Enhancers.EmptyPoolGivesEmptyLinks` | gatsby/mocks/index.js:16-21 | under `DrawsFromPool`, an empty pool yields `[]` at the field of every record, without an error |
| `Enhancers.DrawSizeFits` | gatsby/mocks/index.js:18-19 | under the range hypotheses and `0 <= min <= max`, a draw has at most `max` ids, at most the pool's size, and at least `min` unless the pool is smaller |
| `Enhancers.GroupAt` | gatsby/mocks/index.js:25 | no contract of its own: `chaptersPerModule[idx]`, undefined past the end; `Enhancers.ChapterEnhanceAt` states what the enhancer attaches in both cases |
| `Enhancers.ChapterEnhance` | gatsby/mocks/index.js:23-27 | the enhancer maps the collection, so it keeps its length, whatever the number of groups |
| `Enhancers.ChapterEnhanceAt` | gatsby/mocks/index.js:23-27 | record `i` changes only at the target field, which holds the ids of group `i` in group order, or `[]` when there is no group `i` |
| `Enhancers.Apply` | gatsby/mocks/index.js:16-27 | one enhancer keeps the length and spends one tick per record only if it is random |
| `Enhancers.ApplyAt` | gatsby/mocks/index.js:16-27 | either enhancer changes record `i` only at its target, and writes there what it draws or looks up for record `i` |
| `Enhancers.Compose` | gatsby/mocks/index.js:89-108 | a chain keeps the collection's length and spends one tick per record for each random enhancer in it |
| `Enhancers.ComposePointwise` | gatsby/mocks/index.js:89-108 | record `i` of a composed collection is what the chain, run innermost first, makes of record `i` alone (`ComposeAt`) |
| `Enhancers.ComposeIsComposed` | gatsby/mocks/index.js:89-108 | the composed collection is, record by record, the collection `Composed` built from `ComposeAt` |
| `Enhancers.FieldAfterIsGet` | gatsby/mocks/index.js:89-108 | after a chain, each field of a record holds what the outermost enhancer writing it attached, on the tick the inner ones left, or its old value when no enhancer writes it |
| `Enhancers.FieldAfterKeepsEveryTarget` | gatsby/mocks/index.js:89-108 | with pairwise distinct targets, the field enhancer `j` writes ends holding its attachment, made on the tick the enhancers after `j` leave |
| `Enhancers.ComposeKeepsEveryTarget` | gatsby/mocks/index.js:89-108 | the same for the record the chain makes: every enhancer's attachment survives to the end |
| `Enhancers.ComposeWrites` | gatsby/mocks/index.js:89-108 | the same, stated for all records of the composed collection at once |
| `Enhancers.ComposeChangesOnlyTargets` | gatsby/mocks/index.js:89-108 | on one record, a chain leaves the id, top-level keys, other content keys and every field outside its targets as they were |
| `Enhancers.ComposeChangesOnly` | gatsby/mocks/index.js:89-108 | the same, stated for the whole collection |
| `Enhancers.ChangedOnlyKeepsIds` | gatsby/mocks/index.js:46-49 | records that keep their ids keep the id pool |
| `Enhancers.ComposeLinksInPool` | gatsby/mocks/index.js:89-108 | under `DrawsFromPool`, the final links of a random enhancer in a distinct-target chain all come from its pool |
| `Enhancers.ComposeAtLinksInPool` | gatsby/mocks/index.js:89-108 | the same for one record |
| `Enhancers.ComposeSizesFit` | gatsby/mocks/index.js:89-108 | under the range hypotheses, the final links of a random enhancer in a distinct-target chain have sizes within its bounds |
| `Enhancers.ComposeAtSizeFits` | gatsby/mocks/index.js:89-108 | the same for one record |
| `Enhancers.ChapterLinksCommute` | gatsby/mocks/index.js:105-108 | the chapter enhancer spends no ticks, so swapping it with a random enhancer that has another target gives the same result |
| `Enhancers.ChapterLinksCommuteAt` | gatsby/mocks/index.js:105-108 | the same for one record |
| `Assembler.CountModules` | gatsby/mocks/index.js:29 | the number of modules, and 0 when the modules list is absent; `Assembler.ChapterGroupsMatchModules` turns this into one chapter group per module |
| `Assembler.Flatten` | gatsby/mocks/index.js:43 | every record of every group is in the flat list, and every record of the flat list comes from some group |
| `Assembler.FlattenPairs` | gatsby/mocks/index.js:43 | with two records per group, the flat list has `2n` records, and group `i`'s records sit at positions `2i` and `2i + 1` |
| `Assembler.ChapterGroupsMatchModules` | gatsby/mocks/index.js:29-42 | `countModules` makes one chapter group per module, and no groups when the module list is absent |
| `Assembler.PoolsOf` | gatsby/mocks/index.js:46-49 | no contract of its own: the four id pools are `extractIds` of the base collections; `Enhancers.ChangedOnlyKeepsIds` states that they are also the ids of the linked collections |
| `Assembler.AddMedias` | gatsby/mocks/index.js:52-57 | no contract of its own: bounds 0-10 over the media pool at `content.medias`; `Assembler.AuthorsSizes` and `Assembler.ChaptersSizes` state that the links fit them |
| `Assembler.AddAuthors` | gatsby/mocks/index.js:59-64 | no contract of its own: bounds 0-3 over the author pool at `content.authors`; `Assembler.MediasSizes` and `Assembler.ModulesSizes` state that the links fit them |
| `Assembler.AddModules` | gatsby/mocks/index.js:66-71 | no contract of its own: bounds 1-3 over the module pool at `content.modules`; `Assembler.AuthorsSizes` and `Assembler.MediasSizes` state that the links fit them |
| `Assembler.AddTags` | gatsby/mocks/index.js:73-78 | no contract of its own: bounds 0-10 over the tag pool at `content.tags`; `Assembler.MediasSizes` states that the links fit them |
| `Assembler.AuthorsChain` | gatsby/mocks/index.js:89-92 | no contract of its own; `Assembler.AuthorsTargets` states its targets |
| `Assembler.AuthorsTargets` | gatsby/mocks/index.js:89-92 | the authors chain writes `content.medias` and `content.modules`, each once |
| `Assembler.MediasChain` | gatsby/mocks/index.js:97-101 | no contract of its own; `Assembler.MediasTargets` states its targets |
| `Assembler.MediasTargets` | gatsby/mocks/index.js:97-101 | the medias chain writes `content.authors`, `content.modules` and `content.tags`, each once |
| `Assembler.ModulesChain` | gatsby/mocks/index.js:105-108 | no contract of its own; `Assembler.ModulesTargets` states its targets |
| `Assembler.ModulesTargets` | gatsby/mocks/index.js:105-108 | the modules chain writes `content.authors` and `content.chapters`, each once |
| `Assembler.ChapterGroups` | gatsby/mocks/index.js:39-42 | no contract of its own: the chapter builder called with the chapter types and `countModules(modulesBase)`; `Assembler.ChapterGroupsMatchModules` and `Assembler.FlatChapters` state its properties |
| `Assembler.AuthorsStep` | gatsby/mocks/index.js:89-92 | no contract of its own: the authors chain on the author list, the random source at tick 0; `Assembler.AuthorsShape`, `Assembler.AuthorsLinks` and `Assembler.AuthorsSizes` state its properties |
| `Assembler.ChaptersStep` | gatsby/mocks/index.js:94 | no contract of its own: the media enhancer on the flat chapter list, at the tick the authors left; `Assembler.ChaptersShape`, `Assembler.ChaptersAtPositions`, `Assembler.ChaptersLinks` and `Assembler.ChaptersSizes` state its properties |
| `Assembler.MediasStep` | gatsby/mocks/index.js:97-101 | no contract of its own: the medias chain at the tick the chapters left; `Assembler.MediasShape`, `Assembler.MediasLinks` and `Assembler.MediasSizes` state its properties |
| `Assembler.ModulesStep` | gatsby/mocks/index.js:105-108 | no contract of its own: the modules chain at the tick the medias left; `Assembler.ModulesShape`, `Assembler.ModulesHoldOwnChapters`, `Assembler.ModulesLinks` and `Assembler.ModulesSizes` state its properties |
| `Assembler.Assemble` | gatsby/mocks/index.js:31-113 | succeeds exactly when the authors, medias and modules lists exist; pages and tags are the base values; the three wrappers keep their other keys and the length of their lists |
| `Assembler.AuthorsShape` | gatsby/mocks/index.js:87-93 | authors change only at `content.medias` and `content.modules`, and have both |
| `Assembler.ChaptersShape` | gatsby/mocks/index.js:94 | chapters change only at `content.medias`, and have it |
| `Assembler.MediasShape` | gatsby/mocks/index.js:95-102 | medias change only at `content.authors`, `content.modules` and `content.tags`, and have all three |
| `Assembler.ModulesShape` | gatsby/mocks/index.js:103-109 | modules change only at `content.authors` and `content.chapters`, and have both |
| `Assembler.AssembledShape` | gatsby/mocks/index.js:86-112 | the fixed shape of the dataset: each collection keeps its records, changes only in its chain's fields, and has all of them |
| `Assembler.FlatChapters` | gatsby/mocks/index.js:39-43 | the flat chapter list has two records per module; record `k` has the uuid at tick `k`, chapter type `k % 2`, and only the keys `id` and `type` |
| `Assembler.ChaptersAtPositions` | gatsby/mocks/index.js:39-43 | after the media enhancer, chapter `k` still has the uuid at tick `k` and type `k % 2`, and there are `2 ×` module count chapters |
| `Assembler.AssembledChapters` | gatsby/mocks/index.js:94 | in the dataset there are twice as many chapters as modules; chapter `k` has the uuid at tick `k` and type `k % 2` |
| `Assembler.AssembledChapterIdsDistinct` | gatsby/mocks/chapters.js:15-16 | if the uuids are distinct, then all chapter ids in the dataset are distinct |
| `Assembler.ModulesHoldOwnChapters` | gatsby/mocks/index.js:103-109 | there are as many chapter groups as modules, and module `i` holds the ids of group `i`, in group order |
| `Assembler.PairIds` | gatsby/mocks/index.js:23-27 | for a group of two chapters, the chapter enhancer attaches exactly the two ids in group order |
| `Assembler.AssembledModulesHoldOwnChapters` | gatsby/mocks/index.js:103-109 | in the dataset, module `i` holds the ids of chapters `2i` and `2i + 1` |
| `Assembler.AuthorsLinks` | gatsby/mocks/index.js:87-93 | under `DrawsFromPool`, authors link only media and module ids of the pools |
| `Assembler.ChaptersLinks` | gatsby/mocks/index.js:94 | under `DrawsFromPool`, chapters link only media ids of the pool |
| `Assembler.MediasLinks` | gatsby/mocks/index.js:95-102 | under `DrawsFromPool`, medias link only author, module and tag ids of the pools |
| `Assembler.ModulesLinks` | gatsby/mocks/index.js:103-109 | under `DrawsFromPool`, modules link only author ids of the pool |
| `Assembler.AssembledLinksResolve` | gatsby/mocks/index.js:86-112 | referential integrity: under `DrawsFromPool`, every link in the dataset is the id of a record of the linked collection in the dataset |
| `Assembler.AssembledChapterLinksResolve` | gatsby/mocks/index.js:103-109 | with no hypothesis on the random source, every module's chapter links are ids of chapters in the dataset |
| `Assembler.ChapterPairsResolve` | gatsby/mocks/index.js:103-109 | modules holding the ids of chapters `2i` and `2i + 1` link only to chapters of the collection |
| `Assembler.AuthorsSizes` | gatsby/mocks/index.js:52-71 | under the range hypotheses, authors' medias and modules fit the bounds 0-10 and 1-3 |
| `Assembler.ChaptersSizes` | gatsby/mocks/index.js:52-57 | under the range hypotheses, chapters' medias fit the bounds 0-10 |
| `Assembler.MediasSizes` | gatsby/mocks/index.js:59-78 | under the range hypotheses, medias' authors, modules and tags fit the bounds 0-3, 1-3 and 0-10 |
| `Assembler.ModulesSizes` | gatsby/mocks/index.js:59-64 | under the range hypotheses, modules' authors fit the bounds 0-3 |
| `Assembler.AssembledSizesFit` | gatsby/mocks/index.js:52-112 | under the range hypotheses, every random attachment in the dataset fits its relation's bounds; for example, with at least three modules each author links one to three of them |
| `Records.Record.SetLink` | gatsby/mocks/index.js:20 | `set` in place: the object's value becomes `Set` of its old value |
| `Records.EnhanceInPlace` | gatsby/mocks/index.js:16-21 | returns the same objects, which now hold `EntityEnhance` of their old values; the tick advances by one per record |
| `Records.ChapterEnhanceInPlace` | gatsby/mocks/index.js:23-27 | returns the same objects, which now hold `ChapterEnhance` of their old values |
| `Records.ComposeInPlace` | gatsby/mocks/index.js:89-108 | runs a chain last to first on the same objects, which end holding `Compose` of their old values, at the tick `Compose` reaches |

## Left out

- The leaf generators (authors, medias, modules, pages, tags, chapter types) and their count arguments (100, 20, 20) are not part of this model. Their outputs are the input `Leaves`.
- Chapter type labels are taken as text. The chapter types generator is not part of this model.
- An undefined `chapterTypes` list is not modelled (`Leaves.chapterTypes` is always a list). In the source, reading `chapterTypes[0]` then throws a TypeError whenever there is at least one module.
- `randomIntBetween` and `randomEntries` are not part of this model. They are an oracle, so their distribution is not modelled, and neither is the distinctness of the entries they return. Their pool membership and ranges enter only as the hypotheses `DrawsFromPool`, `CountsInRange` and `EntriesSized`.
- `casual.uuid` is an external random id library. It is an oracle of ticks, with distinctness as a hypothesis.
- lodash `get`, `set`, `isEmpty`, `flatten` and `compose` are modelled for the fixed paths and the shapes used here, not for arbitrary path strings or arbitrary values.
- Every record is taken to carry an `id`. `getId` on a record without one, which yields `undefined`, is not modelled.
- A `content` value that is not an object, and content values other than id lists, are not modelled.
- An `Entity` whose top-level keys include `id` or `content`, or whose other `content` keys include a relation field name (`medias`, `authors`, `modules`, `tags`, `chapters`), stands for no JavaScript object and is outside the model; for such a value the frame lemmas would keep a key that `set` overwrites.
- A missing wrapper object `authorsBase`, `mediasBase`, `modulesBase` or `pagesBase`, as opposed to a missing list inside it, is not modelled (`Base` is always present). In the source, a missing `authorsBase`, `mediasBase` or `modulesBase` throws a TypeError when its list is read at gatsby/mocks/index.js:46-48, and a missing `pagesBase` passes through as `pages: undefined`. A missing `tagsBase` is modelled: it is the bare tag list, absent as `None`.
- Records.EnhanceInPlace, Records.ChapterEnhanceInPlace and Records.ComposeInPlace require a collection with no object repeated. With a repeated object, the later `set` overwrites the earlier one, and the value model no longer describes the result. The methods assume that the leaf generators return one object per record; their source is not part of this model.
- Records.Record.SetLink replaces `content` as a value. In place, it would be a write into a shared `content` object, so sharing between records is not modelled.
- The exported function is modelled on values (`Assembler.Assemble`). Its chains are proved in place by `Records.ComposeInPlace`. The flat chapter list and the chapter groups hold the same objects, but only their ids are read, and no enhancer changes an id.
- Random enhancers do not commute with each other, because swapping them changes which draw each one gets. Only the chapter enhancer commutes (`Enhancers.ChapterLinksCommute`).
- gatsby/src/components/layout/layout.view.js is React presentation with no logic to verify.
