/** The records of the mock dataset, seen as values, and the lodash
    `get`/`set` calls the linker makes on them at `content.<field>`. */
module Entities {

  datatype Option<T> = None | Some(value: T)

  /** An opaque identifier, as the generators hand them out. */
  type Id = string

  /** The relation fields the linker writes; `Medias` stands for the lodash
      path `"content.medias"`, and so on. */
  datatype Field = Medias | Authors | Modules | Tags | Chapters

  /** A record field the linker never looks into. `Undefined` is what
      JavaScript yields when it reads past the end of an array. */
  datatype Value = Undefined | Text(text: string)

  /** The `content` sub-object: the relation fields, and whatever else a
      generator put under `content`. */
  datatype Content = Content(links: map<Field, seq<Id>>, rest: map<string, Value>)

  /** A record: its `id`, its other top-level keys, and its `content`
      sub-object if it has one. */
  datatype Entity = Entity(id: Id, attrs: map<string, Value>, content: Option<Content>)

  function Links(e: Entity): map<Field, seq<Id>> {
    if e.content.Some? then e.content.value.links else map[]
  }

  function Rest(e: Entity): map<string, Value> {
    if e.content.Some? then e.content.value.rest else map[]
  }

  /** `get(e, "content.<f>")`: undefined when `content` or the field is missing. */
  function Get(e: Entity, f: Field): Option<seq<Id>> {
    if f in Links(e) then Some(Links(e)[f]) else None
  }

  /** `r` agrees with `e` everywhere except at `content.<f>`, and has a
      `content` sub-object. */
  ghost predicate SameExcept(e: Entity, r: Entity, f: Field) {
    && r.id == e.id
    && r.attrs == e.attrs
    && r.content.Some?
    && Rest(r) == Rest(e)
    && forall g :: g != f ==> Get(r, g) == Get(e, g)
  }

  /** `set(e, "content.<f>", v)`: writes the field, creating `content`
      when it is absent, and leaves everything else alone. */
  function Set(e: Entity, f: Field, v: seq<Id>): (r: Entity)
    ensures Get(r, f) == Some(v)
    ensures SameExcept(e, r, f)
  {
    Entity(e.id, e.attrs, Some(Content(Links(e)[f := v], Rest(e))))
  }

  /** The two postconditions of `Set` determine its result: no other update
      writes `v` at `f` and leaves the rest alone. */
  lemma SetIsTheOnlyUpdate(e: Entity, r: Entity, f: Field, v: seq<Id>)
    requires SameExcept(e, r, f)
    requires Get(r, f) == Some(v)
    ensures r == Set(e, f, v)
  {
    var want := Links(e)[f := v];
    forall g
      ensures g in Links(r) <==> g in want
      ensures g in want ==> Links(r)[g] == want[g]
    {
      if g != f {
        assert Get(r, g) == Get(e, g);
      }
    }
    assert Links(r) == want;
  }

  /** Writing two different fields commutes, so the order of enhancers
      with disjoint targets does not matter. */
  lemma SetCommutes(e: Entity, f: Field, v: seq<Id>, g: Field, w: seq<Id>)
    requires f != g
    ensures Set(Set(e, f, v), g, w) == Set(Set(e, g, w), f, v)
  {
    assert Links(e)[f := v][g := w] == Links(e)[g := w][f := v];
  }

  /** A second write to the same field replaces the first. */
  lemma SetOverwrites(e: Entity, f: Field, v: seq<Id>, w: seq<Id>)
    ensures Set(Set(e, f, v), f, w) == Set(e, f, w)
  {
    assert Links(e)[f := v][f := w] == Links(e)[f := w];
  }
}
