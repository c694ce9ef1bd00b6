/**
 * The stand-alone builders (`EnumBuilder`, `ClassBuilder`): `buildClass`
 * sets up the class skeleton of a type, lets the builder's `finalize` fill
 * it in and writes the class to its output path.  Unlike the factory they
 * keep no classmap.
 */
module Builders {
  import opened Wrappers
  import opened Xsd
  import opened Descriptors
  import opened Enums
  import opened Dtos

  /**
   * `EnumBuilder::buildClass`: a type without restriction, or with two
   * facets of the same constant name, stops in `finalize` before anything
   * is written.
   */
  method BuildEnum(env: Env, u: Universe, id: TypeId) returns (r: Result<Artifact>)
    requires Resolvable(u, id)
    ensures r.Err? <==>
      u.types[id].parent.None? || FacetNamesClash(env.reserved, EnumFacets(u.types[id].parent.value.checks))
    ensures r.Err? ==> r == Err(EnumClass(env, u, id).error)
    ensures r.Ok? ==> r.value == ArtifactOf(env, EnumClass(env, u, id).value)
  {
    var c := FinalizeEnum(env, u, id);
    if c.Err? {
      return Err(c.error);
    }
    var a := Serialize(env, c.value);
    r := Ok(a);
  }

  /**
   * `ClassBuilder::buildClass`: the DTO class of the type, written to its
   * output path, unless two elements clash and `finalize` throws first.
   */
  method BuildDto(env: Env, u: Universe, id: TypeId) returns (r: Result<Artifact>)
    requires Resolvable(u, id)
    ensures r.Err? <==> ElementNamesClash(env.settings.accessors, u.types[id].elements)
    ensures r.Err? ==> r == Err(DUPLICATE_MEMBER)
    ensures r.Ok? ==> r.value == ArtifactOf(env, DtoClass(env, BuilderVariant, u, id))
  {
    var c := FinalizeDto(env, BuilderVariant, u, id);
    if c.Err? {
      return Err(c.error);
    }
    var a := Serialize(env, c.value);
    r := Ok(a);
  }

  /**
   * The builder and the factory write the DTO of a type to the same file,
   * under the same name and namespace, with the same parent.
   */
  lemma BuilderAndFactoryWriteSameFile(env: Env, u: Universe, id: TypeId)
    requires Resolvable(u, id)
    ensures var b := ArtifactOf(env, DtoClass(env, BuilderVariant, u, id));
      var f := ArtifactOf(env, DtoClass(env, FactoryVariant, u, id));
      && b.path == f.path && b.cls.name == f.cls.name && b.cls.namespace == f.cls.namespace
      && b.cls.parent == f.cls.parent
  {
  }
}
