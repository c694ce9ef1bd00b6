/**
 * Enum classes: `EnumBuilder::finalize` and the same steps in
 * `ClassFactory::createEnum`.  One class constant per `enumeration` facet of
 * the type's restriction, and the parent-class rule.
 */
module Enums {
  import opened Wrappers
  import opened Php
  import opened Xsd
  import opened Configuration
  import opened Inflection
  import opened Naming
  import opened Descriptors

  const SPL_ENUM: string := "\\SplEnum"
  const ENUMERATION: string := "enumeration"

  /**
   * The parent of an enum: the restriction base's own name when the base is
   * not an XSD primitive (the enum extends another enum), else `\SplEnum`
   * when SPL enums are configured, else none.
   */
  function EnumParent(s: Settings, u: Universe, baseId: TypeId): (p: Option<string>)
    requires HasSchema(u, baseId)
    ensures !IsXsd(View(u, baseId)) ==> p == Some(u.types[baseId].name)
    ensures IsXsd(View(u, baseId)) ==> (p.Some? <==> s.splEnums)
    ensures IsXsd(View(u, baseId)) && p.Some? ==> p.value == SPL_ENUM
  {
    if !IsXsd(View(u, baseId)) then Some(u.types[baseId].name)
    else if s.splEnums then Some(SPL_ENUM)
    else None
  }

  /** `$checks['enumeration']`: a missing key reads as null and the loop then runs zero times. */
  function EnumFacets(checks: map<string, seq<Facet>>): (fs: seq<Facet>)
    ensures ENUMERATION !in checks ==> fs == []
  {
    if ENUMERATION in checks then checks[ENUMERATION] else []
  }

  /** The constant of one facet: the sanitized name, the raw value, a docblock only for a truthy `doc`. */
  function ConstantFor(reserved: string -> bool, f: Facet): Constant {
    Constant(ConstantName(reserved, f.value), f.value, if Truthy(f.doc) then Some(f.doc) else None)
  }

  /** The constants of the facets, one per facet and in facet order. */
  function EnumConstants(reserved: string -> bool, facets: seq<Facet>): (cs: seq<Constant>)
    ensures |cs| == |facets|
    ensures forall i :: 0 <= i < |facets| ==>
      && cs[i].value == facets[i].value
      && cs[i].name == ConstantName(reserved, facets[i].value)
      && (cs[i].doc.Some? <==> Truthy(facets[i].doc))
      && (cs[i].doc.Some? ==> cs[i].doc.value == facets[i].doc)
  {
    if facets == [] then []
    else EnumConstants(reserved, facets[..|facets| - 1]) + [ConstantFor(reserved, facets[|facets| - 1])]
  }

  /** Two facets whose constant names coincide: adding the second constant throws. */
  predicate FacetNamesClash(reserved: string -> bool, facets: seq<Facet>) {
    exists i, j :: 0 <= i < j < |facets| && ConstantName(reserved, facets[i].value) == ConstantName(reserved, facets[j].value)
  }

  /** The constant names repeat exactly when two facets clash. */
  lemma EnumConstantsDistinct(reserved: string -> bool, facets: seq<Facet>)
    ensures Distinct(ConstantNames(EnumConstants(reserved, facets))) <==> !FacetNamesClash(reserved, facets)
  {
    var ns := ConstantNames(EnumConstants(reserved, facets));
    assert forall i :: 0 <= i < |facets| ==> ns[i] == ConstantName(reserved, facets[i].value);
  }

  /**
   * The enum class of a type.  `$type->getParent()->getBase()` on a type
   * without restriction calls a method on null: a fatal error; two facets
   * with the same constant name make the generator throw.
   */
  function EnumClass(env: Env, u: Universe, id: TypeId): (r: Result<ClassDescriptor>)
    requires Resolvable(u, id)
    ensures r.Err? <==>
      u.types[id].parent.None? || FacetNamesClash(env.reserved, EnumFacets(u.types[id].parent.value.checks))
    ensures u.types[id].parent.None? ==> r.Err? && r.error.Fatal?
    ensures u.types[id].parent.Some? && r.Err? ==> r.error == DUPLICATE_MEMBER
    ensures r.Ok? ==>
      var t := u.types[id];
      var base := ClassFromType(env, u, id);
      && r.value.name == t.name && r.value.namespace == base.namespace
      && r.value.xmlns == base.xmlns && r.value.doc == t.doc
      && r.value.parent == EnumParent(env.settings, u, t.parent.value.base)
      && r.value.constants == EnumConstants(env.reserved, EnumFacets(t.parent.value.checks))
      && !r.value.isAbstract && r.value.properties == [] && r.value.uses == [] && r.value.methods == []
      && r.value.template.None? && r.value.serviceTag.None?
  {
    var t := u.types[id];
    if t.parent.None? then Err(Fatal("Call to a member function getBase() on null"))
    else
      var c := ClassFromType(env, u, id).(
        parent := EnumParent(env.settings, u, t.parent.value.base),
        constants := EnumConstants(env.reserved, EnumFacets(t.parent.value.checks)));
      EnumConstantsDistinct(env.reserved, EnumFacets(t.parent.value.checks));
      assert MethodKeys([] + MethodNames(c.methods)) == [];
      if AcceptsMembers(c, []) then Ok(c) else Err(DUPLICATE_MEMBER)
  }

  /** `finalize`: set the parent, then add the constants one facet at a time. */
  method FinalizeEnum(env: Env, u: Universe, id: TypeId) returns (r: Result<ClassDescriptor>)
    requires Resolvable(u, id)
    ensures r == EnumClass(env, u, id)
  {
    var t := u.types[id];
    if t.parent.None? {
      return Err(Fatal("Call to a member function getBase() on null"));
    }
    var cls := NewClassFromType(env, u, id);
    cls := cls.(parent := EnumParent(env.settings, u, t.parent.value.base));
    var constants := ConstantLoop(env.reserved, EnumFacets(t.parent.value.checks));
    if constants.Err? {
      return Err(constants.error);
    }
    r := Ok(cls.(constants := constants.value));
  }

  /**
   * The facet loop of `finalize`: one constant per facet, appended in facet
   * order; a constant whose name is already taken throws.
   */
  method ConstantLoop(reserved: string -> bool, facets: seq<Facet>) returns (r: Result<seq<Constant>>)
    ensures r.Ok? <==> !FacetNamesClash(reserved, facets)
    ensures r.Ok? ==> r.value == EnumConstants(reserved, facets)
    ensures r.Err? ==> r.error == DUPLICATE_MEMBER
  {
    var cs: seq<Constant> := [];
    var i := 0;
    while i < |facets|
      invariant 0 <= i <= |facets|
      invariant cs == EnumConstants(reserved, facets[..i])
      invariant forall k :: 0 <= k < i ==> cs[k].name == ConstantName(reserved, facets[k].value)
      invariant !FacetNamesClash(reserved, facets[..i])
    {
      assert facets[..i + 1][..i] == facets[..i];
      var c := ConstantFor(reserved, facets[i]);
      if c.name in ConstantNames(cs) {
        var k :| 0 <= k < |cs| && ConstantNames(cs)[k] == c.name;
        assert ConstantName(reserved, facets[k].value) == ConstantName(reserved, facets[i].value);
        return Err(DUPLICATE_MEMBER);
      }
      ClashStep(reserved, facets, i);
      cs := cs + [c];
      i := i + 1;
    }
    assert facets[..i] == facets;
    r := Ok(cs);
  }

  /** One more facet clashes exactly when its name is one of the earlier facets' names. */
  lemma ClashStep(reserved: string -> bool, facets: seq<Facet>, i: nat)
    requires i < |facets|
    ensures FacetNamesClash(reserved, facets[..i + 1]) <==>
      FacetNamesClash(reserved, facets[..i]) ||
      exists k :: 0 <= k < i && ConstantName(reserved, facets[k].value) == ConstantName(reserved, facets[i].value)
  {
    var p := facets[..i + 1];
    assert forall k :: 0 <= k <= i ==> p[k] == facets[k];
    assert forall k :: 0 <= k < i ==> facets[..i][k] == facets[k];
  }

  /** A facet value with whitespace gives a constant name with `_` and keeps the raw value. */
  lemma ConstantKeepsRawValue(reserved: string -> bool)
    requires !reserved("on_hold")
    ensures ConstantFor(reserved, Facet("on hold", "")) == Constant("on_hold", "on hold", None)
  {
    assert SanitizeVariableName("on hold") == "on_hold" by {
      assert SanitizeVariableName("on hold")[2] == '_';
    }
  }

  /** The facets `on hold` and `on_hold` name the same constant: the enum class is rejected. */
  lemma SpaceAndUnderscoreFacetsClash(reserved: string -> bool)
    requires !reserved("on_hold")
    ensures FacetNamesClash(reserved, [Facet("on hold", ""), Facet("on_hold", "")])
  {
    ConstantKeepsRawValue(reserved);
    assert SanitizeVariableName("on_hold") == "on_hold";
    var fs := [Facet("on hold", ""), Facet("on_hold", "")];
    assert ConstantName(reserved, fs[0].value) == ConstantName(reserved, fs[1].value);
  }
}
