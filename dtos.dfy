/**
 * Data-transfer classes: `ClassBuilder::finalize` and the same loop in
 * `ClassFactory::createDTO`.  Per schema element, in element order: a
 * property, a constructor parameter with its `@param` tag, an assignment
 * line of the constructor body, possibly a use-import, and with accessors
 * on a setter and a getter.
 */
module Dtos {
  import opened Wrappers
  import opened Php
  import opened Xsd
  import opened Configuration
  import opened Inflection
  import opened Naming
  import opened Descriptors

  /**
   * The two copies of the loop differ in three places.  The builder hints a
   * parameter with the type object and nulls it only for `nillable`; the
   * factory hints it with the qualified name, nulls it also when
   * `nullConstructorArguments` is set, and documents every property with
   * the documentation of the type instead of that of the element.
   */
  datatype Variant = BuilderVariant | FactoryVariant

  /** What the element loop reads besides the element. */
  datatype Context = Context(env: Env, variant: Variant, u: Universe, typeDoc: string, classNamespace: Option<string>)

  const CONSTRUCTOR: string := "__construct"

  predicate ElementsResolvable(u: Universe, els: seq<Element>) {
    forall i :: 0 <= i < |els| ==> HasSchema(u, els[i].elementType)
  }

  /** `$this->{name} = ${name};`, with the raw element name. */
  function AssignmentText(name: string): string {
    "$this->" + name + " = $" + name + ";"
  }

  lemma AssignmentTextLine(name: string)
    requires '\n' !in name
    ensures '\n' !in AssignmentText(name)
  {
    var t := AssignmentText(name);
    forall j | 0 <= j < |t| ensures t[j] != '\n' {
      if 7 <= j < 7 + |name| {
        assert t[j] == name[j - 7];
      } else if 7 + |name| + 4 <= j < 7 + |name| + 4 + |name| {
        assert t[j] == name[j - 11 - |name|];
      }
    }
  }

  /** The parameter of an element: raw name, the variant's hint and nullability. */
  function ParamFor(ctx: Context, e: Element): Parameter
    requires HasSchema(ctx.u, e.elementType)
  {
    var v := View(ctx.u, e.elementType);
    var s := ctx.env.settings;
    match ctx.variant
    case BuilderVariant => Parameter(e.name, HintType(v), e.nil)
    case FactoryVariant =>
      Parameter(e.name, HintName(InflectQualifiedName(s, ctx.env.parseUrl, v)), e.nil || IsOn(s.nullConstructorArguments))
  }

  function TagFor(ctx: Context, e: Element): ParamTag
    requires HasSchema(ctx.u, e.elementType)
  {
    ParamTag(e.name, InflectDocBlockQualifiedName(ctx.env.settings, ctx.env.parseUrl, View(ctx.u, e.elementType)))
  }

  /** The property of an element: its name with whitespace replaced, protected exactly when accessors are generated. */
  function PropertyFor(ctx: Context, e: Element): Property
    requires HasSchema(ctx.u, e.elementType)
  {
    Property(
      SanitizeVariableName(e.name),
      if ctx.env.settings.accessors then Protected else Public,
      TagFor(ctx, e).typeName,
      if ctx.variant.BuilderVariant? then e.doc else ctx.typeDoc)
  }

  /** The use-import condition: a non-XSD element type whose namespace differs from the class's. */
  predicate NeedsUse(ctx: Context, e: Element)
    requires HasSchema(ctx.u, e.elementType)
  {
    var v := View(ctx.u, e.elementType);
    !IsXsd(v) && TypeNamespace(ctx.env.settings, ctx.env.parseUrl, v) != ctx.classNamespace
  }

  /** The imports one element adds: its qualified type name, or nothing. */
  function UseFor(ctx: Context, e: Element): (us: seq<string>)
    requires HasSchema(ctx.u, e.elementType)
    ensures |us| == (if NeedsUse(ctx, e) then 1 else 0)
  {
    if NeedsUse(ctx, e) then [InflectQualifiedName(ctx.env.settings, ctx.env.parseUrl, View(ctx.u, e.elementType))]
    else []
  }

  /** With accessors on: `set` and `get` with the raw name's first letter upper-cased. */
  function AccessorsFor(ctx: Context, e: Element): (ms: seq<Method>)
    requires HasSchema(ctx.u, e.elementType)
    ensures |ms| == (if ctx.env.settings.accessors then 2 else 0)
  {
    if ctx.env.settings.accessors then
      [ Method("set" + UcFirst(e.name), [ParamFor(ctx, e)], [TagFor(ctx, e)], None, AssignmentText(e.name), ""),
        Method("get" + UcFirst(e.name), [], [], Some(TagFor(ctx, e).typeName), "return $this->" + e.name + ";", "") ]
    else []
  }


  /** What one element contributes. */
  datatype ElementParts = ElementParts(
    property: Property,
    uses: seq<string>,
    param: Parameter,
    tag: ParamTag,
    line: string,
    accessors: seq<Method>)

  function PartsFor(ctx: Context, e: Element): ElementParts
    requires HasSchema(ctx.u, e.elementType)
  {
    ElementParts(PropertyFor(ctx, e), UseFor(ctx, e), ParamFor(ctx, e), TagFor(ctx, e),
      AssignmentText(e.name), AccessorsFor(ctx, e))
  }

  /** The contribution of each element, in element order. */
  function ElementsParts(ctx: Context, els: seq<Element>): (ps: seq<ElementParts>)
    requires ElementsResolvable(ctx.u, els)
    ensures |ps| == |els|
  {
    if els == [] then []
    else
      var prefix := els[..|els| - 1];
      assert ElementsResolvable(ctx.u, prefix) by {
        assert forall i :: 0 <= i < |prefix| ==> prefix[i] == els[i];
      }
      ElementsParts(ctx, prefix) + [PartsFor(ctx, els[|els| - 1])]
  }

  /** The i-th contribution is that of the i-th element. */
  lemma {:induction false} ElementsPartsPointwise(ctx: Context, els: seq<Element>, i: int)
    requires ElementsResolvable(ctx.u, els) && 0 <= i < |els|
    ensures ElementsParts(ctx, els)[i] == PartsFor(ctx, els[i])
  {
    var prefix := els[..|els| - 1];
    assert ElementsResolvable(ctx.u, prefix) by {
      assert forall j :: 0 <= j < |prefix| ==> prefix[j] == els[j];
    }
    if i < |els| - 1 {
      ElementsPartsPointwise(ctx, prefix, i);
      assert prefix[i] == els[i];
    }
  }

  /**
   * Everything the element loop gathers; `lines` are the texts of the
   * constructor's assignment lines.
   */
  datatype Members = Members(
    properties: seq<Property>,
    uses: seq<string>,
    params: seq<Parameter>,
    tags: seq<ParamTag>,
    lines: seq<string>,
    accessors: seq<Method>)

  /** The contributions appended to each list in turn. */
  function Gather(ps: seq<ElementParts>): Members {
    if ps == [] then Members([], [], [], [], [], [])
    else
      var m := Gather(ps[..|ps| - 1]);
      var p := ps[|ps| - 1];
      Members(m.properties + [p.property], m.uses + p.uses, m.params + [p.param],
        m.tags + [p.tag], m.lines + [p.line], m.accessors + p.accessors)
  }

  /** The members of a run of elements. */
  function CollectMembers(ctx: Context, els: seq<Element>): Members
    requires ElementsResolvable(ctx.u, els)
  {
    Gather(ElementsParts(ctx, els))
  }

  /** One property, parameter, tag and line per contribution, in order. */
  lemma {:induction false} GatherPointwise(ps: seq<ElementParts>)
    ensures var m := Gather(ps);
      && |m.properties| == |ps| && |m.params| == |ps| && |m.tags| == |ps| && |m.lines| == |ps|
      && forall i :: 0 <= i < |ps| ==>
           m.properties[i] == ps[i].property && m.params[i] == ps[i].param
           && m.tags[i] == ps[i].tag && m.lines[i] == ps[i].line
  {
    if ps != [] {
      var prefix := ps[..|ps| - 1];
      GatherPointwise(prefix);
      assert forall i :: 0 <= i < |prefix| ==> prefix[i] == ps[i];
    }
  }

  /** Pairs of accessors stay in order; no contribution with accessors gives none in all. */
  lemma {:induction false} GatherAccessors(ps: seq<ElementParts>, pair: bool)
    requires forall i :: 0 <= i < |ps| ==> |ps[i].accessors| == (if pair then 2 else 0)
    ensures var a := Gather(ps).accessors;
      && |a| == (if pair then 2 * |ps| else 0)
      && (pair ==> forall i :: 0 <= i < |ps| ==> a[2 * i] == ps[i].accessors[0] && a[2 * i + 1] == ps[i].accessors[1])
  {
    if ps != [] {
      var prefix := ps[..|ps| - 1];
      assert forall i :: 0 <= i < |prefix| ==> prefix[i] == ps[i];
      GatherAccessors(prefix, pair);
      var a := Gather(ps).accessors;
      var p := Gather(prefix).accessors;
      var b := ps[|ps| - 1].accessors;
      assert a == p + b;
      if pair {
        forall i | 0 <= i < |ps|
          ensures a[2 * i] == ps[i].accessors[0] && a[2 * i + 1] == ps[i].accessors[1]
        {
          if i < |prefix| {
            assert a[2 * i] == p[2 * i] && a[2 * i + 1] == p[2 * i + 1];
          } else {
            assert a[2 * i] == b[0] && a[2 * i + 1] == b[1];
          }
        }
      }
    }
  }

  /** The imports are exactly those of the contributions. */
  lemma {:induction false} GatherUses(ps: seq<ElementParts>)
    ensures forall x :: x in Gather(ps).uses <==> exists i :: 0 <= i < |ps| && x in ps[i].uses
  {
    if ps != [] {
      var prefix := ps[..|ps| - 1];
      assert forall i :: 0 <= i < |prefix| ==> prefix[i] == ps[i];
      GatherUses(prefix);
      assert Gather(ps).uses == Gather(prefix).uses + ps[|ps| - 1].uses;
      forall x | x in Gather(ps).uses ensures exists i :: 0 <= i < |ps| && x in ps[i].uses {
        if x !in Gather(prefix).uses {
          assert x in ps[|ps| - 1].uses;
        }
      }
    }
  }

  /** The parent of a DTO: the extension base's name when there is a base outside XSD. */
  function DtoParent(u: Universe, id: TypeId): (p: Option<string>)
    requires Resolvable(u, id)
    ensures p.Some? <==> u.types[id].parent.Some? && !IsXsd(View(u, u.types[id].parent.value.base))
    ensures p.Some? ==> p.value == u.types[u.types[id].parent.value.base].name
  {
    var t := u.types[id];
    if t.parent.Some? && !IsXsd(View(u, t.parent.value.base)) then Some(u.types[t.parent.value.base].name) else None
  }

  /** The constructor: every parameter and tag, and the assignments as its body. */
  function ConstructorFor(m: Members): Method {
    Method(CONSTRUCTOR, m.params, m.tags, None, Unlines(m.lines), "")
  }

  function ContextFor(env: Env, variant: Variant, u: Universe, id: TypeId): Context
    requires Resolvable(u, id)
  {
    Context(env, variant, u, u.types[id].doc, ClassFromType(env, u, id).namespace)
  }

  /**
   * The DTO class of a type: the skeleton, the parent, the abstract flag,
   * the constructor first and the accessors after it.
   */
  function DtoClass(env: Env, variant: Variant, u: Universe, id: TypeId): (c: ClassDescriptor)
    requires Resolvable(u, id)
    ensures var t := u.types[id];
      && c.name == t.name && c.namespace == ClassFromType(env, u, id).namespace
      && c.parent == DtoParent(u, id) && c.isAbstract == t.isAbstract && c.constants == []
      && |c.methods| >= 1 && c.methods[0].name == CONSTRUCTOR
  {
    var t := u.types[id];
    var m := CollectMembers(ContextFor(env, variant, u, id), t.elements);
    ClassFromType(env, u, id).(
      parent := DtoParent(u, id),
      isAbstract := t.isAbstract,
      properties := m.properties,
      uses := m.uses,
      methods := [ConstructorFor(m)] + m.accessors)
  }

  /**
   * Two elements whose members coincide: the same property name once
   * whitespace is replaced, or, with accessors on, names equal up to case,
   * which give setters and getters equal up to case.
   */
  predicate ElementNamesClash(accessors: bool, els: seq<Element>) {
    || (exists i, j :: 0 <= i < j < |els| && SanitizeVariableName(els[i].name) == SanitizeVariableName(els[j].name))
    || (accessors && exists i, j :: 0 <= i < j < |els| && ToLower(els[i].name) == ToLower(els[j].name))
  }

  /**
   * The DTO class as the generator lets it through: `DtoClass`, unless two
   * of its members share a name, when `addPropertyFromGenerator` or
   * `addMethodFromGenerator` throws.
   */
  function DtoResult(env: Env, variant: Variant, u: Universe, id: TypeId): (r: Result<ClassDescriptor>)
    requires Resolvable(u, id)
    ensures r.Err? <==> ElementNamesClash(env.settings.accessors, u.types[id].elements)
    ensures r.Err? ==> r.error == DUPLICATE_MEMBER
    ensures r.Ok? ==> r.value == DtoClass(env, variant, u, id)
  {
    DtoMembersAccepted(env, variant, u, id);
    var c := DtoClass(env, variant, u, id);
    if AcceptsMembers(c, []) then Ok(c) else Err(DUPLICATE_MEMBER)
  }

  /** The generator accepts the DTO class exactly when no two elements clash. */
  lemma DtoMembersAccepted(env: Env, variant: Variant, u: Universe, id: TypeId)
    requires Resolvable(u, id)
    ensures AcceptsMembers(DtoClass(env, variant, u, id), []) <==>
      !ElementNamesClash(env.settings.accessors, u.types[id].elements)
  {
    var c := DtoClass(env, variant, u, id);
    DtoPropertyNames(env, variant, u, id);
    DtoMethodKeys(env, variant, u, id);
    assert [] + MethodNames(c.methods) == MethodNames(c.methods);
  }

  /** The property names repeat exactly when two element names do once whitespace is replaced. */
  lemma DtoPropertyNames(env: Env, variant: Variant, u: Universe, id: TypeId)
    requires Resolvable(u, id)
    ensures var els := u.types[id].elements;
      Distinct(PropertyNames(DtoClass(env, variant, u, id).properties)) <==>
        !exists i, j :: 0 <= i < j < |els| && SanitizeVariableName(els[i].name) == SanitizeVariableName(els[j].name)
  {
    var els := u.types[id].elements;
    DtoProperties(env, variant, u, id);
    var pn := PropertyNames(DtoClass(env, variant, u, id).properties);
    SanitizedNamesDistinct(pn, els);
  }

  lemma SanitizedNamesDistinct(pn: seq<string>, els: seq<Element>)
    requires |pn| == |els| && forall i :: 0 <= i < |els| ==> pn[i] == SanitizeVariableName(els[i].name)
    ensures Distinct(pn) <==>
      !exists i, j :: 0 <= i < j < |els| && SanitizeVariableName(els[i].name) == SanitizeVariableName(els[j].name)
  {
  }

  /** The method keys repeat exactly when accessors are on and two element names agree up to case. */
  lemma DtoMethodKeys(env: Env, variant: Variant, u: Universe, id: TypeId)
    requires Resolvable(u, id)
    ensures var els := u.types[id].elements;
      Distinct(MethodKeys(MethodNames(DtoClass(env, variant, u, id).methods))) <==>
        !(env.settings.accessors && exists i, j :: 0 <= i < j < |els| && ToLower(els[i].name) == ToLower(els[j].name))
  {
    var c := DtoClass(env, variant, u, id);
    var els := u.types[id].elements;
    DtoAccessorCount(env, variant, u, id);
    if env.settings.accessors {
      forall i | 0 <= i < |els|
        ensures c.methods[1 + 2 * i].name == "set" + UcFirst(els[i].name)
        ensures c.methods[2 + 2 * i].name == "get" + UcFirst(els[i].name)
      {
        DtoAccessorPairs(env, variant, u, id, i);
      }
      AccessorKeysDistinct(els, c.methods);
    } else {
      assert |MethodKeys(MethodNames(c.methods))| == 1;
    }
  }

  /** The method keys of the `i`-th accessor pair. */
  lemma AccessorKeys(els: seq<Element>, ms: seq<Method>, i: int)
    requires |ms| == 1 + 2 * |els| && 0 <= i < |els|
    requires ms[1 + 2 * i].name == "set" + UcFirst(els[i].name) && ms[2 + 2 * i].name == "get" + UcFirst(els[i].name)
    ensures MethodKeys(MethodNames(ms))[1 + 2 * i] == "set" + ToLower(els[i].name)
    ensures MethodKeys(MethodNames(ms))[2 + 2 * i] == "get" + ToLower(els[i].name)
  {
    ToLowerConcat("set", UcFirst(els[i].name));
    ToLowerConcat("get", UcFirst(els[i].name));
    ToLowerUcFirst(els[i].name);
    assert ToLower("set") == "set" && ToLower("get") == "get";
  }

  /** A key after the constructor's is that of a setter or a getter, and they differ in their first letter. */
  lemma AccessorKeyAt(els: seq<Element>, ms: seq<Method>, m: int) returns (i: int, setter: bool)
    requires |ms| == 1 + 2 * |els|
    requires forall i :: 0 <= i < |els| ==>
      ms[1 + 2 * i].name == "set" + UcFirst(els[i].name) && ms[2 + 2 * i].name == "get" + UcFirst(els[i].name)
    requires 1 <= m < |ms|
    ensures 0 <= i < |els| && m == (if setter then 1 + 2 * i else 2 + 2 * i)
    ensures MethodKeys(MethodNames(ms))[m] == (if setter then "set" else "get") + ToLower(els[i].name)
  {
    i := (m - 1) / 2;
    setter := m == 1 + 2 * i;
    AccessorKeys(els, ms, i);
  }

  /** The keys of a constructor followed by accessor pairs repeat exactly when two names agree up to case. */
  lemma AccessorKeysDistinct(els: seq<Element>, ms: seq<Method>)
    requires |ms| == 1 + 2 * |els| && ms[0].name == CONSTRUCTOR
    requires forall i :: 0 <= i < |els| ==>
      ms[1 + 2 * i].name == "set" + UcFirst(els[i].name) && ms[2 + 2 * i].name == "get" + UcFirst(els[i].name)
    ensures Distinct(MethodKeys(MethodNames(ms))) <==>
      !exists i, j :: 0 <= i < j < |els| && ToLower(els[i].name) == ToLower(els[j].name)
  {
    if exists i, j :: 0 <= i < j < |els| && ToLower(els[i].name) == ToLower(els[j].name) {
      var i, j :| 0 <= i < j < |els| && ToLower(els[i].name) == ToLower(els[j].name);
      SettersClash(els, ms, i, j);
    }
    if !Distinct(MethodKeys(MethodNames(ms))) {
      KeysClash(els, ms);
    }
  }

  lemma SettersClash(els: seq<Element>, ms: seq<Method>, i: int, j: int)
    requires |ms| == 1 + 2 * |els| && 0 <= i < j < |els| && ToLower(els[i].name) == ToLower(els[j].name)
    requires ms[1 + 2 * i].name == "set" + UcFirst(els[i].name) && ms[2 + 2 * i].name == "get" + UcFirst(els[i].name)
    requires ms[1 + 2 * j].name == "set" + UcFirst(els[j].name) && ms[2 + 2 * j].name == "get" + UcFirst(els[j].name)
    ensures !Distinct(MethodKeys(MethodNames(ms)))
  {
    AccessorKeys(els, ms, i);
    AccessorKeys(els, ms, j);
    var ks := MethodKeys(MethodNames(ms));
    assert ks[1 + 2 * i] == ks[1 + 2 * j];
  }

  lemma KeysClash(els: seq<Element>, ms: seq<Method>)
    requires |ms| == 1 + 2 * |els| && ms[0].name == CONSTRUCTOR
    requires forall i :: 0 <= i < |els| ==>
      ms[1 + 2 * i].name == "set" + UcFirst(els[i].name) && ms[2 + 2 * i].name == "get" + UcFirst(els[i].name)
    requires !Distinct(MethodKeys(MethodNames(ms)))
    ensures exists i, j :: 0 <= i < j < |els| && ToLower(els[i].name) == ToLower(els[j].name)
  {
    var ks := MethodKeys(MethodNames(ms));
    var p, q :| 0 <= p < q < |ks| && ks[p] == ks[q];
    var j, sq := AccessorKeyAt(els, ms, q);
    assert ks[q][0] == (if sq then 's' else 'g');
    assert ks[0] == ToLower(CONSTRUCTOR);
    assert p != 0;
    var i, sp := AccessorKeyAt(els, ms, p);
    assert ks[p][0] == (if sp then 's' else 'g');
    assert sp == sq;
    assert ks[p][3..] == ToLower(els[i].name) && ks[q][3..] == ToLower(els[j].name);
    assert i < j;
  }

  /** A sequence that repeats an element name, as XSD allows, gives two equal properties: the class is rejected. */
  lemma RepeatedElementRejected(env: Env, variant: Variant, u: Universe, id: TypeId, i: int, j: int)
    requires Resolvable(u, id) && 0 <= i < j < |u.types[id].elements|
    requires u.types[id].elements[i].name == u.types[id].elements[j].name
    ensures DtoResult(env, variant, u, id) == Err(DUPLICATE_MEMBER)
  {
    var els := u.types[id].elements;
    assert SanitizeVariableName(els[i].name) == SanitizeVariableName(els[j].name);
  }

  /**
   * Two elements whose names differ only in the case of their first letter,
   * such as `fooBar` and `FooBar`, have two properties, but with accessors
   * on both ask for `setFooBar`: the class is rejected only then.
   */
  lemma AccessorsClashUpToCase(t: TypeId, c: char, tail: string)
    requires IsAsciiLower(c)
    ensures var els := [Element([c] + tail, t, false, ""), Element([UpperChar(c)] + tail, t, false, "")];
      ElementNamesClash(true, els) && !ElementNamesClash(false, els)
  {
    var lower, upper := [c] + tail, [UpperChar(c)] + tail;
    var els := [Element(lower, t, false, ""), Element(upper, t, false, "")];
    assert ToLower(lower) == ToLower(upper) by {
      forall i | 0 <= i < |lower| ensures ToLower(lower)[i] == ToLower(upper)[i] {
        if i > 0 {
          assert lower[i] == upper[i];
        }
      }
    }
    assert ToLower(els[0].name) == ToLower(els[1].name);
    assert SanitizeVariableName(lower)[0] != SanitizeVariableName(upper)[0];
    assert |els| == 2;
  }

  /**
   * The element loop of `finalize`, run over the members each element
   * contributes (computed by `PartsFor`): every contribution is appended in
   * element order, and the constructor body grows by one line per element.
   */
  method ElementLoop(ps: seq<ElementParts>)
    returns (properties: seq<Property>, uses: seq<string>, params: seq<Parameter>, tags: seq<ParamTag>,
             body: string, accessors: seq<Method>)
    ensures var m := Gather(ps);
      && properties == m.properties && uses == m.uses && params == m.params && tags == m.tags
      && body == Unlines(m.lines) && accessors == m.accessors
  {
    properties, uses, params, tags, body, accessors := [], [], [], [], "", [];
    ghost var lines: seq<string> := [];
    var i := 0;
    while i < |ps|
      invariant 0 <= i <= |ps|
      invariant Members(properties, uses, params, tags, lines, accessors) == Gather(ps[..i])
      invariant body == Unlines(lines)
    {
      var p := ps[i];
      assert ps[..i + 1][..i] == ps[..i];
      UnlinesAppend(lines, p.line);
      properties := properties + [p.property];
      uses := uses + p.uses;
      params := params + [p.param];
      tags := tags + [p.tag];
      body := body + p.line + LINE_FEED;
      lines := lines + [p.line];
      accessors := accessors + p.accessors;
      i := i + 1;
    }
    assert ps[..i] == ps;
  }

  /** `finalize`: the parent, the abstract flag, then the element loop, then the constructor body. */
  method FinalizeDto(env: Env, variant: Variant, u: Universe, id: TypeId) returns (r: Result<ClassDescriptor>)
    requires Resolvable(u, id)
    ensures r == DtoResult(env, variant, u, id)
  {
    var t := u.types[id];
    var ctx := ContextFor(env, variant, u, id);
    var c := NewClassFromType(env, u, id);
    c := c.(parent := DtoParent(u, id), isAbstract := t.isAbstract);
    var properties, uses, params, tags, body, accessors := ElementLoop(ElementsParts(ctx, t.elements));
    c := c.(properties := properties, uses := uses,
      methods := [Method(CONSTRUCTOR, params, tags, None, body, "")] + accessors);
    if !AcceptsMembers(c, []) {
      return Err(DUPLICATE_MEMBER);
    }
    r := Ok(c);
  }

  /** The members of the DTO class of a type, as the element loop gathers them. */
  function DtoMembers(env: Env, variant: Variant, u: Universe, id: TypeId): Members
    requires Resolvable(u, id)
  {
    CollectMembers(ContextFor(env, variant, u, id), u.types[id].elements)
  }

  /** What one element contributes, in the terms of the element. */
  lemma PartsForFacts(ctx: Context, e: Element)
    requires HasSchema(ctx.u, e.elementType)
    ensures var p := PartsFor(ctx, e); var s := ctx.env.settings; var v := View(ctx.u, e.elementType);
      && p.property.name == SanitizeVariableName(e.name)
      && p.property.visibility == (if s.accessors then Protected else Public)
      && p.property.varTag == InflectDocBlockQualifiedName(s, ctx.env.parseUrl, v)
      && p.property.doc == (if ctx.variant.BuilderVariant? then e.doc else ctx.typeDoc)
      && p.param.name == e.name
      && p.param.defaultsToNull == (e.nil || (ctx.variant.FactoryVariant? && IsOn(s.nullConstructorArguments)))
      && p.param.hint == (if ctx.variant.BuilderVariant? then HintType(v)
                          else HintName(InflectQualifiedName(s, ctx.env.parseUrl, v)))
      && p.tag == ParamTag(e.name, p.property.varTag)
      && p.line == AssignmentText(e.name)
      && (s.accessors ==>
           && |p.accessors| == 2
           && p.accessors[0] == Method("set" + UcFirst(e.name), [p.param], [p.tag], None, p.line, "")
           && p.accessors[1] == Method("get" + UcFirst(e.name), [], [], Some(p.property.varTag),
                                       "return $this->" + e.name + ";", ""))
      && (!s.accessors ==> p.accessors == [])
      && (p.uses == if NeedsUse(ctx, e) then [InflectQualifiedName(s, ctx.env.parseUrl, v)] else [])
  {
  }

  /**
   * One property per element, in element order: the element name with
   * whitespace replaced, protected exactly when accessors are on, typed by
   * the docblock name of the element type, documented by the element
   * (builder) or by the type (factory).
   */
  lemma DtoProperties(env: Env, variant: Variant, u: Universe, id: TypeId)
    requires Resolvable(u, id)
    ensures var c := DtoClass(env, variant, u, id); var els := u.types[id].elements;
      && |c.properties| == |els|
      && forall i :: 0 <= i < |els| ==>
           && c.properties[i].name == SanitizeVariableName(els[i].name)
           && c.properties[i].visibility == (if env.settings.accessors then Protected else Public)
           && c.properties[i].varTag == InflectDocBlockQualifiedName(env.settings, env.parseUrl, View(u, els[i].elementType))
           && c.properties[i].doc == (if variant.BuilderVariant? then els[i].doc else u.types[id].doc)
  {
    var ctx := ContextFor(env, variant, u, id);
    var els := u.types[id].elements;
    var ps := ElementsParts(ctx, els);
    GatherPointwise(ps);
    forall i | 0 <= i < |els| ensures ps[i].property == PartsFor(ctx, els[i]).property {
      ElementsPartsPointwise(ctx, els, i);
      PartsForFacts(ctx, els[i]);
    }
  }

  /**
   * The constructor takes one parameter per element, named as the element,
   * hinted and nulled as the variant says, each with its `@param` tag, and
   * returns nothing.
   */
  lemma DtoConstructor(env: Env, variant: Variant, u: Universe, id: TypeId)
    requires Resolvable(u, id)
    ensures var k := DtoClass(env, variant, u, id).methods[0]; var els := u.types[id].elements; var s := env.settings;
      && k.name == CONSTRUCTOR && k.returnTag.None?
      && |k.params| == |els| && |k.paramTags| == |els|
      && forall i :: 0 <= i < |els| ==>
           var v := View(u, els[i].elementType);
           && k.params[i].name == els[i].name
           && k.params[i].defaultsToNull == (els[i].nil || (variant.FactoryVariant? && IsOn(s.nullConstructorArguments)))
           && k.params[i].hint == (if variant.BuilderVariant? then HintType(v) else HintName(InflectQualifiedName(s, env.parseUrl, v)))
           && k.paramTags[i] == ParamTag(els[i].name, InflectDocBlockQualifiedName(s, env.parseUrl, v))
  {
    var ctx := ContextFor(env, variant, u, id);
    var els := u.types[id].elements;
    var ps := ElementsParts(ctx, els);
    GatherPointwise(ps);
    forall i | 0 <= i < |els| ensures ps[i].param == PartsFor(ctx, els[i]).param && ps[i].tag == PartsFor(ctx, els[i]).tag {
      ElementsPartsPointwise(ctx, els, i);
      PartsForFacts(ctx, els[i]);
    }
  }

  /**
   * The constructor body is one assignment line per element, in element
   * order, each ended by a line feed (for element names without one).
   */
  lemma DtoConstructorBody(env: Env, variant: Variant, u: Universe, id: TypeId)
    requires Resolvable(u, id)
    requires forall i :: 0 <= i < |u.types[id].elements| ==> '\n' !in u.types[id].elements[i].name
    ensures var lines := Explode('\n', DtoClass(env, variant, u, id).methods[0].body); var els := u.types[id].elements;
      && |lines| == |els| + 1 && lines[|els|] == ""
      && forall i :: 0 <= i < |els| ==> lines[i] == AssignmentText(els[i].name)
  {
    var ctx := ContextFor(env, variant, u, id);
    var els := u.types[id].elements;
    var ps := ElementsParts(ctx, els);
    var m := Gather(ps);
    GatherPointwise(ps);
    forall i | 0 <= i < |els| ensures m.lines[i] == AssignmentText(els[i].name) {
      ElementsPartsPointwise(ctx, els, i);
      PartsForFacts(ctx, els[i]);
    }
    forall i | 0 <= i < |m.lines| ensures '\n' !in m.lines[i] {
      AssignmentTextLine(els[i].name);
    }
    ExplodeUnlines(m.lines);
    assert DtoClass(env, variant, u, id).methods[0].body == Unlines(m.lines);
  }

  /** After the constructor come the accessors: none when they are off, two per element when on. */
  lemma DtoAccessorCount(env: Env, variant: Variant, u: Universe, id: TypeId)
    requires Resolvable(u, id)
    ensures |DtoClass(env, variant, u, id).methods| == 1 + (if env.settings.accessors then 2 * |u.types[id].elements| else 0)
  {
    var ctx := ContextFor(env, variant, u, id);
    var els := u.types[id].elements;
    var ps := ElementsParts(ctx, els);
    AccessorsPerElement(ctx, els);
    GatherAccessors(ps, env.settings.accessors);
  }

  lemma AccessorsPerElement(ctx: Context, els: seq<Element>)
    requires ElementsResolvable(ctx.u, els)
    ensures forall j :: 0 <= j < |els| ==>
      |ElementsParts(ctx, els)[j].accessors| == (if ctx.env.settings.accessors then 2 else 0)
  {
    var ps := ElementsParts(ctx, els);
    forall j | 0 <= j < |ps| ensures |ps[j].accessors| == (if ctx.env.settings.accessors then 2 else 0) {
      ElementsPartsPointwise(ctx, els, j);
      PartsForFacts(ctx, els[j]);
    }
  }

  /** The accessor pair of the i-th element among the gathered members. */
  lemma MembersAccessorPair(ctx: Context, els: seq<Element>, i: int)
    requires ElementsResolvable(ctx.u, els) && ctx.env.settings.accessors && 0 <= i < |els|
    ensures var m := CollectMembers(ctx, els); var e := els[i];
      && |m.accessors| == 2 * |els| && |m.properties| == |els| && |m.params| == |els| && |m.tags| == |els|
      && m.accessors[2 * i] == Method("set" + UcFirst(e.name), [m.params[i]], [m.tags[i]], None, AssignmentText(e.name), "")
      && m.accessors[2 * i + 1] ==
           Method("get" + UcFirst(e.name), [], [], Some(m.properties[i].varTag), "return $this->" + e.name + ";", "")
  {
    var ps := ElementsParts(ctx, els);
    AccessorsPerElement(ctx, els);
    GatherAccessors(ps, true);
    GatherPointwise(ps);
    ElementsPartsPointwise(ctx, els, i);
    PartsForFacts(ctx, els[i]);
  }

  /**
   * With accessors on, the methods after the constructor are, per element
   * in order, a setter `set<Name>` taking the constructor's parameter and
   * assigning it, then a getter `get<Name>` returning the property with the
   * property's type as `@return`.
   */
  lemma DtoAccessorPairs(env: Env, variant: Variant, u: Universe, id: TypeId, i: int)
    requires Resolvable(u, id) && env.settings.accessors && 0 <= i < |u.types[id].elements|
    ensures var c := DtoClass(env, variant, u, id); var e := u.types[id].elements[i];
      && |c.methods| == 1 + 2 * |u.types[id].elements| && i < |c.properties| && i < |c.methods[0].params|
      && i < |c.methods[0].paramTags|
      && c.methods[1 + 2 * i] ==
           Method("set" + UcFirst(e.name), [c.methods[0].params[i]], [c.methods[0].paramTags[i]], None, AssignmentText(e.name), "")
      && c.methods[2 + 2 * i] ==
           Method("get" + UcFirst(e.name), [], [], Some(c.properties[i].varTag), "return $this->" + e.name + ";", "")
  {
    var m := DtoMembers(env, variant, u, id);
    MembersAccessorPair(ContextFor(env, variant, u, id), u.types[id].elements, i);
    var c := DtoClass(env, variant, u, id);
    assert c.methods == [ConstructorFor(m)] + m.accessors && c.properties == m.properties;
  }

  /**
   * The use-imports are exactly the qualified names of the element types
   * that are not XSD-owned and whose namespace differs from the class's.
   */
  lemma DtoUses(env: Env, variant: Variant, u: Universe, id: TypeId)
    requires Resolvable(u, id)
    ensures var c := DtoClass(env, variant, u, id); var els := u.types[id].elements;
      forall x :: x in c.uses <==>
        exists i :: 0 <= i < |els| && ForeignElementType(env, u, id, els[i])
                    && x == InflectQualifiedName(env.settings, env.parseUrl, View(u, els[i].elementType))
  {
    var ctx := ContextFor(env, variant, u, id);
    var els := u.types[id].elements;
    var ps := ElementsParts(ctx, els);
    GatherUses(ps);
    forall i | 0 <= i < |els|
      ensures ps[i].uses == if ForeignElementType(env, u, id, els[i])
        then [InflectQualifiedName(env.settings, env.parseUrl, View(u, els[i].elementType))] else []
    {
      ElementsPartsPointwise(ctx, els, i);
      PartsForFacts(ctx, els[i]);
    }
    forall x ensures x in DtoClass(env, variant, u, id).uses <==>
        exists i :: 0 <= i < |els| && ForeignElementType(env, u, id, els[i])
                    && x == InflectQualifiedName(env.settings, env.parseUrl, View(u, els[i].elementType))
    {
      if x in DtoClass(env, variant, u, id).uses {
        var i :| 0 <= i < |ps| && x in ps[i].uses;
      }
    }
  }

  /** An element type that is imported: not XSD-owned, and in another namespace than the class. */
  predicate ForeignElementType(env: Env, u: Universe, id: TypeId, e: Element)
    requires Resolvable(u, id) && HasSchema(u, e.elementType)
  {
    var v := View(u, e.elementType);
    !IsXsd(v) && TypeNamespace(env.settings, env.parseUrl, v) != ClassFromType(env, u, id).namespace
  }

  /**
   * Without a base namespace and without Axis namespaces every non-XSD type
   * has the namespace `''`, which is falsy: the class gets no namespace, yet
   * `''` differs from none, so every non-XSD element type is imported, under
   * its bare name.
   */
  lemma NoNamespaceImportsBareNames(env: Env, variant: Variant, u: Universe, id: TypeId)
    requires Resolvable(u, id)
    requires !TruthyOpt(env.settings.namespace) && !env.settings.axisNamespaces
    ensures var c := DtoClass(env, variant, u, id); var els := u.types[id].elements;
      && c.namespace.None?
      && forall x :: x in c.uses <==>
           exists i :: 0 <= i < |els| && !IsXsd(View(u, els[i].elementType)) && x == u.types[els[i].elementType].name
  {
    var els := u.types[id].elements;
    DtoUses(env, variant, u, id);
    assert ClassFromType(env, u, id).namespace.None? by {
      if !IsXsd(View(u, id)) {
        assert Segments(env.settings, env.parseUrl(NullText(View(u, id).targetNamespace))) == [];
      }
    }
    forall i | 0 <= i < |els|
      ensures ForeignElementType(env, u, id, els[i]) <==> !IsXsd(View(u, els[i].elementType))
      ensures InflectQualifiedName(env.settings, env.parseUrl, View(u, els[i].elementType)) == u.types[els[i].elementType].name
    {
      var v := View(u, els[i].elementType);
      if !IsXsd(v) {
        assert Segments(env.settings, env.parseUrl(NullText(v.targetNamespace))) == [];
        assert TypeNamespace(env.settings, env.parseUrl, v) == Some("");
      }
    }
  }

  /** A generic fact: contributions with the same imports give the same imports. */
  lemma {:induction false} GatherSameUses(ps: seq<ElementParts>, qs: seq<ElementParts>)
    requires |ps| == |qs| && forall i :: 0 <= i < |ps| ==> ps[i].uses == qs[i].uses
    ensures Gather(ps).uses == Gather(qs).uses
  {
    if ps != [] {
      var pp, qp := ps[..|ps| - 1], qs[..|qs| - 1];
      assert forall i :: 0 <= i < |pp| ==> pp[i] == ps[i] && qp[i] == qs[i];
      GatherSameUses(pp, qp);
    }
  }

  /**
   * The builder and the factory lay out a type alike: the same properties
   * by name and visibility, the same imports, the same constructor body and
   * as many methods; they differ only in hints, nullability and docs.
   */
  lemma VariantsShareLayout(env: Env, u: Universe, id: TypeId)
    requires Resolvable(u, id)
    ensures var b := DtoClass(env, BuilderVariant, u, id); var f := DtoClass(env, FactoryVariant, u, id);
      && b.name == f.name && b.namespace == f.namespace && b.parent == f.parent
      && b.uses == f.uses && |b.methods| == |f.methods| && b.methods[0].body == f.methods[0].body
      && |b.properties| == |f.properties|
      && forall i :: 0 <= i < |b.properties| ==>
           b.properties[i].name == f.properties[i].name && b.properties[i].visibility == f.properties[i].visibility
  {
    var els := u.types[id].elements;
    var bc, fc := ContextFor(env, BuilderVariant, u, id), ContextFor(env, FactoryVariant, u, id);
    var ps, qs := ElementsParts(bc, els), ElementsParts(fc, els);
    assert Gather(ps).uses == Gather(qs).uses && Gather(ps).lines == Gather(qs).lines by {
      forall i | 0 <= i < |els| ensures ps[i].uses == qs[i].uses && ps[i].line == qs[i].line {
        ElementsPartsPointwise(bc, els, i);
        ElementsPartsPointwise(fc, els, i);
        PartsForFacts(bc, els[i]);
        PartsForFacts(fc, els[i]);
      }
      GatherSameUses(ps, qs);
      GatherPointwise(ps);
      GatherPointwise(qs);
    }
    DtoProperties(env, BuilderVariant, u, id);
    DtoProperties(env, FactoryVariant, u, id);
    DtoAccessorCount(env, BuilderVariant, u, id);
    DtoAccessorCount(env, FactoryVariant, u, id);
  }
}
