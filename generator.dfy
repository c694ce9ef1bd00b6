/**
 * The driver `Generator::generate`, without the reading of the WSDL
 * document: the closure of the schema imports, the list of their types,
 * the restriction-chain walk that tells enums from plain simple types, and
 * the dispatch of every type and then every service to the class factory.
 */
module Generation {
  import opened Wrappers
  import opened Xsd
  import opened Descriptors
  import opened Enums
  import opened Dtos
  import opened Classmaps
  import opened Factories

  // ---------------------------------------------------------------- schemas

  /** A schema of one of the two namespaces the generator never processes. */
  predicate Excluded(u: Universe, s: SchemaId)
    requires s in u.schemas
  {
    u.schemas[s].targetNamespace == Some(XML_NS) || u.schemas[s].targetNamespace == Some(XSD_NS)
  }

  /** The schemas not yet in the processed list. */
  function Unprocessed(u: Universe, processed: seq<SchemaId>): set<SchemaId> {
    u.schemas.Keys - (set s | s in processed)
  }

  /**
   * The worklist loop: take the first schema off the list; when it is not
   * processed yet and not excluded, append it to the processed list and its
   * imports to the back of the worklist.  Every step either shrinks the set
   * of unprocessed schemas or the worklist.
   */
  function Closure(u: Universe, worklist: seq<SchemaId>, processed: seq<SchemaId>): (r: seq<SchemaId>)
    requires Closed(u) && KnownSchemas(u, worklist) && KnownSchemas(u, processed)
    ensures KnownSchemas(u, r)
    decreases Unprocessed(u, processed), |worklist|
  {
    if worklist == [] then processed
    else
      var cur := worklist[0];
      if cur !in processed && !Excluded(u, cur) then
        assert cur in Unprocessed(u, processed) && cur !in Unprocessed(u, processed + [cur]);
        Closure(u, worklist[1..] + u.schemas[cur].imports, processed + [cur])
      else
        Closure(u, worklist[1..], processed)
  }

  /** `$processedSchemas` at the end of the loop, computed the way the loop does. */
  method SchemaClosure(u: Universe, initial: seq<SchemaId>) returns (processed: seq<SchemaId>)
    requires Closed(u) && KnownSchemas(u, initial)
    ensures processed == Closure(u, initial, [])
  {
    var schemas := initial;
    processed := [];
    while schemas != []
      invariant KnownSchemas(u, schemas) && KnownSchemas(u, processed)
      invariant Closure(u, schemas, processed) == Closure(u, initial, [])
      decreases Unprocessed(u, processed), |schemas|
    {
      var cur := schemas[0];
      schemas := schemas[1..];
      if cur !in processed && !Excluded(u, cur) {
        assert cur in Unprocessed(u, processed) && cur !in Unprocessed(u, processed + [cur]);
        processed := processed + [cur];
        schemas := schemas + u.schemas[cur].imports;
      }
    }
  }

  predicate NoDuplicates(s: seq<SchemaId>) {
    forall i, j :: 0 <= i < j < |s| ==> s[i] != s[j]
  }

  predicate NoneExcluded(u: Universe, s: seq<SchemaId>)
    requires KnownSchemas(u, s)
  {
    forall i :: 0 <= i < |s| ==> !Excluded(u, s[i])
  }

  /** Every admitted import of a listed schema is listed. */
  predicate ImportClosed(u: Universe, s: seq<SchemaId>)
    requires Closed(u) && KnownSchemas(u, s)
  {
    forall i, k :: 0 <= i < |s| && 0 <= k < |u.schemas[s[i]].imports| ==>
      Excluded(u, u.schemas[s[i]].imports[k]) || u.schemas[s[i]].imports[k] in s
  }

  /** `x` is an import of some schema of `s`. */
  predicate ImportedBy(u: Universe, s: seq<SchemaId>, x: SchemaId)
    requires KnownSchemas(u, s)
  {
    exists i, k :: 0 <= i < |s| && 0 <= k < |u.schemas[s[i]].imports| && u.schemas[s[i]].imports[k] == x
  }

  /** Schemas are only ever appended to the processed list (first-in, first-out discovery order). */
  lemma {:induction false} ClosureExtends(u: Universe, worklist: seq<SchemaId>, processed: seq<SchemaId>)
    requires Closed(u) && KnownSchemas(u, worklist) && KnownSchemas(u, processed)
    ensures var r := Closure(u, worklist, processed); |processed| <= |r| && r[..|processed|] == processed
    decreases Unprocessed(u, processed), |worklist|
  {
    if worklist != [] {
      var cur := worklist[0];
      if cur !in processed && !Excluded(u, cur) {
        assert cur in Unprocessed(u, processed) && cur !in Unprocessed(u, processed + [cur]);
        ClosureExtends(u, worklist[1..] + u.schemas[cur].imports, processed + [cur]);
        var r := Closure(u, worklist, processed);
        assert r[..|processed| + 1][..|processed|] == r[..|processed|];
      } else {
        ClosureExtends(u, worklist[1..], processed);
      }
    }
  }

  /** A schema is processed at most once, and never one of the excluded namespaces. */
  lemma {:induction false} ClosureDistinctAdmitted(u: Universe, worklist: seq<SchemaId>, processed: seq<SchemaId>)
    requires Closed(u) && KnownSchemas(u, worklist) && KnownSchemas(u, processed)
    requires NoDuplicates(processed) && NoneExcluded(u, processed)
    ensures NoDuplicates(Closure(u, worklist, processed)) && NoneExcluded(u, Closure(u, worklist, processed))
    decreases Unprocessed(u, processed), |worklist|
  {
    if worklist != [] {
      var cur := worklist[0];
      if cur !in processed && !Excluded(u, cur) {
        assert cur in Unprocessed(u, processed) && cur !in Unprocessed(u, processed + [cur]);
        var p := processed + [cur];
        assert NoDuplicates(p) by {
          forall i, j | 0 <= i < j < |p| ensures p[i] != p[j] {
            if j == |processed| {
              assert p[i] == processed[i];
            }
          }
        }
        ClosureDistinctAdmitted(u, worklist[1..] + u.schemas[cur].imports, p);
      } else {
        ClosureDistinctAdmitted(u, worklist[1..], processed);
      }
    }
  }

  /** Every admitted schema of the worklist ends up processed. */
  lemma {:induction false} ClosureTakesWorklist(u: Universe, worklist: seq<SchemaId>, processed: seq<SchemaId>)
    requires Closed(u) && KnownSchemas(u, worklist) && KnownSchemas(u, processed)
    ensures forall i :: 0 <= i < |worklist| && !Excluded(u, worklist[i]) ==> worklist[i] in Closure(u, worklist, processed)
    decreases Unprocessed(u, processed), |worklist|
  {
    if worklist != [] {
      var cur := worklist[0];
      var r := Closure(u, worklist, processed);
      var rest := worklist[1..];
      if cur !in processed && !Excluded(u, cur) {
        assert cur in Unprocessed(u, processed) && cur !in Unprocessed(u, processed + [cur]);
        var w := rest + u.schemas[cur].imports;
        ClosureTakesWorklist(u, w, processed + [cur]);
        ClosureExtends(u, w, processed + [cur]);
        assert r[..|processed| + 1][|processed|] == cur;
        forall i | 0 < i < |worklist| && !Excluded(u, worklist[i]) ensures worklist[i] in r {
          assert w[i - 1] == worklist[i];
        }
      } else {
        ClosureTakesWorklist(u, rest, processed);
        ClosureExtends(u, rest, processed);
        if cur in processed {
          var j :| 0 <= j < |processed| && processed[j] == cur;
          assert r[..|processed|][j] == cur;
        }
        forall i | 0 < i < |worklist| && !Excluded(u, worklist[i]) ensures worklist[i] in r {
          assert rest[i - 1] == worklist[i];
        }
      }
    }
  }

  /**
   * When every admitted import of a processed schema is processed or still
   * waiting, the result lists every admitted import of its schemas.
   */
  lemma {:induction false} ClosureImportClosed(u: Universe, worklist: seq<SchemaId>, processed: seq<SchemaId>)
    requires Closed(u) && KnownSchemas(u, worklist) && KnownSchemas(u, processed)
    requires forall i, k :: 0 <= i < |processed| && 0 <= k < |u.schemas[processed[i]].imports| ==>
      (|| Excluded(u, u.schemas[processed[i]].imports[k])
       || u.schemas[processed[i]].imports[k] in processed
       || u.schemas[processed[i]].imports[k] in worklist)
    ensures ImportClosed(u, Closure(u, worklist, processed))
    decreases Unprocessed(u, processed), |worklist|
  {
    if worklist != [] {
      var cur := worklist[0];
      var rest := worklist[1..];
      if cur !in processed && !Excluded(u, cur) {
        assert cur in Unprocessed(u, processed) && cur !in Unprocessed(u, processed + [cur]);
        var p := processed + [cur];
        var w := rest + u.schemas[cur].imports;
        forall i, k | 0 <= i < |p| && 0 <= k < |u.schemas[p[i]].imports|
          ensures Excluded(u, u.schemas[p[i]].imports[k]) || u.schemas[p[i]].imports[k] in p || u.schemas[p[i]].imports[k] in w
        {
          var x := u.schemas[p[i]].imports[k];
          if i == |processed| {
            assert x == w[|rest| + k];
          } else {
            assert p[i] == processed[i];
            if x in worklist && x != cur {
              var j :| 0 <= j < |worklist| && worklist[j] == x;
              assert w[j - 1] == x;
            }
          }
        }
        ClosureImportClosed(u, w, p);
      } else {
        forall i, k | 0 <= i < |processed| && 0 <= k < |u.schemas[processed[i]].imports|
          ensures Excluded(u, u.schemas[processed[i]].imports[k]) || u.schemas[processed[i]].imports[k] in processed
            || u.schemas[processed[i]].imports[k] in rest
        {
          var x := u.schemas[processed[i]].imports[k];
          if x in worklist && x != cur {
            var j :| 0 <= j < |worklist| && worklist[j] == x;
            assert rest[j - 1] == x;
          }
        }
        ClosureImportClosed(u, rest, processed);
      }
    }
  }

  /** Every schema of `r` was processed or listed already, or is imported by a schema of `r`. */
  ghost predicate Accounted(u: Universe, r: seq<SchemaId>, processed: seq<SchemaId>, worklist: seq<SchemaId>)
    requires KnownSchemas(u, r)
  {
    forall j :: 0 <= j < |r| ==> r[j] in processed || r[j] in worklist || ImportedBy(u, r, r[j])
  }

  /** Nothing else is processed: every result schema was listed at the start or is imported by a result schema. */
  lemma {:induction false} ClosureSound(u: Universe, worklist: seq<SchemaId>, processed: seq<SchemaId>)
    requires Closed(u) && KnownSchemas(u, worklist) && KnownSchemas(u, processed)
    ensures Accounted(u, Closure(u, worklist, processed), processed, worklist)
    decreases Unprocessed(u, processed), |worklist|
  {
    if worklist != [] {
      var cur := worklist[0];
      var rest := worklist[1..];
      var r := Closure(u, worklist, processed);
      if cur !in processed && !Excluded(u, cur) {
        assert cur in Unprocessed(u, processed) && cur !in Unprocessed(u, processed + [cur]);
        var p := processed + [cur];
        var w := rest + u.schemas[cur].imports;
        ClosureSound(u, w, p);
        ClosureExtends(u, w, p);
        assert r[..|p|][|processed|] == cur;
        assert r == Closure(u, w, p);
        assert Accounted(u, r, p, w);
        forall j | 0 <= j < |r| ensures r[j] in processed || r[j] in worklist || ImportedBy(u, r, r[j]) {
          var x := r[j];
          if x in processed || x in worklist {
          } else {
            assert x in p || x in w || ImportedBy(u, r, x);
            forall k | 0 <= k < |rest| ensures w[k] != x {
              assert w[k] == worklist[k + 1];
            }
            if x in w {
              var k :| 0 <= k < |w| && w[k] == x;
              var i, m := |processed|, k - |rest|;
              assert r[i] == cur && u.schemas[r[i]].imports[m] == x;
              assert ImportedBy(u, r, x);
            }
          }
        }
      } else {
        ClosureSound(u, rest, processed);
        assert r == Closure(u, rest, processed);
        assert Accounted(u, r, processed, rest);
        forall j | 0 <= j < |r| ensures r[j] in processed || r[j] in worklist || ImportedBy(u, r, r[j]) {
          var x := r[j];
          assert x in processed || x in rest || ImportedBy(u, r, x);
          if x in rest {
            var k :| 0 <= k < |rest| && rest[k] == x;
            assert worklist[k + 1] == x;
          }
        }

      }
    }
  }

  /**
   * The schemas the generator works on: no schema twice, none of the XML
   * or XSD namespace, every admitted schema of the document and every
   * admitted import of a processed schema, and nothing else.
   */
  lemma ProcessedSchemas(u: Universe, initial: seq<SchemaId>)
    requires Closed(u) && KnownSchemas(u, initial)
    ensures var r := Closure(u, initial, []);
      && NoDuplicates(r) && NoneExcluded(u, r) && ImportClosed(u, r)
      && (forall i :: 0 <= i < |initial| && !Excluded(u, initial[i]) ==> initial[i] in r)
      && (forall j :: 0 <= j < |r| ==> r[j] in initial || ImportedBy(u, r, r[j]))
  {
    ClosureDistinctAdmitted(u, initial, []);
    ClosureImportClosed(u, initial, []);
    ClosureTakesWorklist(u, initial, []);
    ClosureSound(u, initial, []);
  }

  // ------------------------------------------------------------------ types

  /** The types of the schemas, schema after schema, each schema's in its own order. */
  function ConcatTypes(u: Universe, ss: seq<SchemaId>): (ts: seq<TypeId>)
    requires Closed(u) && KnownSchemas(u, ss)
    ensures forall i :: 0 <= i < |ts| ==> ts[i] in u.types
  {
    if ss == [] then []
    else ConcatTypes(u, ss[..|ss| - 1]) + u.schemas[ss[|ss| - 1]].types
  }

  /** The `foreach` that merges the type lists. */
  method CollectTypes(u: Universe, ss: seq<SchemaId>) returns (types: seq<TypeId>)
    requires Closed(u) && KnownSchemas(u, ss)
    ensures types == ConcatTypes(u, ss)
  {
    types := [];
    var i := 0;
    while i < |ss|
      invariant 0 <= i <= |ss|
      invariant types == ConcatTypes(u, ss[..i])
    {
      assert ss[..i + 1][..i] == ss[..i];
      types := types + u.schemas[ss[i]].types;
      i := i + 1;
    }
    assert ss[..i] == ss;
  }

  /** The list of the schemas `a` then `b` is the list of `a` then the list of `b`. */
  lemma {:induction false} ConcatTypesAppend(u: Universe, a: seq<SchemaId>, b: seq<SchemaId>)
    requires Closed(u) && KnownSchemas(u, a) && KnownSchemas(u, b)
    ensures ConcatTypes(u, a + b) == ConcatTypes(u, a) + ConcatTypes(u, b)
  {
    if b != [] {
      var ab := a + b;
      assert ab[..|ab| - 1] == a + b[..|b| - 1];
      ConcatTypesAppend(u, a, b[..|b| - 1]);
    } else {
      assert a + b == a;
    }
  }

  /** A type is listed exactly when one of the schemas defines it. */
  lemma {:induction false} ConcatTypesMembers(u: Universe, ss: seq<SchemaId>, t: TypeId)
    requires Closed(u) && KnownSchemas(u, ss)
    ensures t in ConcatTypes(u, ss) <==> exists i :: 0 <= i < |ss| && t in u.schemas[ss[i]].types
  {
    if ss != [] {
      var init := ss[..|ss| - 1];
      ConcatTypesMembers(u, init, t);
      if t in ConcatTypes(u, ss) && t !in u.schemas[ss[|ss| - 1]].types {
        var i :| 0 <= i < |init| && t in u.schemas[init[i]].types;
        assert ss[i] == init[i];
      }
      if exists i :: 0 <= i < |ss| && t in u.schemas[ss[i]].types {
        var i :| 0 <= i < |ss| && t in u.schemas[ss[i]].types;
        if i < |init| {
          assert init[i] == ss[i];
        }
      }
    }
  }

  // ------------------------------------------------------- restriction chain

  /**
   * The links of the restriction chain from `l` on: the link, then the
   * parent of its base, until a base without parent; `None` when `fuel`
   * runs out first (a cycle) or a base is missing.
   */
  function Links(u: Universe, l: Option<Inherit>, fuel: nat): Option<seq<Inherit>>
    decreases fuel
  {
    if l.None? then Some([])
    else if fuel == 0 || l.value.base !in u.types then None
    else
      match Links(u, u.types[l.value.base].parent, fuel - 1)
      case None => None
      case Some(rest) => Some([l.value] + rest)
  }

  /** The chain of the type ends: it has no cycle, so it is shorter than the number of types. */
  predicate ChainEnds(u: Universe, id: TypeId)
    requires id in u.types
  {
    Links(u, u.types[id].parent, |u.types| + 1).Some?
  }

  /** The restriction chain of a type: its restriction, the restriction of that one's base, and so on. */
  function Chain(u: Universe, id: TypeId): seq<Inherit>
    requires id in u.types && ChainEnds(u, id)
  {
    Links(u, u.types[id].parent, |u.types| + 1).value
  }

  /** Each link's base is a type whose own parent is the next link, and the last base has none. */
  ghost predicate WellLinked(u: Universe, ls: seq<Inherit>) {
    forall k :: 0 <= k < |ls| ==>
      ls[k].base in u.types && u.types[ls[k].base].parent == (if k + 1 < |ls| then Some(ls[k + 1]) else None)
  }

  lemma WellLinkedAt(u: Universe, ls: seq<Inherit>, j: int)
    requires WellLinked(u, ls) && 0 <= j < |ls|
    ensures ls[j].base in u.types
    ensures u.types[ls[j].base].parent == (if j + 1 < |ls| then Some(ls[j + 1]) else None)
  {
  }

  /** An ended chain is well linked and starts with the link it was walked from. */
  lemma {:induction false} LinksShape(u: Universe, l: Option<Inherit>, fuel: nat)
    requires Links(u, l, fuel).Some?
    ensures Links(u, l, fuel).value == [] <==> l.None?
    ensures l.Some? ==> l == Some(Links(u, l, fuel).value[0])
    ensures WellLinked(u, Links(u, l, fuel).value)
    decreases fuel
  {
    if l.Some? {
      var next := u.types[l.value.base].parent;
      LinksShape(u, next, fuel - 1);
      var rest := Links(u, next, fuel - 1).value;
      var ls := Links(u, l, fuel).value;
      assert ls == [l.value] + rest;
      forall k | 0 <= k < |ls|
        ensures ls[k].base in u.types && u.types[ls[k].base].parent == (if k + 1 < |ls| then Some(ls[k + 1]) else None)
      {
        if k > 0 {
          assert ls[k] == rest[k - 1];
          WellLinkedAt(u, rest, k - 1);
          if k + 1 < |ls| {
            assert ls[k + 1] == rest[k];
          }
        } else {
          assert ls[0] == l.value;
          assert u.types[ls[0].base].parent == next;
          if rest != [] {
            assert next == Some(rest[0]);
            assert ls[1] == rest[0];
          } else {
            assert next.None?;
          }
        }
      }
      assert WellLinked(u, ls);
    }
  }

  /** More fuel changes nothing once the chain has ended. */
  lemma {:induction false} LinksMoreFuel(u: Universe, l: Option<Inherit>, fuel: nat, more: nat)
    requires fuel <= more && Links(u, l, fuel).Some?
    ensures Links(u, l, more) == Links(u, l, fuel)
    decreases fuel
  {
    if l.Some? {
      LinksMoreFuel(u, u.types[l.value.base].parent, fuel - 1, more - 1);
    }
  }

  /**
   * The `while` loop that grows `$inheritanceChain`: it starts from the
   * type's restriction and appends the parent of the last link's base until
   * that is `null`, which stays in the list.
   */
  method InheritanceChain(u: Universe, id: TypeId) returns (chain: seq<Option<Inherit>>)
    requires id in u.types && ChainEnds(u, id)
    ensures |chain| == |Chain(u, id)| + 1 && chain[|chain| - 1].None?
    ensures forall k :: 0 <= k < |Chain(u, id)| ==> chain[k] == Some(Chain(u, id)[k])
  {
    ghost var ls := Chain(u, id);
    LinksShape(u, u.types[id].parent, |u.types| + 1);
    chain := [u.types[id].parent];
    while chain[|chain| - 1].Some?
      invariant 1 <= |chain| <= |ls| + 1
      invariant forall k :: 0 <= k < |chain| ==> chain[k] == (if k < |ls| then Some(ls[k]) else None)
      decreases |ls| + 1 - |chain|
    {
      var last := chain[|chain| - 1].value;
      assert |chain| - 1 < |ls| && last == ls[|chain| - 1];
      WellLinkedAt(u, ls, |chain| - 1);
      chain := chain + [u.types[last.base].parent];
    }
  }

  /** `array_pop`: the list without its last item; an empty list stays empty. */
  function ArrayPop<T>(s: seq<T>): (r: seq<T>)
    ensures |r| == if s == [] then 0 else |s| - 1
    ensures r == s[..|r|]
  {
    if s == [] then [] else s[..|s| - 1]
  }

  /** What the generator does with a type. */
  datatype Dispatch = ToEnum | ToDto | Skip

  /** `end()` of an empty chain is `false`, and `false->getBase()` is a fatal error. */
  const CHAIN_TOO_SHORT: Error := Fatal("Call to a member function getBase() on bool")

  /**
   * The link the enum test reads: once the `null` and the link into the
   * root type (`anySimpleType`) are popped, the last link left.  Its base is
   * the primitive the type restricts.
   */
  function Primitive(u: Universe, id: TypeId): (p: TypeId)
    requires id in u.types && ChainEnds(u, id) && |Chain(u, id)| >= 2
    ensures p in u.types
  {
    LinksShape(u, u.types[id].parent, |u.types| + 1);
    WellLinkedAt(u, Chain(u, id), |Chain(u, id)| - 2);
    Chain(u, id)[|Chain(u, id)| - 2].base
  }

  /** A type whose chain is well-formed when it is a simple type (what the walk needs to end). */
  ghost predicate ChainsEnd(u: Universe) {
    forall id :: id in u.types && u.types[id].kind.SimpleKind? ==> ChainEnds(u, id)
  }

  /**
   * The dispatch of one type: a complex type is a DTO; a simple type is an
   * enum when its primitive is named `string` and its own restriction has
   * `enumeration` facets, and nothing otherwise; a simple type whose
   * chain is shorter than two links is fatal; any other type gives nothing.
   */
  function Classify(u: Universe, id: TypeId): (r: Result<Dispatch>)
    requires id in u.types && ChainsEnd(u)
    ensures r.Err? <==> u.types[id].kind.SimpleKind? && |Chain(u, id)| < 2
    ensures r.Err? ==> r.error == CHAIN_TOO_SHORT
    ensures r == Ok(ToDto) <==> u.types[id].kind.ComplexKind?
    ensures r == Ok(ToEnum) <==>
      && u.types[id].kind.SimpleKind? && |Chain(u, id)| >= 2 && u.types[id].parent.Some?
      && u.types[Primitive(u, id)].name == "string" && ENUMERATION in u.types[id].parent.value.checks
  {
    var t := u.types[id];
    match t.kind
    case SimpleKind =>
      var ls := Chain(u, id);
      if |ls| < 2 then Err(CHAIN_TOO_SHORT)
      else
        LinksShape(u, t.parent, |u.types| + 1);
        if u.types[Primitive(u, id)].name == "string" && ENUMERATION in t.parent.value.checks then Ok(ToEnum)
        else Ok(Skip)
    case ComplexKind => Ok(ToDto)
    case OtherKind => Ok(Skip)
  }

  /** The branch of the type loop: walk the chain, pop twice, test the last link. */
  method ClassifyType(u: Universe, id: TypeId) returns (r: Result<Dispatch>)
    requires id in u.types && ChainsEnd(u)
    ensures r == Classify(u, id)
  {
    var t := u.types[id];
    if t.kind.SimpleKind? {
      var chain := InheritanceChain(u, id);
      chain := ArrayPop(chain);
      chain := ArrayPop(chain);
      if chain == [] {
        return Err(CHAIN_TOO_SHORT);
      }
      var last := chain[|chain| - 1].value;
      LinksShape(u, t.parent, |u.types| + 1);
      if u.types[last.base].name == "string" && ENUMERATION in t.parent.value.checks {
        r := Ok(ToEnum);
      } else {
        r := Ok(Skip);
      }
    } else if t.kind.ComplexKind? {
      r := Ok(ToDto);
    } else {
      r := Ok(Skip);
    }
  }

  /** The primitive is the base just under the root: its own parent's base has no parent. */
  lemma PrimitiveIsUnderRoot(u: Universe, id: TypeId)
    requires id in u.types && ChainEnds(u, id) && |Chain(u, id)| >= 2
    ensures var p := u.types[Primitive(u, id)];
      p.parent.Some? && p.parent.value.base in u.types && u.types[p.parent.value.base].parent.None?
  {
    LinksShape(u, u.types[id].parent, |u.types| + 1);
    var ls := Chain(u, id);
    WellLinkedAt(u, ls, |ls| - 2);
    WellLinkedAt(u, ls, |ls| - 1);
  }

  /**
   * A restriction of a restricted simple type has the same primitive, at
   * any depth: an enum derived from a string enum is decided by `string`.
   */
  lemma PrimitiveInherited(u: Universe, id: TypeId)
    requires id in u.types && ChainEnds(u, id) && u.types[id].parent.Some?
    requires var b := u.types[id].parent.value.base; b in u.types && ChainEnds(u, b) && |Chain(u, b)| >= 2
    ensures |Chain(u, id)| >= 2 && Primitive(u, id) == Primitive(u, u.types[id].parent.value.base)
  {
    var t := u.types[id];
    var b := t.parent.value.base;
    var n := |u.types| + 1;
    var rest := Links(u, u.types[b].parent, n - 1);
    assert rest.Some? && Chain(u, id) == [t.parent.value] + rest.value;
    LinksMoreFuel(u, u.types[b].parent, n - 1, n);
  }

  /** A simple type restricting `xs:string` directly (string itself under the root) is an enum iff it lists values. */
  lemma DirectStringRestriction(u: Universe, id: TypeId, str: TypeId, root: TypeId, checks: map<string, seq<Facet>>, c2: map<string, seq<Facet>>)
    requires id in u.types && str in u.types && root in u.types && ChainsEnd(u)
    requires u.types[id].kind.SimpleKind? && u.types[id].parent == Some(Inherit(str, checks))
    requires u.types[str].name == "string" && u.types[str].parent == Some(Inherit(root, c2))
    requires u.types[root].parent.None?
    ensures Classify(u, id) == Ok(if ENUMERATION in checks then ToEnum else Skip)
  {
    var n := |u.types| + 1;
    assert |u.types| >= 1;
    assert Links(u, u.types[root].parent, n - 2) == Some([]);
    assert [Inherit(root, c2)] + [] == [Inherit(root, c2)];
    assert Links(u, Some(Inherit(root, c2)), n - 1) == Some([Inherit(root, c2)]);
    assert Chain(u, id) == [Inherit(str, checks), Inherit(root, c2)];
  }

  /** A simple type without restriction, or restricting the root itself, stops the generator. */
  lemma ShortChainIsFatal(u: Universe, id: TypeId)
    requires id in u.types && ChainsEnd(u) && u.types[id].kind.SimpleKind?
    requires u.types[id].parent.None? || (u.types[id].parent.value.base in u.types &&
                                          u.types[u.types[id].parent.value.base].parent.None?)
    ensures Classify(u, id) == Err(CHAIN_TOO_SHORT)
  {
    LinksShape(u, u.types[id].parent, |u.types| + 1);
  }

  // --------------------------------------------------------------- dispatch

  /** What `generate` needs of the schema model: every reference resolves and every simple type's chain ends. */
  ghost predicate Ready(u: Universe) {
    Closed(u) && ChainsEnd(u)
  }

  /** The classmap after registering the classes of the artifacts one after the other. */
  function Registered(m: Classmap, arts: seq<Artifact>): Classmap
    decreases |arts|
  {
    if arts == [] then m
    else Registered(Put(m, arts[0].cls.name, ClassmapValue(arts[0].cls)), arts[1..])
  }

  /** Registering one class file registers its class. */
  lemma RegisteredOne(m: Classmap, a: Artifact)
    ensures Registered(m, [a]) == Put(m, a.cls.name, ClassmapValue(a.cls))
  {
    assert [a][1..] == [];
  }

  lemma {:induction false} RegisteredAppend(m: Classmap, a: seq<Artifact>, b: seq<Artifact>)
    ensures Registered(m, a + b) == Registered(Registered(m, a), b)
    decreases |a|
  {
    if a == [] {
      assert a + b == b;
    } else {
      assert (a + b)[0] == a[0] && (a + b)[1..] == a[1..] + b;
      RegisteredAppend(Put(m, a[0].cls.name, ClassmapValue(a[0].cls)), a[1..], b);
    }
  }

  /** A simple type whose inheritance chain is shorter than two links. */
  predicate ShortChain(u: Universe, id: TypeId)
    requires id in u.types && ChainsEnd(u)
  {
    u.types[id].kind.SimpleKind? && |Chain(u, id)| < 2
  }

  /**
   * A type whose class would declare a member name twice: the elements of a
   * complex type, or the facets of a type dispatched as an enum.
   */
  predicate MembersClash(env: Env, u: Universe, id: TypeId)
    requires id in u.types && ChainsEnd(u)
  {
    || (u.types[id].kind.ComplexKind? && ElementNamesClash(env.settings.accessors, u.types[id].elements))
    || (Classify(u, id) == Ok(ToEnum) && FacetNamesClash(env.reserved, EnumFacets(u.types[id].parent.value.checks)))
  }

  /** The error a failing type stops the run with. */
  function TypeError(u: Universe, id: TypeId): Error
    requires id in u.types && ChainsEnd(u)
  {
    if ShortChain(u, id) then CHAIN_TOO_SHORT else DUPLICATE_MEMBER
  }

  /** A service whose class cannot be built: a message lookup without schema, or a repeated method name. */
  predicate ServiceFails(env: Env, schemas: seq<SchemaId>, svc: Service) {
    (schemas == [] && svc.operations != []) || OperationNamesClash(env.reserved, svc.operations)
  }

  /** The class file (none, or one) the factory produces for one type, or the error that stops the run. */
  function TypeArtifact(env: Env, u: Universe, id: TypeId): (r: Result<seq<Artifact>>)
    requires Ready(u) && id in u.types
    ensures r.Ok? ==> |r.value| <= 1
  {
    ClosedIsResolvable(u, id);
    match Classify(u, id)
    case Err(e) => Err(e)
    case Ok(ToEnum) =>
      (match EnumClass(env, u, id)
       case Err(e) => Err(e)
       case Ok(c) => Ok([ArtifactOf(env, c)]))
    case Ok(ToDto) =>
      (match DtoResult(env, FactoryVariant, u, id)
       case Err(e) => Err(e)
       case Ok(c) => Ok([ArtifactOf(env, c)]))
    case Ok(Skip) => Ok([])
  }

  /**
   * One type by its kind: a complex type gives its DTO unless two of its
   * elements clash, an enum gives its class unless two facets clash, a type
   * that is neither simple nor complex gives nothing, and a type fails
   * exactly when its chain is too short or its class repeats a member.
   * (`Ready` already makes every type resolvable.)
   */
  lemma TypeArtifactByKind(env: Env, u: Universe, id: TypeId)
    requires Ready(u) && id in u.types && Resolvable(u, id)
    ensures u.types[id].kind.ComplexKind? ==>
      TypeArtifact(env, u, id) ==
        if ElementNamesClash(env.settings.accessors, u.types[id].elements) then Err(DUPLICATE_MEMBER)
        else Ok([ArtifactOf(env, DtoClass(env, FactoryVariant, u, id))])
    ensures Classify(u, id) == Ok(ToEnum) && !MembersClash(env, u, id) ==>
      EnumClass(env, u, id).Ok? && TypeArtifact(env, u, id) == Ok([ArtifactOf(env, EnumClass(env, u, id).value)])
    ensures u.types[id].kind.OtherKind? ==> TypeArtifact(env, u, id) == Ok([])
    ensures TypeArtifact(env, u, id).Err? <==> ShortChain(u, id) || MembersClash(env, u, id)
    ensures TypeArtifact(env, u, id).Err? ==> TypeArtifact(env, u, id).error == TypeError(u, id)
  {
  }

  /** The class file of one service, or the error that stops the run. */
  function ServiceArtifact(env: Env, u: Universe, schemas: seq<SchemaId>, svc: Service): (r: Result<seq<Artifact>>)
    requires KnownSchemas(u, schemas)
    ensures r.Err? <==> ServiceFails(env, schemas, svc)
    ensures r.Err? ==> r.error == if schemas == [] then NULL_SCHEMA else DUPLICATE_MEMBER
    ensures r.Ok? ==> r.value == [ArtifactOf(env, ServiceClass(env, u, schemas, svc).value)]
  {
    match ServiceClass(env, u, schemas, svc)
    case Err(e) => Err(e)
    case Ok(c) => Ok([ArtifactOf(env, c)])
  }

  // ------------------------------------------------------------------ loops

  /** A loop of `generate`: the class files of the steps in order, up to the first step that fails. */
  function Collect(rs: seq<Result<seq<Artifact>>>): Result<seq<Artifact>> {
    if rs == [] then Ok([])
    else
      match Collect(rs[..|rs| - 1])
      case Err(e) => Err(e)
      case Ok(done) =>
        match rs[|rs| - 1]
        case Err(e) => Err(e)
        case Ok(a) => Ok(done + a)
  }

  /** One more step. */
  lemma CollectSnoc(rs: seq<Result<seq<Artifact>>>, k: nat)
    requires k < |rs|
    ensures Collect(rs[..k + 1]) ==
      match Collect(rs[..k])
      case Err(e) => Err(e)
      case Ok(done) => (match rs[k] case Err(e) => Err(e) case Ok(a) => Ok(done + a))
  {
    assert rs[..k + 1][..k] == rs[..k];
  }

  /** Once a prefix of the steps fails, the loop fails with the same error. */
  lemma {:induction false} CollectStop(rs: seq<Result<seq<Artifact>>>, k: nat)
    requires k <= |rs| && Collect(rs[..k]).Err?
    ensures Collect(rs) == Collect(rs[..k])
  {
    if k < |rs| {
      var init := rs[..|rs| - 1];
      assert init[..k] == rs[..k];
      CollectStop(init, k);
    } else {
      assert rs[..k] == rs;
    }
  }

  /** The loop fails exactly when a step fails, and then with the error of the first one that does. */
  lemma {:induction false} CollectFail(rs: seq<Result<seq<Artifact>>>)
    ensures Collect(rs).Err? <==> exists i :: 0 <= i < |rs| && rs[i].Err?
    ensures Collect(rs).Err? ==> exists i :: 0 <= i < |rs| && rs[i] == Collect(rs) && forall j :: 0 <= j < i ==> rs[j].Ok?
  {
    if rs != [] {
      var init := rs[..|rs| - 1];
      CollectFail(init);
      assert forall i :: 0 <= i < |init| ==> init[i] == rs[i];
      if exists i :: 0 <= i < |rs| && rs[i].Err? {
        var i :| 0 <= i < |rs| && rs[i].Err?;
        if i < |init| {
          assert init[i].Err?;
        }
      }
      if Collect(init).Ok? && Collect(rs).Err? {
        assert rs[|rs| - 1] == Collect(rs);
        assert forall j :: 0 <= j < |rs| - 1 ==> rs[j].Ok? by {
          forall j | 0 <= j < |rs| - 1 ensures rs[j].Ok? {
            assert init[j] == rs[j];
          }
        }
      }
    }
  }

  /** What the loop collects is exactly what its steps give. */
  lemma {:induction false} CollectMembers(rs: seq<Result<seq<Artifact>>>)
    ensures Collect(rs).Ok? ==> forall i :: 0 <= i < |rs| ==> rs[i].Ok?
    ensures Collect(rs).Ok? ==> forall a :: a in Collect(rs).value <==> exists i :: 0 <= i < |rs| && rs[i].Ok? && a in rs[i].value
  {
    if rs != [] {
      var init := rs[..|rs| - 1];
      CollectMembers(init);
      assert forall i :: 0 <= i < |init| ==> init[i] == rs[i];
      if Collect(rs).Ok? {
        var done := Collect(init).value;
        var t := rs[|rs| - 1].value;
        assert Collect(rs).value == done + t;
        forall a ensures a in Collect(rs).value <==> exists i :: 0 <= i < |rs| && rs[i].Ok? && a in rs[i].value {
          if a in Collect(rs).value && a !in done {
            assert a in rs[|rs| - 1].value;
          }
          if exists i :: 0 <= i < |rs| && rs[i].Ok? && a in rs[i].value {
            var i :| 0 <= i < |rs| && rs[i].Ok? && a in rs[i].value;
            if i < |init| {
              assert init[i] == rs[i];
            }
          }
        }
      }
    }
  }

  /** When every step gives one class file, the loop gives them in order. */
  lemma {:induction false} CollectSingles(rs: seq<Result<seq<Artifact>>>)
    requires forall i :: 0 <= i < |rs| ==> rs[i].Ok? && |rs[i].value| == 1
    ensures Collect(rs).Ok? && |Collect(rs).value| == |rs|
    ensures forall i :: 0 <= i < |rs| ==> Collect(rs).value[i] == rs[i].value[0]
  {
    if rs != [] {
      var init := rs[..|rs| - 1];
      assert forall i :: 0 <= i < |init| ==> init[i] == rs[i];
      CollectSingles(init);
    }
  }

  /**
   * The class files a loop has written when it stops: every file of the
   * steps before the first one that fails (all of them when none fails),
   * since each `create*` call writes its file before the next step runs.
   */
  function Written(rs: seq<Result<seq<Artifact>>>): seq<Artifact> {
    if rs == [] then []
    else
      var init := rs[..|rs| - 1];
      match (Collect(init), rs[|rs| - 1])
      case (Ok(_), Ok(a)) => Written(init) + a
      case _ => Written(init)
  }

  /** A loop that does not fail has written exactly the files it returns. */
  lemma {:induction false} WrittenOk(rs: seq<Result<seq<Artifact>>>)
    ensures Collect(rs).Ok? ==> Written(rs) == Collect(rs).value
  {
    if rs != [] {
      WrittenOk(rs[..|rs| - 1]);
    }
  }

  /** Once a prefix of the steps fails, later steps write nothing. */
  lemma {:induction false} WrittenStop(rs: seq<Result<seq<Artifact>>>, k: nat)
    requires k <= |rs| && Collect(rs[..k]).Err?
    ensures Written(rs) == Written(rs[..k])
  {
    if k < |rs| {
      var init := rs[..|rs| - 1];
      assert init[..k] == rs[..k];
      WrittenStop(init, k);
      CollectStop(init, k);
    } else {
      assert rs[..k] == rs;
    }
  }

  /**
   * What a loop leaves behind: all its files when it succeeds; when it
   * fails, exactly the files of the steps before the first failing one.
   */
  lemma {:induction false} WrittenBeforeFailure(rs: seq<Result<seq<Artifact>>>)
    ensures Collect(rs).Ok? ==> Written(rs) == Collect(rs).value
    ensures Collect(rs).Err? ==>
      exists i :: 0 <= i < |rs| && rs[i].Err? && (forall j :: 0 <= j < i ==> rs[j].Ok?) && Collect(rs[..i]) == Ok(Written(rs))
  {
    WrittenOk(rs);
    if rs != [] {
      var init := rs[..|rs| - 1];
      WrittenBeforeFailure(init);
      assert forall j :: 0 <= j < |init| ==> init[j] == rs[j];
      if Collect(init).Err? {
        var i :| 0 <= i < |init| && init[i].Err? && (forall j :: 0 <= j < i ==> init[j].Ok?) && Collect(init[..i]) == Ok(Written(init));
        assert init[..i] == rs[..i];
      } else if Collect(rs).Err? {
        CollectMembers(init);
        assert rs[..|rs| - 1] == init;
      }
    }
  }

  /** One step of a loop: a failing step ends it with its error and nothing more written; a good one appends its files. */
  lemma LoopStep(rs: seq<Result<seq<Artifact>>>, i: nat, arts: seq<Artifact>)
    requires i < |rs| && Collect(rs[..i]) == Ok(arts) && Written(rs[..i]) == arts
    ensures rs[i].Err? ==> Collect(rs) == Err(rs[i].error) && Written(rs) == arts
    ensures rs[i].Ok? ==> Collect(rs[..i + 1]) == Ok(arts + rs[i].value) && Written(rs[..i + 1]) == arts + rs[i].value
  {
    CollectSnoc(rs, i);
    assert rs[..i + 1][..i] == rs[..i];
    if rs[i].Err? {
      CollectStop(rs, i + 1);
      WrittenStop(rs, i + 1);
    }
  }

  /** The results of the type loop's steps. */
  function TypeResults(env: Env, u: Universe, ids: seq<TypeId>): (rs: seq<Result<seq<Artifact>>>)
    requires Ready(u) && forall i :: 0 <= i < |ids| ==> ids[i] in u.types
    ensures |rs| == |ids| && forall i :: 0 <= i < |ids| ==> rs[i] == TypeArtifact(env, u, ids[i])
  {
    seq(|ids|, i requires 0 <= i < |ids| => TypeArtifact(env, u, ids[i]))
  }

  /** The results of the service loop's steps. */
  function ServiceResults(env: Env, u: Universe, schemas: seq<SchemaId>, svcs: seq<Service>): (rs: seq<Result<seq<Artifact>>>)
    requires KnownSchemas(u, schemas)
    ensures |rs| == |svcs| && forall i :: 0 <= i < |svcs| ==> rs[i] == ServiceArtifact(env, u, schemas, svcs[i])
  {
    seq(|svcs|, i requires 0 <= i < |svcs| => ServiceArtifact(env, u, schemas, svcs[i]))
  }

  /**
   * The type loop fails exactly when one of the types fails, and then with
   * the error of the first type that does.
   */
  lemma TypeLoopFails(env: Env, u: Universe, ids: seq<TypeId>)
    requires Ready(u) && forall i :: 0 <= i < |ids| ==> ids[i] in u.types
    ensures Collect(TypeResults(env, u, ids)).Err? <==>
      exists i :: 0 <= i < |ids| && (ShortChain(u, ids[i]) || MembersClash(env, u, ids[i]))
    ensures Collect(TypeResults(env, u, ids)).Err? ==>
      exists i :: 0 <= i < |ids| && (ShortChain(u, ids[i]) || MembersClash(env, u, ids[i]))
        && (forall j :: 0 <= j < i ==> !ShortChain(u, ids[j]) && !MembersClash(env, u, ids[j]))
        && Collect(TypeResults(env, u, ids)) == Err(TypeError(u, ids[i]))
  {
    var rs := TypeResults(env, u, ids);
    CollectFail(rs);
    forall i | 0 <= i < |ids|
      ensures rs[i].Err? <==> ShortChain(u, ids[i]) || MembersClash(env, u, ids[i])
      ensures rs[i].Err? ==> rs[i] == Err(TypeError(u, ids[i]))
    {
      ClosedIsResolvable(u, ids[i]);
      TypeArtifactByKind(env, u, ids[i]);
    }
  }

  /** The class files of the type loop are exactly those the types give one by one; every complex type gives its DTO. */
  lemma TypeLoopMembers(env: Env, u: Universe, ids: seq<TypeId>)
    requires Ready(u) && forall i :: 0 <= i < |ids| ==> ids[i] in u.types
    ensures Collect(TypeResults(env, u, ids)).Ok? ==> forall a :: a in Collect(TypeResults(env, u, ids)).value <==>
      exists i :: 0 <= i < |ids| && TypeArtifact(env, u, ids[i]) == Ok([a])
    ensures Collect(TypeResults(env, u, ids)).Ok? ==> forall i :: 0 <= i < |ids| && u.types[ids[i]].kind.ComplexKind? ==>
      Resolvable(u, ids[i]) && !ElementNamesClash(env.settings.accessors, u.types[ids[i]].elements)
      && ArtifactOf(env, DtoClass(env, FactoryVariant, u, ids[i])) in Collect(TypeResults(env, u, ids)).value
  {
    var rs := TypeResults(env, u, ids);
    CollectMembers(rs);
    if Collect(rs).Ok? {
      forall i | 0 <= i < |ids|
        ensures forall a :: a in rs[i].value <==> rs[i] == Ok([a])
      {
      }
      forall i | 0 <= i < |ids| && u.types[ids[i]].kind.ComplexKind?
        ensures Resolvable(u, ids[i]) && !ElementNamesClash(env.settings.accessors, u.types[ids[i]].elements)
        ensures rs[i] == Ok([ArtifactOf(env, DtoClass(env, FactoryVariant, u, ids[i]))])
      {
        ComplexTypeGivesDto(env, u, ids[i]);
      }
    }
  }

  /** A complex type that does not stop the run gives its DTO. */
  lemma ComplexTypeGivesDto(env: Env, u: Universe, id: TypeId)
    requires Ready(u) && id in u.types && u.types[id].kind.ComplexKind? && TypeArtifact(env, u, id).Ok?
    ensures Resolvable(u, id) && !ElementNamesClash(env.settings.accessors, u.types[id].elements)
    ensures TypeArtifact(env, u, id) == Ok([ArtifactOf(env, DtoClass(env, FactoryVariant, u, id))])
  {
    ClosedIsResolvable(u, id);
    TypeArtifactByKind(env, u, id);
  }

  /**
   * The service loop fails exactly when some service fails (no schema for
   * its operations, or a repeated method name); otherwise the i-th class
   * file is that of the i-th service.
   */
  lemma ServiceLoopResults(env: Env, u: Universe, schemas: seq<SchemaId>, svcs: seq<Service>)
    requires KnownSchemas(u, schemas)
    ensures Collect(ServiceResults(env, u, schemas, svcs)).Err? <==>
      exists i :: 0 <= i < |svcs| && ServiceFails(env, schemas, svcs[i])
    ensures Collect(ServiceResults(env, u, schemas, svcs)).Err? ==>
      Collect(ServiceResults(env, u, schemas, svcs)) == Err(if schemas == [] then NULL_SCHEMA else DUPLICATE_MEMBER)
    ensures Collect(ServiceResults(env, u, schemas, svcs)).Ok? ==>
      && |Collect(ServiceResults(env, u, schemas, svcs)).value| == |svcs|
      && forall i :: 0 <= i < |svcs| ==>
           ServiceArtifact(env, u, schemas, svcs[i]) == Ok([Collect(ServiceResults(env, u, schemas, svcs)).value[i]])
  {
    var rs := ServiceResults(env, u, schemas, svcs);
    CollectFail(rs);
    if Collect(rs).Ok? {
      CollectMembers(rs);
      CollectSingles(rs);
      forall i | 0 <= i < |svcs| ensures rs[i] == Ok([Collect(rs).value[i]]) {
        assert rs[i].value == [rs[i].value[0]];
      }
    }
  }

  /**
   * `generate` after reading the document: the processed schemas, their
   * types, every type's class file, then every service's.
   */
  function Generated(env: Env, u: Universe, initial: seq<SchemaId>, services: seq<Service>): Result<seq<Artifact>>
    requires Ready(u) && KnownSchemas(u, initial)
  {
    var schemas := Closure(u, initial, []);
    match Collect(TypeResults(env, u, ConcatTypes(u, schemas)))
    case Err(e) => Err(e)
    case Ok(ta) =>
      match Collect(ServiceResults(env, u, schemas, services))
      case Err(e) => Err(e)
      case Ok(sa) => Ok(ta + sa)
  }

  /**
   * A run fails exactly when a processed type fails (a simple type with a
   * chain shorter than two links, or a class that repeats a member) or a
   * service fails; a failing type is reported before any service.
   */
  lemma GeneratedFails(env: Env, u: Universe, initial: seq<SchemaId>, services: seq<Service>)
    requires Ready(u) && KnownSchemas(u, initial)
    ensures var schemas := Closure(u, initial, []); var ts := ConcatTypes(u, schemas);
      && (Generated(env, u, initial, services).Err? <==>
            (exists i :: 0 <= i < |ts| && (ShortChain(u, ts[i]) || MembersClash(env, u, ts[i])))
            || (exists i :: 0 <= i < |services| && ServiceFails(env, schemas, services[i])))
      && ((exists i :: 0 <= i < |ts| && (ShortChain(u, ts[i]) || MembersClash(env, u, ts[i]))) ==>
            Generated(env, u, initial, services) == Collect(TypeResults(env, u, ts)))
      && (Generated(env, u, initial, services).Err? ==>
            Generated(env, u, initial, services).error in {CHAIN_TOO_SHORT, NULL_SCHEMA, DUPLICATE_MEMBER})
  {
    var schemas := Closure(u, initial, []);
    TypeLoopFails(env, u, ConcatTypes(u, schemas));
    ServiceLoopResults(env, u, schemas, services);
  }

  /** A successful run is the class files of the type loop followed by those of the service loop. */
  lemma GeneratedSplit(env: Env, u: Universe, initial: seq<SchemaId>, services: seq<Service>)
    requires Ready(u) && KnownSchemas(u, initial)
    requires Generated(env, u, initial, services).Ok?
    ensures var schemas := Closure(u, initial, []);
      && Collect(TypeResults(env, u, ConcatTypes(u, schemas))).Ok?
      && Collect(ServiceResults(env, u, schemas, services)).Ok?
      && Generated(env, u, initial, services).value ==
           Collect(TypeResults(env, u, ConcatTypes(u, schemas))).value + Collect(ServiceResults(env, u, schemas, services)).value
  {
  }

  /** Steps that each give one class file, found at the end of a longer list. */
  lemma SinglesAtEnd(ta: seq<Artifact>, sa: seq<Artifact>, rs: seq<Result<seq<Artifact>>>)
    requires |rs| == |sa| && forall i :: 0 <= i < |rs| ==> rs[i] == Ok([sa[i]])
    ensures forall i :: 0 <= i < |rs| ==> rs[i] == Ok([(ta + sa)[|ta + sa| - |rs| + i]])
  {
  }

  /** A successful run ends with one class file per service, in order: the i-th service's step gives exactly that file. */
  lemma GeneratedServicesLast(env: Env, u: Universe, initial: seq<SchemaId>, services: seq<Service>)
    requires Ready(u) && KnownSchemas(u, initial)
    requires Generated(env, u, initial, services).Ok?
    ensures var g := Generated(env, u, initial, services).value; var rs := ServiceResults(env, u, Closure(u, initial, []), services);
      |services| <= |g| && forall i :: 0 <= i < |services| ==> rs[i] == Ok([g[|g| - |services| + i]])
  {
    var schemas := Closure(u, initial, []);
    GeneratedSplit(env, u, initial, services);
    ServiceLoopResults(env, u, schemas, services);
    var ta := Collect(TypeResults(env, u, ConcatTypes(u, schemas))).value;
    var sa := Collect(ServiceResults(env, u, schemas, services)).value;
    SinglesAtEnd(ta, sa, ServiceResults(env, u, schemas, services));
  }

  /** Before them, every class file of a successful run is the one class file of a processed type. */
  lemma GeneratedTypesFirst(env: Env, u: Universe, initial: seq<SchemaId>, services: seq<Service>)
    requires Ready(u) && KnownSchemas(u, initial)
    requires Generated(env, u, initial, services).Ok?
    ensures |services| <= |Generated(env, u, initial, services).value|
    ensures var ts := ConcatTypes(u, Closure(u, initial, [])); var g := Generated(env, u, initial, services).value;
      forall k :: 0 <= k < |g| - |services| ==> exists i :: 0 <= i < |ts| && TypeArtifact(env, u, ts[i]) == Ok([g[k]])
  {
    var schemas := Closure(u, initial, []);
    var ts := ConcatTypes(u, schemas);
    GeneratedSplit(env, u, initial, services);
    ServiceLoopResults(env, u, schemas, services);
    TypeLoopMembers(env, u, ts);
    var ta := Collect(TypeResults(env, u, ts)).value;
    var sa := Collect(ServiceResults(env, u, schemas, services)).value;
    var g := ta + sa;
    assert Generated(env, u, initial, services).value == g;
    forall k | 0 <= k < |ta| ensures exists i :: 0 <= i < |ts| && TypeArtifact(env, u, ts[i]) == Ok([g[k]]) {
      assert g[k] == ta[k] && ta[k] in ta;
    }
  }

  /** Every complex type of a processed schema has its DTO among the class files of a successful run. */
  lemma GeneratedHasEveryDto(env: Env, u: Universe, initial: seq<SchemaId>, services: seq<Service>, s: SchemaId, t: TypeId)
    requires Ready(u) && KnownSchemas(u, initial)
    requires Generated(env, u, initial, services).Ok?
    requires s in Closure(u, initial, []) && t in u.schemas[s].types
    ensures t in u.types && Resolvable(u, t)
    ensures u.types[t].kind.ComplexKind? ==> ArtifactOf(env, DtoClass(env, FactoryVariant, u, t)) in Generated(env, u, initial, services).value
  {
    var schemas := Closure(u, initial, []);
    var ts := ConcatTypes(u, schemas);
    var j :| 0 <= j < |schemas| && schemas[j] == s;
    ConcatTypesMembers(u, schemas, t);
    var i :| 0 <= i < |ts| && ts[i] == t;
    ClosedIsResolvable(u, t);
    GeneratedSplit(env, u, initial, services);
    TypeLoopMembers(env, u, ts);
  }

  /**
   * The class files a run has written when it ends, failed or not: those of
   * the type loop, then, when the type loop got through, those of the
   * service loop.
   */
  function WrittenRun(env: Env, u: Universe, initial: seq<SchemaId>, services: seq<Service>): seq<Artifact>
    requires Ready(u) && KnownSchemas(u, initial)
  {
    var schemas := Closure(u, initial, []);
    var tr := TypeResults(env, u, ConcatTypes(u, schemas));
    if Collect(tr).Err? then Written(tr) else Written(tr) + Written(ServiceResults(env, u, schemas, services))
  }

  /**
   * A successful run has written exactly its class files. A run that dies
   * in the type loop leaves the files of the types before the first failing
   * one; a run that dies in the service loop leaves every type's file and
   * those of the services before the first failing one.
   */
  lemma GeneratedWritten(env: Env, u: Universe, initial: seq<SchemaId>, services: seq<Service>)
    requires Ready(u) && KnownSchemas(u, initial)
    ensures Generated(env, u, initial, services).Ok? ==> WrittenRun(env, u, initial, services) == Generated(env, u, initial, services).value
    ensures var schemas := Closure(u, initial, []); var tr := TypeResults(env, u, ConcatTypes(u, schemas));
      Collect(tr).Err? ==>
        exists i :: 0 <= i < |tr| && tr[i].Err? && (forall j :: 0 <= j < i ==> tr[j].Ok?) &&
          Collect(tr[..i]) == Ok(WrittenRun(env, u, initial, services))
    ensures var schemas := Closure(u, initial, []); var tr := TypeResults(env, u, ConcatTypes(u, schemas));
      var sr := ServiceResults(env, u, schemas, services);
      Collect(tr).Ok? && Collect(sr).Err? ==>
        exists i :: 0 <= i < |sr| && sr[i].Err? && (forall j :: 0 <= j < i ==> sr[j].Ok?) && Collect(sr[..i]).Ok? &&
          WrittenRun(env, u, initial, services) == Collect(tr).value + Collect(sr[..i]).value
  {
    var schemas := Closure(u, initial, []);
    var tr := TypeResults(env, u, ConcatTypes(u, schemas));
    var sr := ServiceResults(env, u, schemas, services);
    RunWrittenFacts(tr, sr, WrittenRun(env, u, initial, services));
  }

  /** The facts of `GeneratedWritten` for any results of the two loops. */
  lemma RunWrittenFacts(tr: seq<Result<seq<Artifact>>>, sr: seq<Result<seq<Artifact>>>, w: seq<Artifact>)
    requires w == if Collect(tr).Err? then Written(tr) else Written(tr) + Written(sr)
    ensures Collect(tr).Ok? && Collect(sr).Ok? ==> w == Collect(tr).value + Collect(sr).value
    ensures Collect(tr).Err? ==>
      exists i :: 0 <= i < |tr| && tr[i].Err? && (forall j :: 0 <= j < i ==> tr[j].Ok?) && Collect(tr[..i]) == Ok(w)
    ensures Collect(tr).Ok? && Collect(sr).Err? ==>
      exists i :: 0 <= i < |sr| && sr[i].Err? && (forall j :: 0 <= j < i ==> sr[j].Ok?) && Collect(sr[..i]).Ok? &&
        w == Collect(tr).value + Collect(sr[..i]).value
  {
    WrittenBeforeFailure(tr);
    WrittenBeforeFailure(sr);
  }

  // -------------------------------------------------------------- classmap

  /** The value the last artifact of that short name registers, if any: the reference for the classmap. */
  function LastRegistration(arts: seq<Artifact>, key: string): Option<string> {
    if arts == [] then None
    else if arts[|arts| - 1].cls.name == key then Some(ClassmapValue(arts[|arts| - 1].cls))
    else LastRegistration(arts[..|arts| - 1], key)
  }

  /** After the registrations a short name reads what its last registration wrote, or what it read before. */
  lemma {:induction false} RegisteredLookup(m: Classmap, arts: seq<Artifact>, key: string)
    ensures Lookup(Registered(m, arts), key) ==
      if LastRegistration(arts, key).Some? then LastRegistration(arts, key) else Lookup(m, key)
    decreases |arts|
  {
    if arts != [] {
      var init := arts[..|arts| - 1];
      var last := arts[|arts| - 1];
      assert arts == init + [last];
      RegisteredAppend(m, init, [last]);
      var before := Registered(m, init);
      assert Registered(before, [last]) == Put(before, last.cls.name, ClassmapValue(last.cls)) by {
        assert [last][1..] == [];
      }
      RegisteredLookup(m, init, key);
      if last.cls.name == key {
        LookupPut(before, key, ClassmapValue(last.cls));
      } else {
        LookupPutOther(before, last.cls.name, ClassmapValue(last.cls), key);
      }
    }
  }

  /** Registering keeps the short names unique. */
  lemma {:induction false} RegisteredUnique(m: Classmap, arts: seq<Artifact>)
    requires UniqueKeys(m)
    ensures UniqueKeys(Registered(m, arts))
    decreases |arts|
  {
    if arts != [] {
      RegisteredUnique(Put(m, arts[0].cls.name, ClassmapValue(arts[0].cls)), arts[1..]);
    }
  }

  // --------------------------------------------------------------- methods

  /** One turn of the type loop: classify the type, then create its enum or DTO through the factory. */
  method DispatchType(f: ClassFactory, id: TypeId) returns (r: Result<seq<Artifact>>)
    requires f.Valid() && Ready(f.u) && id in f.u.types
    modifies f
    ensures f.Valid()
    ensures r == TypeArtifact(f.env, f.u, id)
    ensures r.Ok? ==> f.classmap == Registered(old(f.classmap), r.value)
    ensures r.Err? ==> f.classmap == old(f.classmap)
  {
    ClosedIsResolvable(f.u, id);
    var kind := ClassifyType(f.u, id);
    if kind.Err? {
      return Err(kind.error);
    }
    if kind.value == ToEnum {
      var a := f.CreateEnum(id);
      if a.Err? {
        return Err(a.error);
      }
      r := Ok([a.value]);
      RegisteredOne(old(f.classmap), a.value);
    } else if kind.value == ToDto {
      var a := f.CreateDto(id);
      if a.Err? {
        return Err(a.error);
      }
      r := Ok([a.value]);
      RegisteredOne(old(f.classmap), a.value);
    } else {
      r := Ok([]);
    }
  }

  /** One turn of the service loop. */
  method DispatchService(f: ClassFactory, svc: Service) returns (r: Result<seq<Artifact>>)
    requires f.Valid()
    modifies f
    ensures f.Valid()
    ensures r == ServiceArtifact(f.env, f.u, f.schemas, svc)
    ensures r.Ok? ==> f.classmap == Registered(old(f.classmap), r.value)
    ensures r.Err? ==> f.classmap == old(f.classmap)
  {
    var a := f.CreateService(svc);
    if a.Err? {
      return Err(a.error);
    }
    r := Ok([a.value]);
    RegisteredOne(old(f.classmap), a.value);
  }

  /**
   * `Generator::generate` without its input and output: the outcome, the
   * class files written by the time it ends (in the order they are written),
   * and the classmap the factory holds then (which the generator never
   * writes out).
   */
  method Generate(env: Env, u: Universe, initial: seq<SchemaId>, services: seq<Service>)
    returns (r: Result<seq<Artifact>>, written: seq<Artifact>, classmap: Classmap)
    requires Ready(u) && KnownSchemas(u, initial)
    ensures r == Generated(env, u, initial, services)
    ensures written == WrittenRun(env, u, initial, services)
    ensures classmap == Registered([], written)
  {
    var schemas := SchemaClosure(u, initial);
    var types := CollectTypes(u, schemas);
    var factory := new ClassFactory(env, u, schemas, types);
    var typeArts, typeWritten := TypeLoop(factory, types);
    if typeArts.Err? {
      return Err(typeArts.error), typeWritten, factory.classmap;
    }
    WrittenOk(TypeResults(env, u, types));
    var serviceArts, serviceWritten := ServiceLoop(factory, services);
    RegisteredAppend([], typeWritten, serviceWritten);
    written, classmap := typeWritten + serviceWritten, factory.classmap;
    if serviceArts.Err? {
      return Err(serviceArts.error), written, classmap;
    }
    r := Ok(typeArts.value + serviceArts.value);
  }

  /** `foreach ($types as $type)`: the types in order, each through the factory, until one fails. */
  method TypeLoop(f: ClassFactory, types: seq<TypeId>) returns (r: Result<seq<Artifact>>, written: seq<Artifact>)
    requires f.Valid() && Ready(f.u) && forall i :: 0 <= i < |types| ==> types[i] in f.u.types
    modifies f
    ensures f.Valid()
    ensures r == Collect(TypeResults(f.env, f.u, types))
    ensures written == Written(TypeResults(f.env, f.u, types))
    ensures f.classmap == Registered(old(f.classmap), written)
  {
    ghost var rs := TypeResults(f.env, f.u, types);
    ghost var m0 := f.classmap;
    var arts: seq<Artifact> := [];
    var i := 0;
    while i < |types|
      invariant 0 <= i <= |types|
      invariant f.Valid()
      invariant Collect(rs[..i]) == Ok(arts)
      invariant Written(rs[..i]) == arts
      invariant f.classmap == Registered(m0, arts)
    {
      var a := DispatchType(f, types[i]);
      LoopStep(rs, i, arts);
      if a.Err? {
        return Err(a.error), arts;
      }
      RegisteredAppend(m0, arts, a.value);
      arts := arts + a.value;
      i := i + 1;
    }
    assert rs[..i] == rs;
    r, written := Ok(arts), arts;
  }

  /** `foreach ($services as $service)`: the services in order, each through the factory, until one fails. */
  method ServiceLoop(f: ClassFactory, services: seq<Service>) returns (r: Result<seq<Artifact>>, written: seq<Artifact>)
    requires f.Valid()
    modifies f
    ensures f.Valid()
    ensures r == Collect(ServiceResults(f.env, f.u, f.schemas, services))
    ensures written == Written(ServiceResults(f.env, f.u, f.schemas, services))
    ensures f.classmap == Registered(old(f.classmap), written)
  {
    ghost var rs := ServiceResults(f.env, f.u, f.schemas, services);
    ghost var m0 := f.classmap;
    var arts: seq<Artifact> := [];
    var j := 0;
    while j < |services|
      invariant 0 <= j <= |services|
      invariant f.Valid()
      invariant Collect(rs[..j]) == Ok(arts)
      invariant Written(rs[..j]) == arts
      invariant f.classmap == Registered(m0, arts)
    {
      var a := DispatchService(f, services[j]);
      LoopStep(rs, j, arts);
      if a.Err? {
        return Err(a.error), arts;
      }
      RegisteredAppend(m0, arts, a.value);
      arts := arts + a.value;
      j := j + 1;
    }
    assert rs[..j] == rs;
    r, written := Ok(arts), arts;
  }
}
