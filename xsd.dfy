/**
 * The parsed XML Schema model the generator consumes (the objects of the
 * Goetas XSD reader), stored as an arena: schemas and types are named by
 * ids, so self- and cross-references need no nesting.
 */
module Xsd {
  import opened Wrappers

  /** `SchemaReader::XSD_NS`: the namespace of the XML Schema primitives. */
  const XSD_NS: string := "http://www.w3.org/2001/XMLSchema"
  /** `SchemaReader::XML_NS` */
  const XML_NS: string := "http://www.w3.org/XML/1998/namespace"

  type SchemaId = nat
  type TypeId = nat

  /** One entry of a restriction check list: `['value' => ..., 'doc' => ...]`. */
  datatype Facet = Facet(value: string, doc: string)

  /**
   * A restriction or extension: its base type and its checks
   * (`getChecks()`, facet name to facet list, e.g. `enumeration`).
   */
  datatype Inherit = Inherit(base: TypeId, checks: map<string, seq<Facet>>)

  /** An element of a complex type. */
  datatype Element = Element(name: string, elementType: TypeId, nil: bool, doc: string)

  /** `SimpleType`, `ComplexType`, or any other `Type` (e.g. a complex type with simple content). */
  datatype TypeKind = SimpleKind | ComplexKind | OtherKind

  /**
   * A schema type.  `parent` is `getParent()`: the restriction of a simple
   * type (also returned by `getRestriction()`) or the extension of a complex one.
   */
  datatype TypeInfo = TypeInfo(
    kind: TypeKind,
    name: string,
    schema: SchemaId,
    parent: Option<Inherit>,
    isAbstract: bool,
    elements: seq<Element>,
    doc: string)

  /** A schema: its target namespace (`null` when the schema declares none), the schemas it imports and the types it defines. */
  datatype SchemaInfo = SchemaInfo(targetNamespace: Option<string>, imports: seq<SchemaId>, types: seq<TypeId>)

  datatype Universe = Universe(schemas: map<SchemaId, SchemaInfo>, types: map<TypeId, TypeInfo>)

  /** Every id the model mentions names an object of the arena (object references never dangle). */
  ghost predicate Closed(u: Universe) {
    && (forall s :: s in u.schemas ==>
          (forall i :: 0 <= i < |u.schemas[s].imports| ==> u.schemas[s].imports[i] in u.schemas) &&
          (forall i :: 0 <= i < |u.schemas[s].types| ==> u.schemas[s].types[i] in u.types))
    && (forall t :: t in u.types ==> TypeClosed(u, u.types[t]))
  }

  ghost predicate TypeClosed(u: Universe, t: TypeInfo) {
    && t.schema in u.schemas
    && (t.parent.Some? ==> t.parent.value.base in u.types)
    && (forall i :: 0 <= i < |t.elements| ==> t.elements[i].elementType in u.types)
  }

  /**
   * What the namespace inflector reads of a type: the target namespace of
   * its schema and its name (`null` for a type built from a missing name).
   */
  datatype TypeView = TypeView(targetNamespace: Option<string>, name: Option<string>)

  function View(u: Universe, id: TypeId): (v: TypeView)
    requires id in u.types && u.types[id].schema in u.schemas
    ensures v.name == Some(u.types[id].name)
  {
    TypeView(u.schemas[u.types[id].schema].targetNamespace, Some(u.types[id].name))
  }

  /** The type is owned by the XML Schema namespace (a primitive). */
  predicate IsXsd(v: TypeView) {
    v.targetNamespace == Some(XSD_NS)
  }
}
