/**
 * `ClassFactory`: the class generator the `Generator` drives.  It holds the
 * processed schemas, the type list and the classmap; every `create*` call
 * builds one class file and registers the class in the classmap under its
 * short name.
 */
module Factories {
  import opened Wrappers
  import opened Php
  import opened Xsd
  import opened Configuration
  import opened QualifiedNames
  import opened Inflection
  import opened Naming
  import opened Descriptors
  import opened Enums
  import opened Dtos
  import opened Classmaps

  const SERVICE_TEMPLATE: string := "\\Sapone\\Template\\ServiceTemplate"
  const CLASSMAP_TEMPLATE: string := "\\Sapone\\Template\\ClassmapTemplate"
  const SOAP_CLIENT: string := "\\SoapClient"
  const BESIMPLE_CLIENT: string := "BeSimpleSoapClient"
  const BESIMPLE_IMPORT: string := "BeSimple\\SoapClient\\SoapClient"
  /** The name of the single parameter of every service method. */
  const PARAMETERS: string := "parameters"
  /** The `@xmlns` tag of a service class. */
  const XMLNS_TODO: string := "@todo"
  const CLASSMAP_CLASS: string := "Classmap"
  const ARRAY_OBJECT: string := "\\ArrayObject"
  const CLASSMAP_FILE: string := "classmap.ini"
  const SOAP_CALL_HEAD: string := "return $this->__soapCall('"
  const SOAP_CALL_TAIL: string := "', array($parameters));"

  /** The fatal error of `new ComplexType(null, ...)`. */
  const NULL_SCHEMA: Error := Fatal("Argument 1 passed to ComplexType::__construct() must be an instance of Schema, null given")

  /**
   * A `wsdl:operation` as the queries of `createService` read it: its `name`
   * attribute, the `message` attributes of its input and output (`''` when
   * absent), its documentation text and the namespaces declared in its
   * document (`getDocNamespaces()`).
   */
  datatype Operation = Operation(
    name: string,
    inputMessage: string,
    outputMessage: string,
    doc: string,
    docNamespaces: map<string, string>)

  /** A `wsdl:portType`: the element (for its namespace), its `name` attribute, its documentation and its operations. */
  datatype Service = Service(node: XmlNode, name: string, doc: string, operations: seq<Operation>)

  predicate KnownSchemas(u: Universe, schemas: seq<SchemaId>) {
    forall i :: 0 <= i < |schemas| ==> schemas[i] in u.schemas
  }

  /** `$namespaces[$prefix]`: the URI bound to the prefix, `null` for an unbound one. */
  function BoundUri(docNamespaces: map<string, string>, prefix: string): Option<string> {
    if prefix in docNamespaces then Some(docNamespaces[prefix]) else None
  }

  /**
   * The strict test `===` of the schema loop: a bound URI matches a schema
   * with that target namespace, the `null` of an unbound prefix a schema
   * without one.
   */
  predicate NamespaceMatches(u: Universe, s: SchemaId, uri: Option<string>)
    requires s in u.schemas
  {
    uri == u.schemas[s].targetNamespace
  }

  /**
   * The schema `$schema` holds after the loop with `break`: the first one
   * whose target namespace is the URI, else the last one, and `null` when
   * there are no schemas.
   */
  function SchemaFor(u: Universe, schemas: seq<SchemaId>, uri: Option<string>): (r: Option<SchemaId>)
    requires KnownSchemas(u, schemas)
    ensures r.None? <==> schemas == []
    ensures r.Some? ==> r.value in u.schemas
  {
    if schemas == [] then None
    else if NamespaceMatches(u, schemas[0], uri) || |schemas| == 1 then Some(schemas[0])
    else
      var rest := schemas[1..];
      assert KnownSchemas(u, rest) by {
        assert forall k :: 0 <= k < |rest| ==> rest[k] == schemas[k + 1];
      }
      SchemaFor(u, rest, uri)
  }

  /** The first schema in the target namespace is found. */
  lemma {:induction false} SchemaForFirstMatch(u: Universe, schemas: seq<SchemaId>, uri: Option<string>, j: int)
    requires KnownSchemas(u, schemas) && 0 <= j < |schemas| && NamespaceMatches(u, schemas[j], uri)
    requires forall k :: 0 <= k < j ==> !NamespaceMatches(u, schemas[k], uri)
    ensures SchemaFor(u, schemas, uri) == Some(schemas[j])
  {
    if j > 0 {
      var rest := schemas[1..];
      assert forall k :: 0 <= k < |rest| ==> rest[k] == schemas[k + 1];
      assert !NamespaceMatches(u, schemas[0], uri);
      SchemaForFirstMatch(u, rest, uri, j - 1);
    }
  }

  /** Without a schema in the target namespace the last one is left. */
  lemma {:induction false} SchemaForNoMatch(u: Universe, schemas: seq<SchemaId>, uri: Option<string>)
    requires KnownSchemas(u, schemas) && schemas != []
    requires forall k :: 0 <= k < |schemas| ==> !NamespaceMatches(u, schemas[k], uri)
    ensures SchemaFor(u, schemas, uri) == Some(schemas[|schemas| - 1])
  {
    if |schemas| > 1 {
      var rest := schemas[1..];
      assert forall k :: 0 <= k < |rest| ==> rest[k] == schemas[k + 1];
      SchemaForNoMatch(u, rest, uri);
    }
  }

  /** The message type, `new ComplexType($schema, $name)`: a null schema is a fatal type error. */
  function MessageType(u: Universe, schemas: seq<SchemaId>, qualified: string, docNamespaces: map<string, string>)
    : (r: Result<TypeView>)
    requires KnownSchemas(u, schemas)
    ensures r.Err? <==> schemas == []
    ensures r.Err? ==> r.error == NULL_SCHEMA
  {
    var q := ParseQualifiedXmlType(qualified);
    match SchemaFor(u, schemas, BoundUri(docNamespaces, q.prefix))
    case None => Err(NULL_SCHEMA)
    case Some(s) => Ok(TypeView(u.schemas[s].targetNamespace, q.name))
  }

  /** The message type carries the parsed local name and the namespace of one of the schemas. */
  lemma MessageTypeFacts(u: Universe, schemas: seq<SchemaId>, qualified: string, docNamespaces: map<string, string>)
    requires KnownSchemas(u, schemas)
    ensures var r := MessageType(u, schemas, qualified, docNamespaces);
      && (r.Ok? ==> r.value.name == ParseQualifiedXmlType(qualified).name)
      && (r.Ok? ==> exists i :: 0 <= i < |schemas| && r.value.targetNamespace == u.schemas[schemas[i]].targetNamespace)
  {
    SchemaForIsListed(u, schemas, BoundUri(docNamespaces, ParseQualifiedXmlType(qualified).prefix));
  }

  /** The schema found is one of the list. */
  lemma {:induction false} SchemaForIsListed(u: Universe, schemas: seq<SchemaId>, uri: Option<string>)
    requires KnownSchemas(u, schemas)
    ensures SchemaFor(u, schemas, uri).Some? ==> SchemaFor(u, schemas, uri).value in schemas
  {
    if |schemas| > 1 && !NamespaceMatches(u, schemas[0], uri) {
      SchemaForIsListed(u, schemas[1..], uri);
    }
  }

  /**
   * A prefix bound to the target namespace of a listed schema gives a type
   * in that namespace, with the parsed local name.
   */
  lemma MessageTypeOfBoundPrefix(u: Universe, schemas: seq<SchemaId>, qualified: string, docNamespaces: map<string, string>, j: int)
    requires KnownSchemas(u, schemas) && 0 <= j < |schemas|
    requires ParseQualifiedXmlType(qualified).prefix in docNamespaces
    requires BoundUri(docNamespaces, ParseQualifiedXmlType(qualified).prefix) == u.schemas[schemas[j]].targetNamespace
    ensures MessageType(u, schemas, qualified, docNamespaces) ==
            Ok(TypeView(u.schemas[schemas[j]].targetNamespace, ParseQualifiedXmlType(qualified).name))
  {
    var uri := BoundUri(docNamespaces, ParseQualifiedXmlType(qualified).prefix);
    FirstMatchExists(u, schemas, uri, j);
    var first :| 0 <= first <= j && NamespaceMatches(u, schemas[first], uri) &&
                 forall k :: 0 <= k < first ==> !NamespaceMatches(u, schemas[k], uri);
    SchemaForFirstMatch(u, schemas, uri, first);
  }

  lemma {:induction false} FirstMatchExists(u: Universe, schemas: seq<SchemaId>, uri: Option<string>, j: int)
    requires KnownSchemas(u, schemas) && 0 <= j < |schemas| && NamespaceMatches(u, schemas[j], uri)
    ensures exists first :: 0 <= first <= j && NamespaceMatches(u, schemas[first], uri) &&
              forall k :: 0 <= k < first ==> !NamespaceMatches(u, schemas[k], uri)
  {
    if exists k :: 0 <= k < j && NamespaceMatches(u, schemas[k], uri) {
      var k :| 0 <= k < j && NamespaceMatches(u, schemas[k], uri);
      FirstMatchExists(u, schemas, uri, k);
    }
  }

  /**
   * An unbound prefix reads `null`: the first schema without a target
   * namespace is found, and without such a schema the last one is left.
   */
  lemma MessageTypeOfUnboundPrefix(u: Universe, schemas: seq<SchemaId>, qualified: string, docNamespaces: map<string, string>)
    requires KnownSchemas(u, schemas) && schemas != []
    requires ParseQualifiedXmlType(qualified).prefix !in docNamespaces
    ensures (exists j :: 0 <= j < |schemas| && u.schemas[schemas[j]].targetNamespace.None?) ==>
            MessageType(u, schemas, qualified, docNamespaces) == Ok(TypeView(None, ParseQualifiedXmlType(qualified).name))
    ensures (forall j :: 0 <= j < |schemas| ==> u.schemas[schemas[j]].targetNamespace.Some?) ==>
            MessageType(u, schemas, qualified, docNamespaces) ==
            Ok(TypeView(u.schemas[schemas[|schemas| - 1]].targetNamespace, ParseQualifiedXmlType(qualified).name))
  {
    if exists j :: 0 <= j < |schemas| && u.schemas[schemas[j]].targetNamespace.None? {
      var j :| 0 <= j < |schemas| && u.schemas[schemas[j]].targetNamespace.None?;
      FirstMatchExists(u, schemas, None, j);
      var first :| 0 <= first <= j && NamespaceMatches(u, schemas[first], None) &&
                   forall k :: 0 <= k < first ==> !NamespaceMatches(u, schemas[k], None);
      SchemaForFirstMatch(u, schemas, None, first);
    } else {
      SchemaForNoMatch(u, schemas, None);
    }
  }

  /** `return $this->__soapCall('<name>', array($parameters));` with the operation's own name. */
  function SoapCallBody(wireName: string): string {
    SOAP_CALL_HEAD + wireName + SOAP_CALL_TAIL
  }

  /** The body is the call head, the wire name as it is, and the call tail. */
  lemma SoapCallBodyParts(wireName: string)
    ensures var b := SoapCallBody(wireName);
      && |b| == |SOAP_CALL_HEAD| + |wireName| + |SOAP_CALL_TAIL|
      && b[..|SOAP_CALL_HEAD|] == SOAP_CALL_HEAD
      && b[|SOAP_CALL_HEAD|..|SOAP_CALL_HEAD| + |wireName|] == wireName
      && b[|SOAP_CALL_HEAD| + |wireName|..] == SOAP_CALL_TAIL
  {
  }

  /** The wire name can be read back from the body, whatever the method is called. */
  lemma SoapCallNameRoundTrip(wireName: string, other: string)
    requires SoapCallBody(wireName) == SoapCallBody(other)
    ensures wireName == other
  {
    SoapCallBodyParts(wireName);
    SoapCallBodyParts(other);
  }

  /** The method of one operation, given its input and output message types. */
  function OperationMethod(env: Env, input: TypeView, output: TypeView, op: Operation): Method {
    Method(
      ConstantName(env.reserved, op.name),
      [Parameter(PARAMETERS, HintType(input), false)],
      [ParamTag(PARAMETERS, InflectDocBlockQualifiedName(env.settings, env.parseUrl, input))],
      Some(InflectDocBlockQualifiedName(env.settings, env.parseUrl, output)),
      SoapCallBody(op.name),
      if Truthy(op.doc) then op.doc else "")
  }

  /** The operation loop: one method per operation, in order; the first message lookup that fails ends it. */
  function OperationMethods(env: Env, u: Universe, schemas: seq<SchemaId>, ops: seq<Operation>): (r: Result<seq<Method>>)
    requires KnownSchemas(u, schemas)
    ensures r.Err? <==> schemas == [] && ops != []
    ensures r.Err? ==> r.error == NULL_SCHEMA
    ensures r.Ok? ==> |r.value| == |ops|
  {
    if ops == [] then Ok([])
    else
      match OperationMethods(env, u, schemas, ops[..|ops| - 1])
      case Err(e) => Err(e)
      case Ok(ms) =>
        var op := ops[|ops| - 1];
        match MessageType(u, schemas, op.inputMessage, op.docNamespaces)
        case Err(e) => Err(e)
        case Ok(input) =>
          var output := MessageType(u, schemas, op.outputMessage, op.docNamespaces).value;
          Ok(ms + [OperationMethod(env, input, output, op)])
  }

  /** One more operation whose input message resolves adds its method at the end. */
  lemma OperationMethodsStep(env: Env, u: Universe, schemas: seq<SchemaId>, ops: seq<Operation>, i: nat, ms: seq<Method>)
    requires KnownSchemas(u, schemas) && i < |ops|
    requires OperationMethods(env, u, schemas, ops[..i]) == Ok(ms)
    requires MessageType(u, schemas, ops[i].inputMessage, ops[i].docNamespaces).Ok?
    ensures OperationMethods(env, u, schemas, ops[..i + 1]) ==
      Ok(ms + [OperationMethod(env, MessageType(u, schemas, ops[i].inputMessage, ops[i].docNamespaces).value,
        MessageType(u, schemas, ops[i].outputMessage, ops[i].docNamespaces).value, ops[i])])
  {
    assert ops[..i + 1][..i] == ops[..i];
  }

  /** The i-th method is that of the i-th operation. */
  lemma {:induction false} OperationMethodsPointwise(env: Env, u: Universe, schemas: seq<SchemaId>, ops: seq<Operation>, i: int)
    requires KnownSchemas(u, schemas) && schemas != [] && 0 <= i < |ops|
    ensures var op := ops[i];
      OperationMethods(env, u, schemas, ops).value[i] ==
        OperationMethod(env, MessageType(u, schemas, op.inputMessage, op.docNamespaces).value,
          MessageType(u, schemas, op.outputMessage, op.docNamespaces).value, op)
  {
    var prefix := ops[..|ops| - 1];
    if i < |prefix| {
      OperationMethodsPointwise(env, u, schemas, prefix, i);
      assert prefix[i] == ops[i];
    }
  }

  /** The namespace of a service class: the inflected namespace of the port type element, set even when falsy. */
  function ServiceNamespace(env: Env, svc: Service): Option<string> {
    InflectNamespace(env.settings, env.parseUrl, ElementSubject(svc.node)).value
  }

  /** The service class before its operations: reflected from the template, named, placed and documented. */
  function ServiceSkeleton(env: Env, svc: Service): ClassDescriptor {
    var besimple := IsOn(env.settings.besimpleClient);
    EmptyClass(ConstantName(env.reserved, svc.name)).(
      namespace := ServiceNamespace(env, svc),
      parent := Some(if besimple then BESIMPLE_CLIENT else SOAP_CLIENT),
      uses := if besimple then [BESIMPLE_IMPORT] else [],
      doc := if Truthy(svc.doc) then svc.doc else "",
      xmlns := Some(XMLNS_TODO),
      template := Some(SERVICE_TEMPLATE))
  }

  /** The methods of `ServiceTemplate` a service class is reflected with. */
  const TEMPLATE_METHODS: seq<string> := [CONSTRUCTOR]

  /** The method-table keys of the operations' methods: `strtolower` of each double-sanitised name. */
  function OperationKeys(reserved: string -> bool, ops: seq<Operation>): (ks: seq<string>)
    ensures |ks| == |ops| && forall i :: 0 <= i < |ops| ==> ks[i] == ToLower(ConstantName(reserved, ops[i].name))
  {
    seq(|ops|, i requires 0 <= i < |ops| => ToLower(ConstantName(reserved, ops[i].name)))
  }

  /**
   * An operation whose method name the service class already has, up to
   * case: the template's constructor or an earlier operation's.
   */
  predicate OperationNamesClash(reserved: string -> bool, ops: seq<Operation>) {
    CONSTRUCTOR in OperationKeys(reserved, ops) || !Distinct(OperationKeys(reserved, ops))
  }

  /** When the operations' methods are built, each is named after its operation. */
  lemma OperationMethodNames(env: Env, u: Universe, schemas: seq<SchemaId>, ops: seq<Operation>)
    requires KnownSchemas(u, schemas)
    ensures OperationMethods(env, u, schemas, ops).Ok? ==>
      forall i :: 0 <= i < |ops| ==> OperationMethods(env, u, schemas, ops).value[i].name == ConstantName(env.reserved, ops[i].name)
  {
    if schemas != [] {
      forall i | 0 <= i < |ops|
        ensures OperationMethods(env, u, schemas, ops).value[i].name == ConstantName(env.reserved, ops[i].name)
      {
        OperationMethodsPointwise(env, u, schemas, ops, i);
      }
    }
  }

  /** The template's constructor and the operations' methods have distinct keys exactly when no operation clashes. */
  lemma ServiceKeysDistinct(reserved: string -> bool, ops: seq<Operation>, ms: seq<Method>)
    requires |ms| == |ops| && forall i :: 0 <= i < |ops| ==> ms[i].name == ConstantName(reserved, ops[i].name)
    ensures Distinct(MethodKeys(TEMPLATE_METHODS + MethodNames(ms))) <==> !OperationNamesClash(reserved, ops)
  {
    var keys := OperationKeys(reserved, ops);
    assert MethodKeys(MethodNames(ms)) == keys;
    assert ToLower(CONSTRUCTOR) == CONSTRUCTOR by { ConstructorKey(); }
    MethodKeysCons(CONSTRUCTOR, MethodNames(ms));
    DistinctCons(CONSTRUCTOR, keys);
  }

  /** The constructor's name is its own method-table key. */
  lemma ConstructorKey()
    ensures ToLower(CONSTRUCTOR) == CONSTRUCTOR
  {
    forall i | 0 <= i < |CONSTRUCTOR| ensures ToLower(CONSTRUCTOR)[i] == CONSTRUCTOR[i] {
      assert !IsAsciiUpper(CONSTRUCTOR[i]);
    }
  }

  /** An overloaded operation, one name for two operations, makes the service class fail. */
  lemma OverloadedOperationFails(env: Env, u: Universe, schemas: seq<SchemaId>, svc: Service, i: int, j: int)
    requires KnownSchemas(u, schemas) && 0 <= i < j < |svc.operations|
    requires svc.operations[i].name == svc.operations[j].name
    ensures ServiceClass(env, u, schemas, svc).Err?
  {
    var ks := OperationKeys(env.reserved, svc.operations);
    assert ks[i] == ks[j];
  }

  /** The keys of a name in front of others. */
  lemma MethodKeysCons(x: string, names: seq<string>)
    ensures MethodKeys([x] + names) == [ToLower(x)] + MethodKeys(names)
  {
    var ks := MethodKeys([x] + names);
    var expected := [ToLower(x)] + MethodKeys(names);
    assert |ks| == |expected|;
    forall i | 0 <= i < |ks| ensures ks[i] == expected[i] {
      if i > 0 {
        assert ([x] + names)[i] == names[i - 1];
      }
    }
  }

  /**
   * `createService`: a lookup fails only when there is no schema, and then
   * already for the first operation; an operation whose method name is
   * taken makes the generator throw.
   */
  function ServiceClass(env: Env, u: Universe, schemas: seq<SchemaId>, svc: Service): (r: Result<ClassDescriptor>)
    requires KnownSchemas(u, schemas)
    ensures r.Err? <==> (schemas == [] && svc.operations != []) || OperationNamesClash(env.reserved, svc.operations)
    ensures schemas == [] && svc.operations != [] ==> r == Err(NULL_SCHEMA)
    ensures schemas != [] && r.Err? ==> r.error == DUPLICATE_MEMBER
    ensures r.Ok? ==>
      && r.value.name == ConstantName(env.reserved, svc.name)
      && r.value.parent == Some(if IsOn(env.settings.besimpleClient) then BESIMPLE_CLIENT else SOAP_CLIENT)
      && (BESIMPLE_IMPORT in r.value.uses <==> IsOn(env.settings.besimpleClient))
      && r.value.constants == [] && r.value.properties == []
      && |r.value.methods| == |svc.operations|
  {
    OperationMethodNames(env, u, schemas, svc.operations);
    match OperationMethods(env, u, schemas, svc.operations)
    case Err(e) => Err(e)
    case Ok(ms) =>
      var c := ServiceSkeleton(env, svc).(methods := ms);
      ServiceKeysDistinct(env.reserved, svc.operations, ms);
      if AcceptsMembers(c, TEMPLATE_METHODS) then Ok(c) else Err(DUPLICATE_MEMBER)
  }

  /**
   * Each service method is named by the double-sanitised operation name,
   * takes the single parameter `parameters` typed by the input message, and
   * passes the raw operation name to `__soapCall`.
   */
  lemma ServiceMethods(env: Env, u: Universe, schemas: seq<SchemaId>, svc: Service, i: int)
    requires KnownSchemas(u, schemas) && schemas != [] && 0 <= i < |svc.operations|
    ensures ServiceClass(env, u, schemas, svc).Ok? ==>
      var m := ServiceClass(env, u, schemas, svc).value.methods[i]; var op := svc.operations[i];
      var input := MessageType(u, schemas, op.inputMessage, op.docNamespaces).value;
      && m.name == ConstantName(env.reserved, op.name)
      && m.params == [Parameter(PARAMETERS, HintType(input), false)]
      && m.paramTags == [ParamTag(PARAMETERS, InflectDocBlockQualifiedName(env.settings, env.parseUrl, input))]
      && m.returnTag == Some(InflectDocBlockQualifiedName(env.settings, env.parseUrl,
                               MessageType(u, schemas, op.outputMessage, op.docNamespaces).value))
      && m.body == SoapCallBody(op.name)
  {
    OperationMethodsPointwise(env, u, schemas, svc.operations, i);
  }

  /**
   * Unlike a type's class, a service class gets its namespace even when it
   * is `''`: without a base namespace and Axis namespaces the port type of a
   * non-XSD namespace sits in namespace `''` and registers as `\Name`.
   */
  lemma ServiceNamespaceEvenWhenEmpty(env: Env, u: Universe, schemas: seq<SchemaId>, svc: Service)
    requires KnownSchemas(u, schemas) && (schemas != [] || svc.operations == [])
    requires !TruthyOpt(env.settings.namespace) && !env.settings.axisNamespaces
    requires NullText(ElementNamespace(svc.node)) != XSD_NS
    ensures ServiceClass(env, u, schemas, svc).Ok? ==>
      && ServiceClass(env, u, schemas, svc).value.namespace == Some("")
      && ClassmapValue(ServiceClass(env, u, schemas, svc).value) == "\\" + ConstantName(env.reserved, svc.name)
  {
    var uri := NullText(ElementNamespace(svc.node));
    assert Segments(env.settings, env.parseUrl(uri)) == [];
    if ServiceClass(env, u, schemas, svc).Ok? {
      var c := ServiceClass(env, u, schemas, svc).value;
      assert c.namespace == ServiceNamespace(env, svc) == Some("");
      ClassmapValueWithoutNamespace(c);
    }
  }

  /** The description of the classmap class: `Classmap extends \ArrayObject` in the configured namespace. */
  function ClassmapClass(s: Settings): (c: ClassDescriptor)
    ensures c.name == CLASSMAP_CLASS && c.parent == Some(ARRAY_OBJECT) && c.namespace == s.namespace
    ensures c.template == Some(CLASSMAP_TEMPLATE) && c.serviceTag == Some(NullText(s.wsdlDocumentPath))
  {
    EmptyClass(CLASSMAP_CLASS).(
      namespace := s.namespace,
      parent := Some(ARRAY_OBJECT),
      serviceTag := Some(NullText(s.wsdlDocumentPath)),
      template := Some(CLASSMAP_TEMPLATE))
  }

  /** Where `createClassmap` writes the INI file. */
  function ClassmapIniPath(env: Env): string {
    OutputPath(env.settings, env.dirSep, env.settings.namespace, CLASSMAP_FILE)
  }

  /**
   * The INI file sits next to the `Classmap` class file, which reads it from
   * its own directory: the two paths differ only in the file name.
   */
  lemma ClassmapFilesShareDirectory(env: Env)
    requires var s := env.settings; env.dirSep !in NullText(s.outputPath) && env.dirSep !in NullText(s.namespace)
    requires env.dirSep !in CLASSMAP_CLASS + ".php" && env.dirSep !in CLASSMAP_FILE
    ensures var a := Explode(env.dirSep, ClassmapIniPath(env));
      var b := Explode(env.dirSep, ClassPath(env, ClassmapClass(env.settings)));
      && |a| == |b| && a[..|a| - 1] == b[..|b| - 1]
      && a[|a| - 1] == CLASSMAP_FILE && b[|b| - 1] == CLASSMAP_CLASS + ".php"
  {
    var s := env.settings;
    OutputPathSplits(s, env.dirSep, s.namespace, CLASSMAP_FILE);
    OutputPathSplits(s, env.dirSep, s.namespace, CLASSMAP_CLASS + ".php");
  }

  /** The INI file after `createClassmap`: removed, then one line appended per entry; no entry leaves no file. */
  function ClassmapFile(m: Classmap): (f: Option<string>)
    ensures f.None? <==> m == []
  {
    if m == [] then None else Some(IniContent(m))
  }

  class ClassFactory {
    const env: Env
    const u: Universe
    const schemas: seq<SchemaId>
    const types: seq<TypeId>
    var classmap: Classmap

    ghost predicate Valid()
      reads this
    {
      KnownSchemas(u, schemas) && UniqueKeys(classmap)
    }

    constructor (env: Env, u: Universe, schemas: seq<SchemaId>, types: seq<TypeId>)
      requires KnownSchemas(u, schemas)
      ensures this.env == env && this.u == u && this.schemas == schemas && this.types == types
      ensures classmap == [] && Valid()
    {
      this.env := env;
      this.u := u;
      this.schemas := schemas;
      this.types := types;
      classmap := [];
    }

    /** `$this->classmap[$class->getName()] = $class->getNamespaceName() . '\\' . $class->getName()` */
    method Register(c: ClassDescriptor)
      requires Valid()
      modifies this
      ensures Valid()
      ensures classmap == Put(old(classmap), c.name, ClassmapValue(c))
    {
      classmap := Put(classmap, c.name, ClassmapValue(c));
    }

    /** `createEnum`: the enum class, written and registered; a type without restriction is fatal. */
    method CreateEnum(id: TypeId) returns (r: Result<Artifact>)
      requires Valid() && Resolvable(u, id)
      modifies this
      ensures Valid()
      ensures r.Err? <==> EnumClass(env, u, id).Err?
      ensures r.Ok? ==> r.value == ArtifactOf(env, EnumClass(env, u, id).value)
      ensures r.Ok? ==> classmap == Put(old(classmap), r.value.cls.name, ClassmapValue(r.value.cls))
      ensures r.Err? ==> r == Err(EnumClass(env, u, id).error) && classmap == old(classmap)
    {
      var c := FinalizeEnum(env, u, id);
      if c.Err? {
        return Err(c.error);
      }
      var a := Serialize(env, c.value);
      r := Ok(a);
      Register(c.value);
    }

    /** `createDTO`: the factory variant of the DTO class, written and registered; a repeated member name throws. */
    method CreateDto(id: TypeId) returns (r: Result<Artifact>)
      requires Valid() && Resolvable(u, id)
      modifies this
      ensures Valid()
      ensures r.Err? <==> DtoResult(env, FactoryVariant, u, id).Err?
      ensures r.Ok? ==> r.value == ArtifactOf(env, DtoClass(env, FactoryVariant, u, id))
      ensures r.Ok? ==> classmap == Put(old(classmap), r.value.cls.name, ClassmapValue(r.value.cls))
      ensures r.Err? ==> r == Err(DUPLICATE_MEMBER) && classmap == old(classmap)
    {
      var c := FinalizeDto(env, FactoryVariant, u, id);
      if c.Err? {
        return Err(c.error);
      }
      var a := Serialize(env, c.value);
      r := Ok(a);
      Register(c.value);
    }

    /** `getTypeFromQualifiedString`: the loop over the schemas, left at the first match. */
    method GetTypeFromQualifiedString(qualified: string, docNamespaces: map<string, string>) returns (r: Result<TypeView>)
      requires Valid()
      ensures r == MessageType(u, schemas, qualified, docNamespaces)
    {
      var q := ParseQualifiedXmlType(qualified);
      var uri := BoundUri(docNamespaces, q.prefix);
      var schema := FindSchema(uri);
      if schema.None? {
        return Err(NULL_SCHEMA);
      }
      r := Ok(TypeView(u.schemas[schema.value].targetNamespace, q.name));
    }

    /** The schema loop of `getTypeFromQualifiedString` with its `break`. */
    method FindSchema(uri: Option<string>) returns (schema: Option<SchemaId>)
      requires Valid()
      ensures schema == SchemaFor(u, schemas, uri)
    {
      schema := None;
      var i := 0;
      while i < |schemas|
        invariant 0 <= i <= |schemas|
        invariant schema == if i == 0 then None else Some(schemas[i - 1])
        invariant forall k :: 0 <= k < i ==> !NamespaceMatches(u, schemas[k], uri)
      {
        schema := Some(schemas[i]);
        if NamespaceMatches(u, schemas[i], uri) {
          SchemaForFirstMatch(u, schemas, uri, i);
          return;
        }
        i := i + 1;
      }
      if schemas != [] {
        SchemaForNoMatch(u, schemas, uri);
      }
    }

    /** `createService`: the skeleton, then one method per operation; the class is written and registered. */
    method CreateService(svc: Service) returns (r: Result<Artifact>)
      requires Valid()
      modifies this
      ensures Valid()
      ensures r.Err? <==> ServiceClass(env, u, schemas, svc).Err?
      ensures r.Ok? ==> r.value == ArtifactOf(env, ServiceClass(env, u, schemas, svc).value)
      ensures r.Ok? ==> classmap == Put(old(classmap), r.value.cls.name, ClassmapValue(r.value.cls))
      ensures r.Err? ==> r == Err(ServiceClass(env, u, schemas, svc).error) && classmap == old(classmap)
    {
      var cls := EmptyClass(ConstantName(env.reserved, svc.name));
      cls := cls.(template := Some(SERVICE_TEMPLATE));
      cls := cls.(namespace := ServiceNamespace(env, svc));
      if IsOn(env.settings.besimpleClient) {
        cls := cls.(parent := Some(BESIMPLE_CLIENT), uses := cls.uses + [BESIMPLE_IMPORT]);
      } else {
        cls := cls.(parent := Some(SOAP_CLIENT));
      }
      cls := cls.(xmlns := Some(XMLNS_TODO));
      if Truthy(svc.doc) {
        cls := cls.(doc := svc.doc);
      }
      var methods := OperationLoop(svc.operations);
      if methods.Err? {
        return Err(methods.error);
      }
      cls := cls.(methods := methods.value);
      if !AcceptsMembers(cls, TEMPLATE_METHODS) {
        return Err(DUPLICATE_MEMBER);
      }
      var a := Serialize(env, cls);
      r := Ok(a);
      Register(cls);
    }

    /** The operation loop of `createService`: one method per operation, in order, until a lookup fails. */
    method OperationLoop(ops: seq<Operation>) returns (r: Result<seq<Method>>)
      requires Valid()
      ensures r == OperationMethods(env, u, schemas, ops)
    {
      var methods: seq<Method> := [];
      var i := 0;
      while i < |ops|
        invariant 0 <= i <= |ops|
        invariant OperationMethods(env, u, schemas, ops[..i]) == Ok(methods)
      {
        var op := ops[i];
        var input := GetTypeFromQualifiedString(op.inputMessage, op.docNamespaces);
        if input.Err? {
          return Err(input.error);
        }
        var output := GetTypeFromQualifiedString(op.outputMessage, op.docNamespaces);
        OperationMethodsStep(env, u, schemas, ops, i, methods);
        methods := methods + [OperationMethod(env, input.value, output.value, op)];
        i := i + 1;
      }
      assert ops[..i] == ops;
      r := Ok(methods);
    }

    /**
     * `createClassmap`: the INI file (its path and content, one
     * `key = value` line per entry in classmap order) and the `Classmap`
     * class file.  The classmap itself is left as it is.
     */
    method CreateClassmap() returns (iniPath: string, ini: Option<string>, a: Artifact)
      requires Valid()
      ensures iniPath == ClassmapIniPath(env)
      ensures ini == ClassmapFile(classmap)
      ensures a == ArtifactOf(env, ClassmapClass(env.settings))
    {
      iniPath := AssemblePath(env.settings, env.dirSep, env.settings.namespace, CLASSMAP_FILE);
      ini := None;
      ghost var lines: seq<string> := [];
      var i := 0;
      while i < |classmap|
        invariant 0 <= i <= |classmap|
        invariant lines == IniTexts(classmap[..i])
        invariant ini == if i == 0 then None else Some(Unlines(lines))
      {
        var line := classmap[i].key + " = " + classmap[i].value;
        assert classmap[..i + 1] == classmap[..i] + [classmap[i]];
        IniTextsAppend(classmap[..i], classmap[i]);
        UnlinesAppend(lines, line);
        ini := Some(NullText(ini) + line + LINE_FEED);
        lines := lines + [line];
        i := i + 1;
      }
      assert classmap[..i] == classmap;
      a := Serialize(env, ClassmapClass(env.settings));
    }
  }
}
