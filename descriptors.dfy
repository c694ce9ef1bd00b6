/**
 * Plain descriptors of the classes the generator emits, standing for the
 * Zend\Code generators it fills in, and the parts every builder shares:
 * the class skeleton of a schema type, the output path of a class file and
 * the classmap value of a class.
 */
module Descriptors {
  import opened Wrappers
  import opened Php
  import opened Xsd
  import opened Configuration
  import opened Inflection

  datatype Visibility = Public | Protected

  /** A class constant with its value and optional docblock text. */
  datatype Constant = Constant(name: string, value: string, doc: Option<string>)

  /** A property: its name, visibility, the type of its `@var` tag and its docblock text. */
  datatype Property = Property(name: string, visibility: Visibility, varTag: string, doc: string)

  /** The type given to a parameter: a class name, or the schema type object itself. */
  datatype TypeHint = HintName(className: string) | HintType(schemaType: TypeView)

  /** A method parameter; `defaultsToNull` is a `null` default value. */
  datatype Parameter = Parameter(name: string, hint: TypeHint, defaultsToNull: bool)

  /** A `@param` tag. */
  datatype ParamTag = ParamTag(name: string, typeName: string)

  /** A method: name, parameters, `@param` and `@return` tags, body and docblock text. */
  datatype Method = Method(
    name: string,
    params: seq<Parameter>,
    paramTags: seq<ParamTag>,
    returnTag: Option<string>,
    body: string,
    doc: string)

  /**
   * A generated class.  `namespace` is `getNamespaceName()` (null until set),
   * `xmlns` the value of the `@xmlns` tag, `serviceTag` that of the
   * `@service` tag, and `template` the class a generator was reflected
   * from, if any, whose own members precede the ones listed here.
   */
  datatype ClassDescriptor = ClassDescriptor(
    name: string,
    namespace: Option<string>,
    parent: Option<string>,
    isAbstract: bool,
    constants: seq<Constant>,
    properties: seq<Property>,
    uses: seq<string>,
    methods: seq<Method>,
    doc: string,
    xmlns: Option<string>,
    serviceTag: Option<string>,
    template: Option<string>)

  /** A class file: where it is written and what it declares. */
  datatype Artifact = Artifact(path: string, cls: ClassDescriptor)

  /**
   * What the builders read besides the schema: the configuration, the
   * tokenizer test `isReservedWord`, the URL parser and `DIRECTORY_SEPARATOR`.
   */
  datatype Env = Env(settings: Settings, reserved: string -> bool, parseUrl: string -> UrlParts, dirSep: char)

  /** The `\InvalidArgumentException` Zend\Code's `ClassGenerator` throws for a member name already present. */
  const DUPLICATE_MEMBER: Error := InvalidArgument("A member by that name already exists in this class.")

  /** No name occurs twice. */
  predicate Distinct(names: seq<string>) {
    forall i, j :: 0 <= i < j < |names| ==> names[i] != names[j]
  }

  /** A name in front of distinct names keeps them distinct exactly when it is not among them. */
  lemma DistinctCons(x: string, names: seq<string>)
    ensures Distinct([x] + names) <==> x !in names && Distinct(names)
  {
    var xs := [x] + names;
    if x in names {
      var k :| 0 <= k < |names| && names[k] == x;
      assert xs[0] == xs[k + 1];
    }
    if !Distinct(names) {
      var i, j :| 0 <= i < j < |names| && names[i] == names[j];
      assert xs[i + 1] == xs[j + 1];
    }
    if !Distinct(xs) {
      var i, j :| 0 <= i < j < |xs| && xs[i] == xs[j];
      if i == 0 {
        assert names[j - 1] == x;
      } else {
        assert names[i - 1] == names[j - 1];
      }
    }
  }

  function ConstantNames(cs: seq<Constant>): (ns: seq<string>)
    ensures |ns| == |cs| && forall i :: 0 <= i < |cs| ==> ns[i] == cs[i].name
  {
    seq(|cs|, i requires 0 <= i < |cs| => cs[i].name)
  }

  function PropertyNames(ps: seq<Property>): (ns: seq<string>)
    ensures |ns| == |ps| && forall i :: 0 <= i < |ps| ==> ns[i] == ps[i].name
  {
    seq(|ps|, i requires 0 <= i < |ps| => ps[i].name)
  }

  function MethodNames(ms: seq<Method>): (ns: seq<string>)
    ensures |ns| == |ms| && forall i :: 0 <= i < |ms| ==> ns[i] == ms[i].name
  {
    seq(|ms|, i requires 0 <= i < |ms| => ms[i].name)
  }

  /** The keys of the generator's method table: `strtolower` of each name. */
  function MethodKeys(names: seq<string>): (ks: seq<string>)
    ensures |ks| == |names| && forall i :: 0 <= i < |names| ==> ks[i] == ToLower(names[i])
  {
    seq(|names|, i requires 0 <= i < |names| => ToLower(names[i]))
  }

  /**
   * What `ClassGenerator` lets through: `addPropertyFromGenerator` (for
   * constants too) and `addMethodFromGenerator` throw when the name is
   * already taken, properties and constants compared as they are and
   * methods after `strtolower`.  `reflected` are the methods a class
   * reflected from a template starts with.
   */
  predicate AcceptsMembers(c: ClassDescriptor, reflected: seq<string>) {
    && Distinct(ConstantNames(c.constants))
    && Distinct(PropertyNames(c.properties))
    && Distinct(MethodKeys(reflected + MethodNames(c.methods)))
  }

  /** A type whose schema is known (what `$type->getSchema()` needs). */
  predicate HasSchema(u: Universe, id: TypeId) {
    id in u.types && u.types[id].schema in u.schemas
  }

  /** The type, the base of its parent and the types of its elements all have a schema. */
  predicate Resolvable(u: Universe, id: TypeId) {
    && HasSchema(u, id)
    && (u.types[id].parent.Some? ==> HasSchema(u, u.types[id].parent.value.base))
    && (forall i :: 0 <= i < |u.types[id].elements| ==> HasSchema(u, u.types[id].elements[i].elementType))
  }

  /** In a closed arena every type is resolvable. */
  lemma ClosedIsResolvable(u: Universe, id: TypeId)
    requires Closed(u) && id in u.types
    ensures Resolvable(u, id)
  {
    assert TypeClosed(u, u.types[id]);
  }

  function EmptyClass(name: string): ClassDescriptor {
    ClassDescriptor(name, None, None, false, [], [], [], [], "", None, None, None)
  }

  /**
   * `AbstractBuilder::buildClass` up to `finalize`, and
   * `ClassFactory::createClassFromType`: the type's own name, the inflected
   * namespace only when it is truthy, the type's documentation and an
   * `@xmlns` tag with the target namespace.  (The factory passes the
   * documentation through Html2Text, which this model leaves out.)
   */
  function ClassFromType(env: Env, u: Universe, id: TypeId): (c: ClassDescriptor)
    requires HasSchema(u, id)
    ensures c.name == u.types[id].name
    ensures c.namespace.Some? <==> TruthyOpt(TypeNamespace(env.settings, env.parseUrl, View(u, id)))
    ensures c.namespace.Some? ==> c.namespace == TypeNamespace(env.settings, env.parseUrl, View(u, id))
    ensures c.xmlns == Some(NullText(View(u, id).targetNamespace)) && c.doc == u.types[id].doc
    ensures c.parent.None? && !c.isAbstract && c.template.None? && c.serviceTag.None?
    ensures c.constants == [] && c.properties == [] && c.uses == [] && c.methods == []
  {
    var v := View(u, id);
    var ns := TypeNamespace(env.settings, env.parseUrl, v);
    EmptyClass(u.types[id].name).(
      namespace := if TruthyOpt(ns) then ns else None,
      doc := u.types[id].doc,
      xmlns := Some(NullText(v.targetNamespace)))
  }

  /** The same skeleton, set up on a fresh class generator one setter at a time. */
  method NewClassFromType(env: Env, u: Universe, id: TypeId) returns (c: ClassDescriptor)
    requires HasSchema(u, id)
    ensures c == ClassFromType(env, u, id)
  {
    var targetNamespace := u.schemas[u.types[id].schema].targetNamespace;
    var namespace := TypeNamespace(env.settings, env.parseUrl, View(u, id));
    c := EmptyClass(u.types[id].name);
    if TruthyOpt(namespace) {
      c := c.(namespace := namespace);
    }
    c := c.(doc := u.types[id].doc, xmlns := Some(NullText(targetNamespace)));
  }

  /** An XSD-owned type never gets a namespace, whatever the configuration. */
  lemma XsdTypeHasNoNamespace(env: Env, u: Universe, id: TypeId)
    requires HasSchema(u, id) && IsXsd(View(u, id))
    ensures ClassFromType(env, u, id).namespace.None?
  {
  }

  /**
   * The segments of the output path, in order: the output directory, the
   * namespace with `\` turned into the directory separator when the
   * autoloader is exactly `psr0`, and the file name.
   */
  function PathSegments(s: Settings, sep: char, namespace: Option<string>, fileName: string): (segs: seq<string>)
    ensures |segs| == (if UsesPsr0Layout(s) then 3 else 2)
    ensures segs[0] == NullText(s.outputPath) && segs[|segs| - 1] == fileName
  {
    [NullText(s.outputPath)]
      + (if UsesPsr0Layout(s) then [ReplaceChar(NullText(namespace), '\\', sep)] else [])
      + [fileName]
  }

  /** `implode(DIRECTORY_SEPARATOR, $outputPath)` of `buildClass`, `serializeClass` and `createClassmap`. */
  function OutputPath(s: Settings, sep: char, namespace: Option<string>, fileName: string): string {
    Implode([sep], PathSegments(s, sep, namespace, fileName))
  }

  /** The file of a class: its name with `.php`. */
  function ClassPath(env: Env, c: ClassDescriptor): string {
    OutputPath(env.settings, env.dirSep, c.namespace, c.name + ".php")
  }

  /** The file written for a finished class (`file_put_contents` of the generated code). */
  function ArtifactOf(env: Env, c: ClassDescriptor): Artifact {
    Artifact(ClassPath(env, c), c)
  }

  /** The output path as the code assembles it: the pieces appended to a list one by one, then joined. */
  method AssemblePath(s: Settings, sep: char, namespace: Option<string>, fileName: string) returns (path: string)
    ensures path == OutputPath(s, sep, namespace, fileName)
  {
    var outputPath := [NullText(s.outputPath)];
    if s.autoloader == AUTOLOADER_PSR0 {
      outputPath := outputPath + [ReplaceChar(NullText(namespace), '\\', sep)];
    }
    outputPath := outputPath + [fileName];
    path := Implode([sep], outputPath);
  }

  /** `serializeClass` and the end of `buildClass`: the class and the path it is written to. */
  method Serialize(env: Env, c: ClassDescriptor) returns (a: Artifact)
    ensures a == ArtifactOf(env, c)
  {
    var path := AssemblePath(env.settings, env.dirSep, c.namespace, c.name + ".php");
    a := Artifact(path, c);
  }

  /**
   * Laid out as `psr0`, the path splits at the separator into the output
   * directory, the namespace segments and the file name; otherwise into the
   * directory and the file name alone.
   */
  lemma {:induction false} OutputPathSplits(s: Settings, sep: char, namespace: Option<string>, fileName: string)
    requires sep !in NullText(s.outputPath) && sep !in NullText(namespace) && sep !in fileName
    ensures UsesPsr0Layout(s) ==>
      Explode(sep, OutputPath(s, sep, namespace, fileName)) ==
        [NullText(s.outputPath)] + Explode('\\', NullText(namespace)) + [fileName]
    ensures !UsesPsr0Layout(s) ==>
      Explode(sep, OutputPath(s, sep, namespace, fileName)) == [NullText(s.outputPath), fileName]
  {
    var out := NullText(s.outputPath);
    if UsesPsr0Layout(s) {
      var dir := ReplaceChar(NullText(namespace), '\\', sep);
      var segs := PathSegments(s, sep, namespace, fileName);
      assert segs == [out, dir, fileName];
      assert segs[1..] == [dir, fileName] && segs[1..][1..] == [fileName];
      assert Implode([sep], [fileName]) == fileName;
      assert Implode([sep], [dir, fileName]) == dir + [sep] + fileName;
      assert Implode([sep], segs) == out + [sep] + (dir + [sep] + fileName);
      ExplodeConcat(sep, out, dir + [sep] + fileName);
      ExplodeConcat(sep, dir, fileName);
      ExplodeWord(sep, out);
      ExplodeWord(sep, fileName);
      ExplodeReplaceChar(NullText(namespace), '\\', sep);
    } else {
      var segs := PathSegments(s, sep, namespace, fileName);
      assert segs == [out, fileName] && segs[1..] == [fileName];
      assert Implode([sep], [fileName]) == fileName;
      assert Implode([sep], segs) == out + [sep] + fileName;
      ExplodeTwo(sep, out, fileName);
    }
  }

  /** The classmap value of a class: `getNamespaceName() . '\' . getName()`. */
  function ClassmapValue(c: ClassDescriptor): (v: string)
    ensures |v| == |NullText(c.namespace)| + 1 + |c.name|
    ensures v[|NullText(c.namespace)|] == '\\'
    ensures v[..|NullText(c.namespace)|] == NullText(c.namespace) && v[|NullText(c.namespace)| + 1..] == c.name
  {
    NullText(c.namespace) + "\\" + c.name
  }

  /** A class without namespace is registered with a leading backslash. */
  lemma ClassmapValueWithoutNamespace(c: ClassDescriptor)
    requires c.namespace.None? || c.namespace == Some("")
    ensures ClassmapValue(c) == "\\" + c.name
  {
  }
}
