/**
 * `NamespaceInflector`: the PHP namespace of a schema type or of an XML
 * element, derived from the namespace URI that owns it, and the qualified
 * names built on it.  League\Url is the parameter `parseUrl`.
 */
module Inflection {
  import opened Wrappers
  import opened Php
  import opened Xsd
  import opened Configuration
  import opened QualifiedNames

  /** The host and the path League\Url reads from a URI (`""` where absent). */
  datatype UrlParts = UrlParts(host: string, path: string)

  /** The argument of `inflectNamespace`: a `Type`, a `SimpleXMLElement`, or anything else. */
  datatype Subject = TypeSubject(t: TypeView) | ElementSubject(e: XmlNode) | OtherSubject

  /** The segment list built for a non-XSD URI: the base, then in Axis style the reversed host labels and the path. */
  function Segments(s: Settings, url: UrlParts): (segs: seq<string>)
    ensures TruthyOpt(s.namespace) ==> |segs| >= 1 && segs[0] == s.namespace.value
    ensures !TruthyOpt(s.namespace) && !s.axisNamespaces ==> segs == []
  {
    var base := if TruthyOpt(s.namespace) then [s.namespace.value] else [];
    var axis := if s.axisNamespaces
      then Reverse(Explode('.', url.host)) + (if Truthy(url.path) then Explode('/', url.path) else [])
      else [];
    base + axis
  }

  /**
   * Both branches of `inflectNamespace`, as a function of the owning
   * namespace URI; a `null` URI reaches it as `""`, which is what the URL
   * parser reads it as.
   */
  function NamespaceOfUri(s: Settings, parseUrl: string -> UrlParts, uri: string): (ns: Option<string>)
    ensures ns.None? <==> uri == XSD_NS
  {
    if uri == XSD_NS then None else Some(Implode("\\", Segments(s, parseUrl(uri))))
  }

  /** `NamespaceInflector::inflectNamespace` */
  function InflectNamespace(s: Settings, parseUrl: string -> UrlParts, subject: Subject): (r: Result<Option<string>>)
    ensures r.Err? <==> subject.OtherSubject?
    ensures r.Err? ==> r.error.InvalidArgument?
    ensures subject.TypeSubject? ==> (r.value.None? <==> IsXsd(subject.t))
  {
    match subject
    case TypeSubject(t) => Ok(NamespaceOfUri(s, parseUrl, NullText(t.targetNamespace)))
    case ElementSubject(e) => Ok(NamespaceOfUri(s, parseUrl, NullText(ElementNamespace(e))))
    case OtherSubject =>
      Err(InvalidArgument("Expected an instance of Goetas\\XML\\XSDReader\\Schema\\Type\\Type or Sapone\\Util\\SimpleXMLElement"))
  }

  /** The namespace of a type. */
  function TypeNamespace(s: Settings, parseUrl: string -> UrlParts, t: TypeView): (ns: Option<string>)
    ensures InflectNamespace(s, parseUrl, TypeSubject(t)) == Ok(ns)
  {
    NamespaceOfUri(s, parseUrl, NullText(t.targetNamespace))
  }

  /** A type and an element owned by the same URI get the same namespace. */
  lemma BranchesAgree(s: Settings, parseUrl: string -> UrlParts, t: TypeView, e: XmlNode)
    requires ElementNamespace(e) == t.targetNamespace
    ensures InflectNamespace(s, parseUrl, TypeSubject(t)) == InflectNamespace(s, parseUrl, ElementSubject(e))
  {
  }

  /** An element whose prefix is unbound reads `null`, which is no XSD URI: it gets a namespace. */
  lemma UnboundElementPrefixGetsNamespace(s: Settings, parseUrl: string -> UrlParts, e: XmlNode)
    requires ElementNamespace(e).None?
    ensures InflectNamespace(s, parseUrl, ElementSubject(e)) == Ok(Some(Implode("\\", Segments(s, parseUrl("")))))
  {
  }

  /** Without base namespace and Axis style a non-XSD type gets `''`, unlike the `null` of an XSD type. */
  lemma NoBaseNoAxisIsEmpty(s: Settings, parseUrl: string -> UrlParts, uri: string)
    requires !TruthyOpt(s.namespace) && !s.axisNamespaces && uri != XSD_NS
    ensures NamespaceOfUri(s, parseUrl, uri) == Some("")
    ensures NamespaceOfUri(s, parseUrl, XSD_NS) == None
  {
  }

  /** The base namespace, when set, is the namespace or its first `\`-separated segment. */
  lemma {:induction false} BaseComesFirst(s: Settings, parseUrl: string -> UrlParts, uri: string)
    requires TruthyOpt(s.namespace) && uri != XSD_NS
    ensures var ns := NamespaceOfUri(s, parseUrl, uri).value;
            var b := s.namespace.value;
            ns == b || (|ns| > |b| && ns[..|b| + 1] == b + "\\")
  {
    var segs := Segments(s, parseUrl(uri));
    var b := s.namespace.value;
    if |segs| > 1 {
      var ns := Implode("\\", segs);
      assert ns == b + "\\" + Implode("\\", segs[1..]);
      assert ns[..|b| + 1] == b + "\\";
    }
  }

  /**
   * When no piece holds a backslash, the namespace splits back into its
   * segments: the base, then the reversed host labels, then the path pieces.
   */
  lemma {:induction false} NamespaceSplitsIntoSegments(s: Settings, parseUrl: string -> UrlParts, uri: string)
    requires uri != XSD_NS
    requires s.namespace.Some? ==> '\\' !in s.namespace.value
    requires '\\' !in parseUrl(uri).host && '\\' !in parseUrl(uri).path
    requires TruthyOpt(s.namespace) || s.axisNamespaces
    ensures var url := parseUrl(uri);
            Explode('\\', NamespaceOfUri(s, parseUrl, uri).value) ==
              (if TruthyOpt(s.namespace) then [s.namespace.value] else [])
              + (if s.axisNamespaces then Reverse(Explode('.', url.host)) else [])
              + (if s.axisNamespaces && Truthy(url.path) then Explode('/', url.path) else [])
  {
    var url := parseUrl(uri);
    var segs := Segments(s, url);
    var base := if TruthyOpt(s.namespace) then [s.namespace.value] else [];
    var hosts := if s.axisNamespaces then Reverse(Explode('.', url.host)) else [];
    var path := if s.axisNamespaces && Truthy(url.path) then Explode('/', url.path) else [];
    assert segs == base + hosts + path;
    ExplodePartsAvoid('.', url.host, '\\');
    ExplodePartsAvoid('/', url.path, '\\');
    assert AvoidsBackslash(base);
    assert AvoidsBackslash(hosts);
    assert AvoidsBackslash(path);
    AvoidsBackslashConcat(base, hosts);
    AvoidsBackslashConcat(base + hosts, path);
    assert |segs| >= 1;
    ExplodeImplode('\\', segs);
  }

  predicate AvoidsBackslash(parts: seq<string>) {
    forall i :: 0 <= i < |parts| ==> '\\' !in parts[i]
  }

  lemma AvoidsBackslashConcat(a: seq<string>, b: seq<string>)
    requires AvoidsBackslash(a) && AvoidsBackslash(b)
    ensures AvoidsBackslash(a + b)
  {
    forall i | 0 <= i < |a + b|
      ensures '\\' !in (a + b)[i]
    {
      if i >= |a| {
        assert (a + b)[i] == b[i - |a|];
      }
    }
  }

  lemma {:induction false} ImplodeFour(a: string, b: string, c: string, d: string)
    ensures Implode("\\", [a, b, c, d]) == a + "\\" + b + "\\" + c + "\\" + d
  {
    assert [a, b, c, d][1..] == [b, c, d];
    assert [b, c, d][1..] == [c, d];
    assert [c, d][1..] == [d];
    assert Implode("\\", [c, d]) == c + "\\" + d;
    assert Implode("\\", [b, c, d]) == b + "\\" + (c + "\\" + d);
    assert Implode("\\", [a, b, c, d]) == a + "\\" + (b + "\\" + (c + "\\" + d));
  }

  /**
   * A three-label host and a one-piece path in Axis style, without base
   * namespace: `http://api.example.com/v1` becomes `com\\example\\api\\v1`.
   */
  lemma {:induction false} AxisExample(s: Settings, parseUrl: string -> UrlParts, uri: string, a: string, b: string, c: string, p: string)
    requires uri != XSD_NS
    requires parseUrl(uri) == UrlParts(a + "." + b + "." + c, p)
    requires '.' !in a && '.' !in b && '.' !in c && '/' !in p && Truthy(p)
    requires !TruthyOpt(s.namespace) && s.axisNamespaces
    ensures NamespaceOfUri(s, parseUrl, uri) == Some(c + "\\" + b + "\\" + a + "\\" + p)
  {
    ExplodeThree('.', a, b, c);
    assert a + ['.'] + b + ['.'] + c == a + "." + b + "." + c;
    ExplodeWord('/', p);
    assert Reverse([a, b, c]) == [c, b, a];
    assert Segments(s, parseUrl(uri)) == [c, b, a, p];
    ImplodeFour(c, b, a, p);
  }

  /** `inflectQualifiedName`: the namespace and `\` when the namespace is truthy, then the type name. */
  function InflectQualifiedName(s: Settings, parseUrl: string -> UrlParts, t: TypeView): (r: string)
    ensures IsXsd(t) ==> r == NullText(t.name)
    ensures !TruthyOpt(TypeNamespace(s, parseUrl, t)) ==> r == NullText(t.name)
    ensures TruthyOpt(TypeNamespace(s, parseUrl, t)) ==>
      var ns := TypeNamespace(s, parseUrl, t).value;
      |r| == |ns| + 1 + |NullText(t.name)| && r[..|ns|] == ns && r[|ns|] == '\\' && r[|ns| + 1..] == NullText(t.name)
  {
    var ns := TypeNamespace(s, parseUrl, t);
    (if TruthyOpt(ns) then ns.value + "\\" else "") + NullText(t.name)
  }

  /** `inflectDocBlockQualifiedName`: a leading `\` exactly for non-XSD types. */
  function InflectDocBlockQualifiedName(s: Settings, parseUrl: string -> UrlParts, t: TypeView): (r: string)
    ensures IsXsd(t) ==> r == NullText(t.name)
    ensures !IsXsd(t) ==> r == "\\" + InflectQualifiedName(s, parseUrl, t)
  {
    (if !IsXsd(t) then "\\" else "") + InflectQualifiedName(s, parseUrl, t)
  }

  /** The docblock name starts with `\` iff the type is not XSD-owned (for names not starting with `\`). */
  lemma DocBlockNameIsAbsoluteIffNotXsd(s: Settings, parseUrl: string -> UrlParts, t: TypeView)
    requires NullText(t.name) == "" || NullText(t.name)[0] != '\\'
    ensures var r := InflectDocBlockQualifiedName(s, parseUrl, t);
            (r != "" && r[0] == '\\') <==> !IsXsd(t)
  {
  }
}
