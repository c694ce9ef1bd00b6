/**
 * The namespace and class-name helpers of `GenerateCommand`, the older
 * generator front end: a base namespace, optionally followed by a fixed
 * category segment, and the lines of its `$this[...]` classmap.
 */
module Legacy {
  import opened Wrappers
  import opened Php

  const NAMESPACE_MESSAGE: string := "Message"
  const NAMESPACE_TYPE: string := "Type"
  const NAMESPACE_ENUM: string := "Enum"

  /** The kind of class a name is made for. */
  datatype Category = MessageCategory | TypeCategory | EnumCategory

  function CategorySegment(c: Category): string {
    match c
    case MessageCategory => NAMESPACE_MESSAGE
    case TypeCategory => NAMESPACE_TYPE
    case EnumCategory => NAMESPACE_ENUM
  }

  /** The command's own settings: `$this->namespace` and `$this->structuredNamespace`. */
  datatype CommandSettings = CommandSettings(namespace: Option<string>, structuredNamespace: bool)

  /** `getNamespace($typeNamespace)` */
  function LegacyNamespace(s: CommandSettings, typeNamespace: string): (r: string)
    ensures !TruthyOpt(s.namespace) ==> r == ""
    ensures TruthyOpt(s.namespace) && !s.structuredNamespace ==> r == s.namespace.value
    ensures TruthyOpt(s.namespace) && s.structuredNamespace ==>
      |r| == |s.namespace.value| + 1 + |typeNamespace| && r[..|s.namespace.value|] == s.namespace.value
      && r[|s.namespace.value|] == '\\' && r[|s.namespace.value| + 1..] == typeNamespace
  {
    if !TruthyOpt(s.namespace) then ""
    else if s.structuredNamespace then s.namespace.value + "\\" + typeNamespace
    else s.namespace.value
  }

  /** `getTypesNamespace`, `getEnumsNamespace`, `getMessagesNamespace` */
  function CategoryNamespace(s: CommandSettings, c: Category): (r: string)
    ensures r == LegacyNamespace(s, CategorySegment(c))
    ensures TruthyOpt(s.namespace) <==> Truthy(r)
  {
    LegacyNamespace(s, CategorySegment(c))
  }

  /** The body shared by the three `get*ClassName`: `ns\` in front only for a truthy namespace. */
  function LegacyClassName(s: CommandSettings, typeNamespace: string, className: string): (r: string)
    ensures !TruthyOpt(s.namespace) ==> r == className
    ensures TruthyOpt(s.namespace) && (s.structuredNamespace ==> typeNamespace != "") ==>
      r == LegacyNamespace(s, typeNamespace) + "\\" + className
  {
    var ns := LegacyNamespace(s, typeNamespace);
    (if Truthy(ns) then ns + "\\" else "") + className
  }

  /** `getTypeClassName`, `getEnumClassName`, `getMessageClassName` */
  function CategoryClassName(s: CommandSettings, c: Category, className: string): (r: string)
    ensures !TruthyOpt(s.namespace) ==> r == className
    ensures TruthyOpt(s.namespace) ==> r == CategoryNamespace(s, c) + "\\" + className
  {
    LegacyClassName(s, CategorySegment(c), className)
  }

  /** A class name splits into base, category and short name, or base and short name, or just the short name. */
  lemma {:induction false} LegacyClassNameSegments(s: CommandSettings, typeNamespace: string, className: string)
    requires s.namespace.Some? ==> '\\' !in s.namespace.value
    requires '\\' !in className && '\\' !in typeNamespace && typeNamespace != ""
    ensures Explode('\\', LegacyClassName(s, typeNamespace, className)) ==
      if !TruthyOpt(s.namespace) then [className]
      else if s.structuredNamespace then [s.namespace.value, typeNamespace, className]
      else [s.namespace.value, className]
  {
    var r := LegacyClassName(s, typeNamespace, className);
    if !TruthyOpt(s.namespace) {
      ExplodeWord('\\', className);
    } else if s.structuredNamespace {
      var b := s.namespace.value;
      assert r == b + ['\\'] + typeNamespace + ['\\'] + className;
      ExplodeThree('\\', b, typeNamespace, className);
    } else {
      var b := s.namespace.value;
      assert r == b + ['\\'] + className;
      ExplodeTwo('\\', b, className);
    }
  }

  const ENTRY_OPEN: string := "$this['"
  const ENTRY_MIDDLE: string := "'] = '"
  const ENTRY_CLOSE: string := "';\n"

  /** `generateClassmapEntry`: `$this['<soap type>'] = '<php type>';` and a line feed. */
  function GenerateClassmapEntry(soapType: string, phpType: string): (line: string)
    ensures |line| == |soapType| + |phpType| + 16
    ensures line[..7] == ENTRY_OPEN && line[|line| - 3..] == ENTRY_CLOSE
    ensures '\n' !in soapType + phpType ==> line[|line| - 1] == '\n' && '\n' !in line[..|line| - 1]
  {
    var line := ENTRY_OPEN + soapType + ENTRY_MIDDLE + phpType + ENTRY_CLOSE;
    assert line[..7] == ENTRY_OPEN;
    assert line[|line| - 3..] == ENTRY_CLOSE;
    assert '\n' !in soapType + phpType ==> '\n' !in line[..|line| - 1] by {
      if '\n' !in soapType + phpType {
        assert line[..|line| - 1] == ENTRY_OPEN + soapType + ENTRY_MIDDLE + phpType + "';";
        assert forall i :: 0 <= i < |soapType| ==> soapType[i] == (soapType + phpType)[i];
        assert forall i :: 0 <= i < |phpType| ==> phpType[i] == (soapType + phpType)[|soapType| + i];
      }
    }
    line
  }

  /** The position of the first `c` in `s`, or `|s|`. */
  function FirstIndexOf(s: string, c: char): (k: nat)
    ensures k <= |s|
    ensures k < |s| ==> s[k] == c
    ensures forall j :: 0 <= j < k ==> s[j] != c
  {
    if s == "" then 0 else if s[0] == c then 0 else 1 + FirstIndexOf(s[1..], c)
  }

  /** Reads a classmap entry line back into its two names. */
  function ParseClassmapEntry(line: string): (r: Option<(string, string)>)
  {
    if |line| >= 16 && line[..7] == ENTRY_OPEN && line[|line| - 3..] == ENTRY_CLOSE then
      var inner := line[7..|line| - 3];
      var k := FirstIndexOf(inner, '\'');
      if k + 6 <= |inner| && inner[k..k + 6] == ENTRY_MIDDLE then Some((inner[..k], inner[k + 6..])) else None
    else None
  }

  /** Every entry reads back, as long as the soap type has no quote; the PHP type may hold anything. */
  lemma {:induction false} ClassmapEntryRoundTrip(soapType: string, phpType: string)
    requires '\'' !in soapType
    ensures ParseClassmapEntry(GenerateClassmapEntry(soapType, phpType)) == Some((soapType, phpType))
  {
    var line := GenerateClassmapEntry(soapType, phpType);
    assert line == ENTRY_OPEN + soapType + ENTRY_MIDDLE + phpType + ENTRY_CLOSE;
    var inner := line[7..|line| - 3];
    assert inner == soapType + ENTRY_MIDDLE + phpType;
    var k := FirstIndexOf(inner, '\'');
    assert inner[|soapType|] == '\'';
    assert k == |soapType|;
    assert inner[k..k + 6] == ENTRY_MIDDLE;
    assert inner[..k] == soapType;
    assert inner[k + 6..] == phpType;
  }
}
