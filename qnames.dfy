/**
 * Qualified XML names `prefix:name`: `SimpleXMLElement::parseQualifiedXmlType`,
 * its copy `GenerateCommand::parseXmlType`, and the namespace of an XML
 * element looked up through the prefix of its own name.
 */
module QualifiedNames {
  import opened Wrappers
  import opened Php

  /** The length of the longest leading run of `\w` characters. */
  function WordRun(s: string): (k: nat)
    ensures k <= |s|
    ensures AllWordChars(s[..k])
    ensures k < |s| ==> !IsWordChar(s[k])
  {
    if s == "" || !IsWordChar(s[0]) then 0
    else
      var k := 1 + WordRun(s[1..]);
      assert s[..k] == [s[0]] + s[1..][..k - 1];
      k
  }

  /** The text `prefix:` when there is a prefix. */
  function PrefixText(p: string): string {
    if p == "" then "" else p + ":"
  }

  /** The outcome of `preg_match('/^((?<prefix>\w+):)?(?<name>.*$)/', ...)`: no match, or the two groups. */
  datatype RegexMatch = NoMatch | Match(prefix: string, name: string)

  /**
   * `.*$`: `.` stops at a line feed and `$` matches at the end or before a
   * final line feed, so the group is the whole rest or the rest without its
   * final line feed, and nothing when a line feed comes earlier.
   */
  function NameGroup(rest: string): (n: Option<string>)
    ensures n.Some? ==> '\n' !in n.value && (rest == n.value || rest == n.value + "\n")
    ensures n.None? ==> exists i :: 0 <= i < |rest| - 1 && rest[i] == '\n'
  {
    if '\n' !in rest then Some(rest)
    else if rest[|rest| - 1] == '\n' && '\n' !in rest[..|rest| - 1] then
      assert rest == rest[..|rest| - 1] + "\n";
      Some(rest[..|rest| - 1])
    else
      assert exists i :: 0 <= i < |rest| - 1 && rest[i] == '\n' by {
        var i :| 0 <= i < |rest| && rest[i] == '\n';
        if i == |rest| - 1 {
          var j :| 0 <= j < |rest| - 1 && rest[..|rest| - 1][j] == '\n';
          assert rest[j] == '\n';
        }
      }
      None
  }

  /**
   * The regex match.  The optional group takes the whole leading `\w` run
   * when a colon follows it (a shorter run is never followed by a colon);
   * when the name group then fails, dropping the prefix does not help, as
   * the same early line feed is still there.
   */
  function MatchQualified(s: string): (m: RegexMatch)
    ensures m.Match? ==> (m.prefix == "" || (AllWordChars(m.prefix) && |m.prefix| > 0))
    ensures m.Match? ==> '\n' !in m.name
    ensures m.Match? ==> s == PrefixText(m.prefix) + m.name || s == PrefixText(m.prefix) + m.name + "\n"
    ensures m.NoMatch? ==> exists i :: 0 <= i < |s| - 1 && s[i] == '\n'
  {
    var k := WordRun(s);
    if 0 < k < |s| && s[k] == ':' then
      var p := s[..k];
      var rest := s[k + 1..];
      assert s == p + ":" + rest;
      match NameGroup(rest)
      case Some(n) =>
        assert PrefixText(p) + n + "\n" == p + ":" + (n + "\n");
        Match(p, n)
      case None =>
        var i :| 0 <= i < |rest| - 1 && rest[i] == '\n';
        assert s[k + 1 + i] == '\n';
        NoMatch
    else
      match NameGroup(s)
      case Some(n) => Match("", n)
      case None => NoMatch
  }

  /** `array('prefix' => ..., 'name' => ...)`: prefix `''` and name `null` stand for a missing or `empty()` group. */
  datatype QName = QName(prefix: string, name: Option<string>)

  /** `SimpleXMLElement::parseQualifiedXmlType` */
  function ParseQualifiedXmlType(s: string): (q: QName)
    ensures q.prefix == "" || (AllWordChars(q.prefix) && Truthy(q.prefix) && |q.prefix| < |s| && s[..|q.prefix| + 1] == q.prefix + ":")
    ensures q.name.Some? ==> Truthy(q.name.value)
  {
    match MatchQualified(s)
    case NoMatch => QName("", None)
    case Match(p, n) =>
      assert p != "" ==> |p| < |s| && s[..|p| + 1] == p + ":" by {
        if p != "" {
          var t := if s == PrefixText(p) + n then n else n + "\n";
          assert s == (p + ":") + t;
        }
      }
      QName(if Truthy(p) then p else "", if Truthy(n) then Some(n) else None)
  }

  /** `XmlType` of the command: like `QName`, but a missing prefix is `null`. */
  datatype XmlType = XmlType(prefix: Option<string>, name: Option<string>)

  /** `GenerateCommand::parseXmlType` */
  function ParseXmlType(s: string): (t: XmlType)
    ensures t.prefix != Some("")
  {
    match MatchQualified(s)
    case NoMatch => XmlType(None, None)
    case Match(p, n) => XmlType(if Truthy(p) then Some(p) else None, if Truthy(n) then Some(n) else None)
  }

  /** The two parsers agree but for the spelling of a missing prefix. */
  lemma ParseXmlTypeMatchesQualified(s: string)
    ensures ParseXmlType(s).name == ParseQualifiedXmlType(s).name
    ensures ParseXmlType(s).prefix == (if ParseQualifiedXmlType(s).prefix == "" then None
                                       else Some(ParseQualifiedXmlType(s).prefix))
  {
  }

  /** A prefixed name splits at the first colon; the name may hold more colons. */
  lemma {:induction false} ParsePrefixed(p: string, n: string)
    requires |p| > 0 && AllWordChars(p)
    requires '\n' !in n
    ensures MatchQualified(p + ":" + n) == Match(p, n)
    ensures ParseQualifiedXmlType(p + ":" + n) ==
            QName(if Truthy(p) then p else "", if Truthy(n) then Some(n) else None)
  {
    var s := p + ":" + n;
    var k := WordRun(s);
    assert s[..|p|] == p;
    assert s[|p|] == ':';
    if k < |p| {
      assert false;
    }
    if k > |p| {
      assert false;
    }
    assert s[k + 1..] == n;
  }

  /** Without a leading `\w+:` the whole input is the name and the prefix is empty. */
  lemma {:induction false} ParseUnprefixed(s: string)
    requires forall k :: 0 < k < |s| && s[k] == ':' ==> !AllWordChars(s[..k])
    requires '\n' !in s
    ensures ParseQualifiedXmlType(s) == QName("", if Truthy(s) then Some(s) else None)
  {
    var k := WordRun(s);
    if 0 < k < |s| && s[k] == ':' {
      assert false;
    }
  }

  /** `empty()` treats `""` and `"0"` alike, for the name as for the prefix. */
  lemma ParseEmptyAndZero()
    ensures ParseQualifiedXmlType("") == QName("", None)
    ensures ParseQualifiedXmlType("0") == QName("", None)
  {
    ParseUnprefixed("");
    ParseUnprefixed("0");
  }

  /** A prefix `0` is dropped, and an empty name after a prefix is missing. */
  lemma ParseEmptyParts()
    ensures ParseQualifiedXmlType("0:item") == QName("", Some("item"))
    ensures ParseQualifiedXmlType("tns:") == QName("tns", None)
  {
    ParsePrefixed("0", "item");
    assert "0" + ":" + "item" == "0:item";
    ParsePrefixed("tns", "");
    assert "tns" + ":" + "" == "tns:";
  }

  /** Line feeds: a final one is dropped from the name, an earlier one defeats the match. */
  lemma ParseLineFeeds()
    ensures MatchQualified("item\n") == Match("", "item")
    ensures ParseQualifiedXmlType("a\nb") == QName("", None)
  {
    assert NameGroup("item\n") == Some("item") by {
      assert "item\n"[..4] == "item";
    }
    assert WordRun("a\nb") == 1 by {
      assert WordRun("\nb") == 0;
      assert "a\nb"[1..] == "\nb";
    }
    assert NameGroup("a\nb").None? by {
      assert "a\nb"[..2] == "a\n";
      assert '\n' in "a\nb"[..2];
    }
  }

  /** The text a parsed name stands for. */
  function QualifiedText(q: QName): string {
    PrefixText(q.prefix) + NullText(q.name)
  }

  /** Rebuilding `p:n` from its parse gives back the input. */
  lemma ParseRoundTrip(p: string, n: string)
    requires |p| > 0 && AllWordChars(p) && p != "0"
    requires Truthy(n) && '\n' !in n
    ensures ParseQualifiedXmlType(p + ":" + n) == QName(p, Some(n))
    ensures QualifiedText(ParseQualifiedXmlType(p + ":" + n)) == p + ":" + n
  {
    ParsePrefixed(p, n);
  }

  /** The same for an input without prefix. */
  lemma ParseRoundTripUnprefixed(s: string)
    requires forall k :: 0 < k < |s| && s[k] == ':' ==> !AllWordChars(s[..k])
    requires Truthy(s) && '\n' !in s
    ensures QualifiedText(ParseQualifiedXmlType(s)) == s
  {
    ParseUnprefixed(s);
  }

  /** An XML element: its (possibly prefixed) name and the prefix-to-URI map `getNamespaces()` returns. */
  datatype XmlNode = XmlNode(name: string, namespaces: map<string, string>)

  /** `SimpleXMLElement::getNamespace`: reading a missing key gives `null`. */
  function ElementNamespace(e: XmlNode): (ns: Option<string>)
    ensures ns.Some? ==> ns.value in e.namespaces.Values
  {
    var prefix := ParseQualifiedXmlType(e.name).prefix;
    if prefix in e.namespaces then Some(e.namespaces[prefix]) else None
  }

  /** A prefixed element name reads its own prefix; an unprefixed one reads the key `''`. */
  lemma ElementNamespaceLookup(e: XmlNode, p: string, n: string)
    requires |p| > 0 && AllWordChars(p) && p != "0" && '\n' !in n
    ensures ElementNamespace(e.(name := p + ":" + n)) ==
            (if p in e.namespaces then Some(e.namespaces[p]) else None)
    ensures ElementNamespace(e.(name := n)) == (if "" in e.namespaces then Some(e.namespaces[""]) else None)
            || (exists k :: 0 < k < |n| && n[k] == ':' && AllWordChars(n[..k]))
  {
    ParsePrefixed(p, n);
    if forall k :: 0 < k < |n| && n[k] == ':' ==> !AllWordChars(n[..k]) {
      ParseUnprefixed(n);
    }
  }
}
