/**
 * Identifier and type-name repair: the sanitizers of the builders and the
 * factory (`sanitizeVariableName`, `sanitizeConstantName`) and of the
 * command (`sanitizeString`, `validateType`, `convertXsdTypeToPhpType`,
 * `validateNamingConvention`).  The PHP tokenizer check `isReservedWord`
 * is the parameter `reserved`.
 */
module Naming {
  import opened Wrappers
  import opened Php

  /** `INVALID_NAME_SUFFIX` / `NAME_SUFFIX` */
  const INVALID_NAME_SUFFIX: string := "_"

  predicate NoWhitespace(s: string) {
    forall i :: 0 <= i < |s| ==> !IsPcreSpace(s[i])
  }

  /** `preg_replace('/\s/', '_', $s)`: every whitespace character becomes `_`. */
  function SanitizeVariableName(s: string): (r: string)
    ensures |r| == |s|
    ensures forall i :: 0 <= i < |s| ==> r[i] == (if IsPcreSpace(s[i]) then '_' else s[i])
  {
    if s == "" then "" else [if IsPcreSpace(s[0]) then '_' else s[0]] + SanitizeVariableName(s[1..])
  }

  lemma SanitizeVariableNameRemovesWhitespace(s: string)
    ensures NoWhitespace(SanitizeVariableName(s))
    ensures |SanitizeVariableName(s)| == |s|
  {
  }

  lemma SanitizeVariableNameIdempotent(s: string)
    ensures SanitizeVariableName(SanitizeVariableName(s)) == SanitizeVariableName(s)
  {
  }

  /** A name without whitespace is left alone. */
  lemma SanitizeVariableNameKeepsCleanNames(s: string)
    requires NoWhitespace(s)
    ensures SanitizeVariableName(s) == s
  {
  }

  /** `sanitizeConstantName` / `sanitizeString`: a reserved word gets one `_` appended. */
  function SanitizeConstantName(reserved: string -> bool, s: string): (r: string)
    ensures |s| <= |r| <= |s| + 1 && r[..|s|] == s
    ensures r == s <==> !reserved(s)
    ensures |r| == |s| + 1 ==> r[|s|] == '_'
  {
    if reserved(s) then s + INVALID_NAME_SUFFIX else s
  }

  /**
   * The two-step name of enum constants, service classes and service methods:
   * whitespace to `_`, then the reserved-word guard.
   */
  function ConstantName(reserved: string -> bool, raw: string): (r: string)
    ensures NoWhitespace(r)
    ensures |raw| <= |r| <= |raw| + 1
    ensures r[..|raw|] == SanitizeVariableName(raw)
    ensures !reserved(SanitizeVariableName(raw)) ==> r == SanitizeVariableName(raw)
    ensures reserved(SanitizeVariableName(raw)) ==> r == SanitizeVariableName(raw) + INVALID_NAME_SUFFIX
  {
    var v := SanitizeVariableName(raw);
    SanitizeConstantName(reserved, v)
  }

  const INTEGER_NAMES: set<string> := {
    "int", "integer", "long", "byte", "short", "negativeinteger", "nonnegativeinteger",
    "nonpositiveinteger", "positiveinteger", "unsignedbyte", "unsignedint", "unsignedlong",
    "unsignedshort"}
  const FLOAT_NAMES: set<string> := {"float", "double", "decimal"}
  const STRING_NAMES: set<string> := {"<anyxml>", "string", "token", "normalizedstring", "hexbinary"}

  /** The PHP types the table maps to. */
  const PHP_TYPES: set<string> := {"int", "float", "string", "\\DateTime", "mixed"}

  /** The `switch` on a lower-cased XSD type name shared by `validateType` and `convertXsdTypeToPhpType`. */
  function PrimitiveType(lower: string): (p: Option<string>)
    ensures p.Some? ==> p.value in PHP_TYPES
  {
    if lower in INTEGER_NAMES then Some("int")
    else if lower in FLOAT_NAMES then Some("float")
    else if lower in STRING_NAMES then Some("string")
    else if lower == "datetime" then Some("\\DateTime")
    else if lower == "anytype" then Some("mixed")
    else None
  }

  /** The table covers exactly these names. */
  lemma PrimitiveTable(lower: string)
    ensures PrimitiveType(lower).Some? <==>
      lower in INTEGER_NAMES + FLOAT_NAMES + STRING_NAMES + {"datetime", "anytype"}
    ensures PrimitiveType("datetime") == Some("\\DateTime")
    ensures PrimitiveType("anytype") == Some("mixed")
  {
  }

  /** The three families are disjoint, so each maps to its own PHP type. */
  lemma PrimitiveFamilies(lower: string)
    ensures lower in INTEGER_NAMES ==> PrimitiveType(lower) == Some("int")
    ensures lower in FLOAT_NAMES ==> PrimitiveType(lower) == Some("float")
    ensures lower in STRING_NAMES ==> PrimitiveType(lower) == Some("string")
  {
    if lower in FLOAT_NAMES {
      assert lower == "float" || lower == "double" || lower == "decimal";
    }
    if lower in STRING_NAMES {
      assert lower == "<anyxml>" || lower == "string" || lower == "token" || lower == "normalizedstring" || lower == "hexbinary";
    }
  }

  predicate EndsWithBrackets(s: string) {
    |s| >= 2 && s[|s| - 2..] == "[]"
  }

  /** `strtolower(substr($s, 0, 7)) == "arrayof"` */
  predicate HasArrayOfPrefix(s: string) {
    |s| >= 7 && ToLower(s[..7]) == "arrayof"
  }

  /** `validateType` of `GenerateCommand`. */
  function ValidateType(reserved: string -> bool, typeName: string): (r: string)
    ensures EndsWithBrackets(typeName) ==> r == typeName
    ensures !EndsWithBrackets(typeName) && HasArrayOfPrefix(typeName) ==> r == typeName[7..] + "[]"
    ensures !EndsWithBrackets(typeName) && !HasArrayOfPrefix(typeName) && PrimitiveType(ToLower(typeName)).Some? ==>
      r == PrimitiveType(ToLower(typeName)).value
    ensures !EndsWithBrackets(typeName) && !HasArrayOfPrefix(typeName) && PrimitiveType(ToLower(typeName)).None? ==>
      && |typeName| <= |r| <= |typeName| + 2 && r[..|typeName|] == typeName
      && (forall i :: |typeName| <= i < |r| ==> r[i] == '_')
      && (|r| == |typeName| <==> !reserved(typeName))
      && (|r| == |typeName| + 2 <==> reserved(typeName) && reserved(typeName + INVALID_NAME_SUFFIX))
      && (reserved(r) ==> reserved(typeName) && reserved(typeName + INVALID_NAME_SUFFIX))
  {
    if EndsWithBrackets(typeName) then typeName
    else if HasArrayOfPrefix(typeName) then typeName[7..] + "[]"
    else match PrimitiveType(ToLower(typeName))
      case Some(p) => p
      case None =>
        var once := if reserved(typeName) then typeName + INVALID_NAME_SUFFIX else typeName;
        if reserved(once) then once + INVALID_NAME_SUFFIX else once
  }

  lemma ToLowerIdempotent(s: string)
    ensures ToLower(ToLower(s)) == ToLower(s)
  {
  }

  /** No name of the table starts like `arrayof`. */
  lemma PrimitiveNamesAreNoArrayOf(lower: string)
    requires |lower| >= 2 && lower[0] == 'a' && lower[1] == 'r'
    ensures PrimitiveType(lower).None?
  {
  }

  /** Every name of the table has at least three characters. */
  lemma PrimitiveNamesAreLong(lower: string)
    requires |lower| < 3
    ensures PrimitiveType(lower).None?
  {
  }

  /** A name with the `ArrayOf` prefix, in any case, is not in the primitive table. */
  lemma ArrayOfIsNoPrimitive(s: string)
    ensures HasArrayOfPrefix(s) ==> PrimitiveType(ToLower(s)).None?
  {
    if HasArrayOfPrefix(s) {
      var l := ToLower(s);
      assert l[..7] == ToLower(s[..7]);
      assert l[..7][0] == 'a' && l[..7][1] == 'r';
      PrimitiveNamesAreNoArrayOf(l);
    }
  }

  /** The primitive table does not care about case: `DateTime`, `DATETIME` and `datetime` agree. */
  lemma ValidateTypeIgnoresCaseOnPrimitives(reserved: string -> bool, a: string, b: string)
    requires ToLower(a) == ToLower(b)
    requires PrimitiveType(ToLower(a)).Some?
    requires !EndsWithBrackets(a) && !EndsWithBrackets(b)
    ensures ValidateType(reserved, a) == ValidateType(reserved, b) == PrimitiveType(ToLower(a)).value
  {
    ArrayOfIsNoPrimitive(a);
    ArrayOfIsNoPrimitive(b);
  }

  /** An `ArrayOf` name keeps its element name as written: the table is not applied to it. */
  lemma ValidateTypeArrayOfIsNotMapped(reserved: string -> bool)
    ensures ValidateType(reserved, "ArrayOfInt") == "Int[]"
    ensures ValidateType(reserved, "int[]") == "int[]"
  {
    assert ToLower("ArrayOfInt"[..7]) == "arrayof";
  }

  /** What `/^(ArrayOf(?<t1>\w+)|(?<t2>\w+)\[\])$/i` finds: no match, the `t1` branch or the `t2` branch. */
  datatype ArrayPattern = NoArrayMatch | ArrayOfMatch(t1: string) | BracketsMatch(t2: string)

  /**
   * `$` also matches before a final line feed, so the alternatives are tried
   * on the input without it; both consist of `\w` characters only.
   */
  function MatchArrayPattern(s: string): (m: ArrayPattern)
    ensures m.ArrayOfMatch? ==> |m.t1| > 0 && AllWordChars(m.t1)
    ensures m.BracketsMatch? ==> |m.t2| > 0 && AllWordChars(m.t2)
  {
    var core := if |s| > 0 && s[|s| - 1] == '\n' then s[..|s| - 1] else s;
    if |core| > 7 && ToLower(core[..7]) == "arrayof" && AllWordChars(core[7..]) then ArrayOfMatch(core[7..])
    else if |core| > 2 && core[|core| - 2..] == "[]" && AllWordChars(core[..|core| - 2]) then
      BracketsMatch(core[..|core| - 2])
    else NoArrayMatch
  }

  /** The `switch` of `convertXsdTypeToPhpType`: a table name becomes its PHP type, any other name is kept. */
  function TableOrSelf(typeName: string): (r: string)
    ensures r in PHP_TYPES || r == typeName
    ensures r != typeName ==> PrimitiveType(ToLower(typeName)) == Some(r)
    ensures PrimitiveType(ToLower(typeName)).Some? ==> r == PrimitiveType(ToLower(typeName)).value
    ensures PrimitiveType(ToLower(typeName)).None? ==> r == typeName
  {
    match PrimitiveType(ToLower(typeName))
    case Some(p) => p
    case None => typeName
  }

  /**
   * `convertXsdTypeToPhpType` as written: `$matches['t1'] ? $matches['t1'] : $matches['t2']`.
   * After a `t1` match the trailing group `t2` is not reported at all, so a
   * falsy `t1` (`"0"`) gives a null name, which becomes `""`.
   */
  function ConvertXsdTypeToPhpType(typeName: string): (r: string)
    ensures EndsWithBrackets(r)
    ensures MatchArrayPattern(typeName).NoArrayMatch? ==> r == TableOrSelf(typeName) + "[]"
    ensures MatchArrayPattern(typeName).ArrayOfMatch? && Truthy(MatchArrayPattern(typeName).t1) ==>
      r == TableOrSelf(MatchArrayPattern(typeName).t1) + "[]"
    ensures MatchArrayPattern(typeName).ArrayOfMatch? && !Truthy(MatchArrayPattern(typeName).t1) ==> r == "[]"
    ensures MatchArrayPattern(typeName).BracketsMatch? ==> r == TableOrSelf(MatchArrayPattern(typeName).t2) + "[]"
  {
    var name := match MatchArrayPattern(typeName)
      case NoArrayMatch => typeName
      case ArrayOfMatch(t1) => if Truthy(t1) then t1 else ""
      case BracketsMatch(t2) => t2;
    TableOrSelf(name) + "[]"
  }

  /** The same, taking the `t1` group whenever the `ArrayOf` branch matched. */
  function ConvertXsdTypeToPhpTypeIntended(typeName: string): (r: string)
    ensures EndsWithBrackets(r)
    ensures MatchArrayPattern(typeName).NoArrayMatch? ==> r == TableOrSelf(typeName) + "[]"
    ensures MatchArrayPattern(typeName).ArrayOfMatch? ==> r == TableOrSelf(MatchArrayPattern(typeName).t1) + "[]"
    ensures MatchArrayPattern(typeName).BracketsMatch? ==> r == TableOrSelf(MatchArrayPattern(typeName).t2) + "[]"
  {
    var name := match MatchArrayPattern(typeName)
      case NoArrayMatch => typeName
      case ArrayOfMatch(t1) => t1
      case BracketsMatch(t2) => t2;
    TableOrSelf(name) + "[]"
  }

  lemma {:induction false} MatchArrayOfForm(x: string)
    requires |x| > 0 && AllWordChars(x)
    ensures MatchArrayPattern("ArrayOf" + x) == ArrayOfMatch(x)
  {
    var s := "ArrayOf" + x;
    assert s[|s| - 1] == x[|x| - 1];
    assert s[..7] == "ArrayOf" && s[7..] == x;
    assert ToLower("ArrayOf") == "arrayof";
  }

  lemma {:induction false} MatchBracketsForm(x: string)
    requires |x| > 0 && AllWordChars(x)
    ensures MatchArrayPattern(x + "[]") == BracketsMatch(x)
  {
    var s := x + "[]";
    assert s[|s| - 1] == ']';
    assert s[|s| - 2..] == "[]" && s[..|s| - 2] == x;
    if |s| > 7 {
      assert s[7..][|s| - 8] == ']';
      assert !AllWordChars(s[7..]);
    }
  }

  /** `ArrayOfX` and `X[]` name the same PHP array type, for every `X` but `"0"`. */
  lemma ConvertArrayFormsAgree(x: string)
    requires |x| > 0 && AllWordChars(x) && x != "0"
    ensures ConvertXsdTypeToPhpType("ArrayOf" + x) == ConvertXsdTypeToPhpType(x + "[]")
  {
    MatchArrayOfForm(x);
    MatchBracketsForm(x);
  }

  /** The `"0"` case: the two spellings disagree. */
  lemma ConvertArrayOfZero()
    ensures ConvertXsdTypeToPhpType("ArrayOf0") == "[]"
    ensures ConvertXsdTypeToPhpType("0[]") == "0[]"
  {
    MatchArrayOfForm("0");
    MatchBracketsForm("0");
    assert "ArrayOf" + "0" == "ArrayOf0" && "0" + "[]" == "0[]";
    PrimitiveNamesAreLong(ToLower(""));
    PrimitiveNamesAreLong(ToLower("0"));
    assert TableOrSelf("") == "" && TableOrSelf("0") == "0";
  }

  /** With the intended choice of group the two spellings always agree. */
  lemma ConvertIntendedArrayFormsAgree(x: string)
    requires |x| > 0 && AllWordChars(x)
    ensures ConvertXsdTypeToPhpTypeIntended("ArrayOf" + x) == ConvertXsdTypeToPhpTypeIntended(x + "[]")
    ensures ConvertXsdTypeToPhpTypeIntended(x + "[]") == TableOrSelf(x) + "[]"
  {
    MatchArrayOfForm(x);
    MatchBracketsForm(x);
  }

  /** The character classes of `validateNamingConvention`: as written, and with the intended escapes. */
  datatype CharClass = LeadAsWritten | BodyAsWritten | LeadIntended | BodyIntended

  predicate HighByte(c: char) {
    '\U{7F}' <= c <= '\U{FF}'
  }

  /**
   * As written the classes are `[a-zA-Z_x7f-xff]` and `[a-zA-Z0-9_x7f-xff]`:
   * without backslashes `x7f-xff` lists `x`, `7`, the range `f-x`, `f`, `f`.
   * Intended are the escapes `\x7f-\xff`, the bytes 127 to 255.
   */
  predicate InClass(k: CharClass, c: char) {
    match k
    case LeadAsWritten => IsAsciiLetter(c) || c == '_' || c == 'x' || c == '7' || ('f' <= c <= 'x')
    case BodyAsWritten => IsAsciiLetter(c) || IsAsciiDigit(c) || c == '_' || c == 'x' || c == '7' || ('f' <= c <= 'x')
    case LeadIntended => IsAsciiLetter(c) || c == '_' || HighByte(c)
    case BodyIntended => IsAsciiLetter(c) || IsAsciiDigit(c) || c == '_' || HighByte(c)
  }

  /** As written the classes reduce to letters, `_` and `7`, and to `\w`. */
  lemma AsWrittenClasses(c: char)
    ensures InClass(LeadAsWritten, c) <==> IsAsciiLetter(c) || c == '_' || c == '7'
    ensures InClass(BodyAsWritten, c) <==> IsWordChar(c)
  {
  }

  /** The first `preg_replace` of `validateNamingConvention`: drops the leading characters outside a class. */
  function StripLeading(s: string, k: CharClass): (r: string)
    ensures |r| <= |s| && r == s[|s| - |r|..]
    ensures r != "" ==> InClass(k, r[0])
    ensures r == "" ==> forall i :: 0 <= i < |s| ==> !InClass(k, s[i])
    ensures forall i :: 0 <= i < |s| - |r| ==> !InClass(k, s[i])
  {
    if s == "" then "" else if InClass(k, s[0]) then s else StripLeading(s[1..], k)
  }

  /** Stripping a concatenation strips the first part, or, when all of it goes, the second. */
  lemma {:induction false} StripLeadingConcat(a: string, b: string, k: CharClass)
    ensures StripLeading(a + b, k) == if StripLeading(a, k) != "" then StripLeading(a, k) + b else StripLeading(b, k)
  {
    if a == "" {
      assert a + b == b;
    } else {
      assert (a + b)[0] == a[0] && (a + b)[1..] == a[1..] + b;
      if !InClass(k, a[0]) {
        StripLeadingConcat(a[1..], b, k);
      }
    }
  }

  /** The second `preg_replace`: drops every character outside a class. */
  function KeepOnly(s: string, k: CharClass): (r: string)
    ensures forall i :: 0 <= i < |r| ==> InClass(k, r[i])
    ensures s != "" && InClass(k, s[0]) ==> r != "" && r[0] == s[0]
    ensures s != "" && InClass(k, s[|s| - 1]) ==> r != "" && r[|r| - 1] == s[|s| - 1]
    ensures |r| <= |s|
    ensures (forall i :: 0 <= i < |s| ==> InClass(k, s[i])) ==> r == s
    ensures (forall i :: 0 <= i < |s| ==> !InClass(k, s[i])) ==> r == ""
  {
    if s == "" then ""
    else (if InClass(k, s[0]) then [s[0]] else []) + KeepOnly(s[1..], k)
  }

  /** Filtering distributes over concatenation: every character is kept or dropped on its own. */
  lemma {:induction false} KeepOnlyConcat(a: string, b: string, k: CharClass)
    ensures KeepOnly(a + b, k) == KeepOnly(a, k) + KeepOnly(b, k)
  {
    if a != "" {
      assert (a + b)[1..] == a[1..] + b;
      KeepOnlyConcat(a[1..], b, k);
      AppendAssoc(if InClass(k, a[0]) then [a[0]] else [], KeepOnly(a[1..], k), KeepOnly(b, k));
    } else {
      assert a + b == b;
    }
  }

  /** The first step of `validateNamingConvention`: a name not starting with `[A-Za-z_]` is `ucfirst`-ed and suffixed. */
  function SuffixBadStart(name: string): (r: string)
    ensures StartsLikeLabel(name) ==> r == name
    ensures !StartsLikeLabel(name) ==> r != "" && r[|r| - 1] == '_'
  {
    if StartsLikeLabel(name) then name else UcFirst(name) + INVALID_NAME_SUFFIX
  }

  predicate StartsLikeLabel(name: string) {
    name != "" && (IsAsciiLetter(name[0]) || name[0] == '_')
  }

  /** `validateNamingConvention` over the given pair of classes. */
  function RepairName(name: string, lead: CharClass, body: CharClass): (r: string)
    requires (lead == LeadAsWritten && body == BodyAsWritten) || (lead == LeadIntended && body == BodyIntended)
    ensures forall i :: 0 <= i < |r| ==> InClass(body, r[i])
    ensures !StartsLikeLabel(name) ==> r != "" && r[|r| - 1] == '_'
    ensures lead == LeadIntended ==> r != "" && InClass(LeadIntended, r[0])
    ensures StartsLikeLabel(name) ==> r == KeepOnly(name, body)
    ensures !StartsLikeLabel(name) ==> r == KeepOnly(StripLeading(UcFirst(name), lead), body) + INVALID_NAME_SUFFIX
  {
    ClassesNest(lead, body);
    var s := SuffixBadStart(name);
    if StartsLikeLabel(name) then
      RepairTail(s, lead, body)
    else
      var t := UcFirst(name);
      assert s == t + INVALID_NAME_SUFFIX;
      SuffixSurvives(t, lead, body);
      RepairTail(s, lead, body)
  }

  /** Each class pair allows `_` and the letters first, and in the body whatever it allows first. */
  lemma ClassesNest(lead: CharClass, body: CharClass)
    requires (lead == LeadAsWritten && body == BodyAsWritten) || (lead == LeadIntended && body == BodyIntended)
    ensures InClass(lead, '_') && InClass(body, '_')
    ensures forall c :: IsAsciiLetter(c) ==> InClass(lead, c)
    ensures forall c :: InClass(lead, c) ==> InClass(body, c)
  {
  }

  /** Stripping and filtering keep a final `_`, since both classes contain `_`. */
  lemma SuffixSurvives(t: string, lead: CharClass, body: CharClass)
    requires InClass(lead, '_') && InClass(body, '_')
    ensures KeepOnly(StripLeading(t + INVALID_NAME_SUFFIX, lead), body)
      == KeepOnly(StripLeading(t, lead), body) + INVALID_NAME_SUFFIX
  {
    StripLeadingConcat(t, INVALID_NAME_SUFFIX, lead);
    KeepOnlyConcat(StripLeading(t, lead), INVALID_NAME_SUFFIX, body);
    assert StripLeading(INVALID_NAME_SUFFIX, lead) == INVALID_NAME_SUFFIX;
    assert KeepOnly(INVALID_NAME_SUFFIX, body) == INVALID_NAME_SUFFIX;
    KeepOnlyConcat(INVALID_NAME_SUFFIX, "", body);
  }

  /** The two `preg_replace` calls of `validateNamingConvention` on the suffixed name. */
  function RepairTail(s: string, lead: CharClass, body: CharClass): (r: string)
    requires s != "" && (InClass(lead, s[0]) || InClass(lead, s[|s| - 1]))
    requires (lead == LeadAsWritten && body == BodyAsWritten) || (lead == LeadIntended && body == BodyIntended)
    ensures r != "" && InClass(lead, r[0])
    ensures forall i :: 0 <= i < |r| ==> InClass(body, r[i])
    ensures InClass(body, s[|s| - 1]) ==> r[|r| - 1] == s[|s| - 1]
    ensures InClass(lead, s[0]) ==> r == KeepOnly(s, body)
  {
    ClassesNest(lead, body);
    var t := StripLeading(s, lead);
    assert t != "" by {
      if !InClass(lead, s[0]) {
        assert InClass(lead, s[|s| - 1]);
      }
    }
    assert InClass(body, t[0]);
    assert t[|t| - 1] == s[|s| - 1];
    KeepOnly(t, body)
  }

  /** `validateNamingConvention` as written. */
  function ValidateNamingConvention(name: string): (r: string)
    ensures forall i :: 0 <= i < |r| ==> IsWordChar(r[i])
    ensures !StartsLikeLabel(name) ==> r != "" && r[|r| - 1] == '_'
    ensures StartsLikeLabel(name) ==> r == KeepOnly(name, BodyAsWritten)
    ensures StartsLikeLabel(name) && AllWordChars(name) ==> r == name
    ensures !StartsLikeLabel(name) ==> r == KeepOnly(StripLeading(UcFirst(name), LeadAsWritten), BodyAsWritten) + INVALID_NAME_SUFFIX
  {
    assert AllWordChars(name) ==> forall i :: 0 <= i < |name| ==> InClass(BodyAsWritten, name[i]);
    RepairName(name, LeadAsWritten, BodyAsWritten)
  }

  /**
   * The unescaped class keeps a leading digit `7`: `7abc` becomes `7abc_`,
   * and so does every `7` followed by word characters; the result is no
   * PHP identifier.
   */
  lemma ValidateNamingConventionKeepsLeadingSeven(rest: string)
    requires AllWordChars(rest)
    ensures ValidateNamingConvention("7" + rest) == "7" + rest + INVALID_NAME_SUFFIX
    ensures !InClass(LeadIntended, ValidateNamingConvention("7" + rest)[0])
  {
    var name := "7" + rest;
    assert name[0] == '7' && name[1..] == rest;
    assert !StartsLikeLabel(name);
    assert UcFirst(name) == name by {
      assert UpperChar('7') == '7';
    }
    assert StripLeading(name, LeadAsWritten) == name by {
      AsWrittenClasses('7');
    }
    assert KeepOnly(name, BodyAsWritten) == name by {
      forall i | 0 <= i < |name| ensures InClass(BodyAsWritten, name[i]) {
        AsWrittenClasses(name[i]);
        if i > 0 {
          assert name[i] == rest[i - 1];
        }
      }
    }
    assert ValidateNamingConvention(name) == RepairName(name, LeadAsWritten, BodyAsWritten);
  }

  /** `validateNamingConvention` with the escapes `\x7f-\xff`: always a PHP label. */
  function ValidateNamingConventionIntended(name: string): (r: string)
    ensures r != "" && InClass(LeadIntended, r[0])
    ensures forall i :: 0 <= i < |r| ==> InClass(BodyIntended, r[i])
    ensures !StartsLikeLabel(name) ==> r[|r| - 1] == '_'
    ensures StartsLikeLabel(name) ==> r == KeepOnly(name, BodyIntended)
    ensures StartsLikeLabel(name) && (forall i :: 0 <= i < |name| ==> InClass(BodyIntended, name[i])) ==> r == name
    ensures !StartsLikeLabel(name) ==> r == KeepOnly(StripLeading(UcFirst(name), LeadIntended), BodyIntended) + INVALID_NAME_SUFFIX
  {
    RepairName(name, LeadIntended, BodyIntended)
  }
}
