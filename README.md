# Sapone class generation, modelled in Dafny

Sapone reads a WSDL document and writes PHP classes for it:
- an enum class for every string restriction with `enumeration` facets;
- a data-transfer class (DTO) for every complex type;
- a SOAP client class for every port type;
- a classmap that maps SOAP type names to PHP class names.

This project models the layer between the parsed schema model and the generated code: namespaces, names, class descriptors, output paths, the classmap and the driver that walks the schemas. It then proves what that layer promises.

Modules, one per part of the program:

| module | file | models |
|---|---|---|
| `Wrappers` | `wrappers.dfy` | `null` (`Option`), the exceptions and fatal errors (`Result`) |
| `Php` | `php.dfy` | the PHP built-ins the code relies on: truthiness, `strtolower`, `ucfirst`, `explode`, `implode`, `array_reverse`, `str_ireplace` of one character |
| `Xsd` | `xsd.dfy` | the parsed XML Schema model as an arena of schemas and types named by ids |
| `Configuration` | `config.dfy` | `Sapone\Config`, a class with its fields, defaults and setters |
| `QualifiedNames` | `qnames.dfy` | `SimpleXMLElement::parseQualifiedXmlType`, `getNamespace`, and `GenerateCommand::parseXmlType` |
| `Inflection` | `inflection.dfy` | `NamespaceInflector` |
| `Naming` | `naming.dfy` | the sanitizers of the builders and the factory; `validateType`, `convertXsdTypeToPhpType` and `validateNamingConvention` of the command |
| `Descriptors` | `descriptors.dfy` | the class descriptors standing for the Zend\Code generators; the class skeleton of a type; output paths; classmap values |
| `Dtos` | `dtos.dfy` | `ClassBuilder::finalize` and the DTO part of `ClassFactory::createDTO` |
| `Enums` | `enums.dfy` | `EnumBuilder::finalize` and the enum part of `ClassFactory::createEnum` |
| `Classmaps` | `classmap.dfy` | the classmap array, with PHP's update in place, and its INI lines |
| `Factories` | `factory.dfy` | `ClassFactory`, a class with the classmap as its mutable field |
| `Legacy` | `legacy.dfy` | the namespace, class-name and classmap-entry helpers of `GenerateCommand` |
| `Builders` | `builders.dfy` | `AbstractBuilder::buildClass` for the enum and the DTO builder |
| `Generation` | `generator.dfy` | `Generator::generate` without its I/O |

Where the PHP code repeats a rule, the model defines it once and states the differences between the copies:
- `createDTO` and `ClassBuilder::finalize` are one function with a `Variant` parameter.
- The two regex parsers of qualified names share one match function.

Inputs that come from foreign code are parameters of the model:
- The PHP tokenizer test `isReservedWord` is `reserved: string -> bool`.
- The League\Url parser is `parseUrl: string -> UrlParts`, which gives the host and the path.
- `DIRECTORY_SEPARATOR` is `dirSep`.
- Everything read from the WSDL through XPath is given as data: the schemas, the port types and the operations with their message names, documentation and namespaces.

PHP `null` is `Option.None`. A string is truthy unless it is `''` or `'0'`. A fatal error (a method call on `null` or `false`) and a thrown exception are both `Err` results.

## Model

| member | source | states |
|---|---|---|
| Php.Truthy | src/Sapone/Util/NamespaceInflector.php:48 | `(bool)` of a string: false exactly for `''` and `'0'` |
| Php.Implode | src/Sapone/Util/NamespaceInflector.php:65 | `implode`; `Php.ImplodeExplode` and `Php.ExplodeImplode` make it the inverse of `explode` |
| Php.Unlines | src/Sapone/Factory/ClassFactory.php:447-449 | text written line by line; split back into its lines by `Php.ExplodeUnlines` |
| Php.ToLower | src/Sapone/Config.php:110 | `strtolower`: the same length, and each character is lowered if it is an ASCII capital, otherwise kept |
| Php.ToLowerConcat | src/Sapone/Config.php:110 | `strtolower` of a concatenation is the concatenation of the lowered parts |
| Php.ToLowerUcFirst | src/Sapone/Builder/ClassBuilder.php:104-120 | `strtolower(ucfirst(s))` is `strtolower(s)` |
| Php.UcFirst | src/Sapone/Builder/ClassBuilder.php:108 | `ucfirst`: only the first character is upper-cased; the rest and the length are kept |
| Php.ReplaceChar | src/Sapone/Builder/AbstractBuilder.php:68 | `str_ireplace('\\', DIRECTORY_SEPARATOR, …)`: every backslash is replaced and nothing else changes |
| Php.Explode | src/Sapone/Util/NamespaceInflector.php:58 | `explode` never returns an empty list |
| Php.ExplodePartsLackDelimiter | src/Sapone/Util/NamespaceInflector.php:58 | no piece of `explode` contains the delimiter |
| Php.Reverse | src/Sapone/Util/NamespaceInflector.php:58 | `array_reverse`: element `i` of the result is element `n-1-i` of the input |
| Php.ImplodeExplode | src/Sapone/Util/NamespaceInflector.php:65 | joining the pieces of `explode` with the delimiter gives back the string |
| Php.ExplodeImplode | src/Sapone/Util/NamespaceInflector.php:65 | splitting a join of delimiter-free pieces gives back the pieces |
| Php.ExplodePartsAvoid | src/Sapone/Util/NamespaceInflector.php:58 | a character that is absent from the input is absent from every piece |
| Php.ExplodeWord | src/Sapone/Builder/AbstractBuilder.php:75 | a string without the delimiter is a single piece |
| Php.ExplodeJoin | src/Sapone/Builder/AbstractBuilder.php:75 | a delimiter-free word, then the delimiter, adds one piece in front |
| Php.ExplodeTwo | src/Sapone/Builder/AbstractBuilder.php:75 | two delimiter-free words joined by the delimiter split into those two |
| Php.ExplodeThree | src/Sapone/Builder/AbstractBuilder.php:75 | three delimiter-free words joined by the delimiter split into those three |
| Php.ExplodeConcat | src/Sapone/Builder/AbstractBuilder.php:75 | splitting `x . d . y` gives the pieces of `x` followed by the pieces of `y` |
| Php.ExplodeReplaceChar | src/Sapone/Builder/AbstractBuilder.php:68 | once the backslashes are replaced by a separator the string lacks, splitting at the separator is splitting at the backslashes |
| Php.UnlinesAppend | src/Sapone/Builder/ClassBuilder.php:95 | appending one line adds its text and a line feed at the end |
| Php.ExplodeUnlines | src/Sapone/Factory/ClassFactory.php:447-449 | text written line by line splits back into its lines, plus the empty tail |
| Configuration.Defaults | src/Sapone/Config.php:56-63 | the values of a fresh config; `Configuration.Config.constructor` states that a new `Config` holds them |
| Configuration.AcceptsAutoloader | src/Sapone/Config.php:110 | the case-insensitive `psr0`/`psr4` test; `Configuration.Config.SetAutoloader` stores a value iff it passes |
| Configuration.UsesPsr0Layout | src/Sapone/Factory/ClassFactory.php:120 | the strict `=== 'psr0'` test that adds the namespace directory (`Descriptors.PathSegments`) |
| Configuration.UpperCasePsr0IsAcceptedButNotLaidOut | src/Sapone/Config.php:110-114 | `PSR0` passes the case-insensitive autoloader check but not the strict `=== 'psr0'` layout test |
| Configuration.Config.constructor | src/Sapone/Config.php:56-63 | a fresh config: autoloader `psr4`; SPL enums, Axis namespaces and accessors off; every other field still null |
| Configuration.Config.SetOutputPath | src/Sapone/Config.php:76-79 | sets the output path and nothing else |
| Configuration.Config.SetWsdlDocumentPath | src/Sapone/Config.php:92-95 | sets the WSDL document path and nothing else |
| Configuration.Config.SetAutoloader | src/Sapone/Config.php:108-115 | accepts iff the lower-cased value is `psr0` or `psr4` and then stores the value in its own case; otherwise throws `InvalidArgumentException` and changes nothing |
| Configuration.Config.SetNamespace | src/Sapone/Config.php:128-131 | sets the base namespace and nothing else |
| Configuration.Config.SetSplEnums | src/Sapone/Config.php:144-147 | sets the SPL-enum flag and nothing else |
| Configuration.Config.SetAxisNamespaces | src/Sapone/Config.php:160-163 | sets the Axis-namespace flag and nothing else |
| Configuration.Config.SetAccessors | src/Sapone/Config.php:176-179 | sets the accessor flag and nothing else |
| Configuration.Config.SetNullConstructorArguments | src/Sapone/Config.php:192-195 | sets the null-constructor-arguments flag and nothing else |
| Configuration.Config.SetBesimpleClient | src/Sapone/Config.php:208-211 | sets the BeSimple flag and nothing else |
| QualifiedNames.WordRun | src/Sapone/Util/SimpleXMLElement.php:39 | the longest leading run of `\w`: all word characters, and the next character (if any) is not one |
| QualifiedNames.NameGroup | src/Sapone/Util/SimpleXMLElement.php:39 | `.*$` matches the rest, or the rest without a final line feed, and fails exactly when a line feed comes earlier |
| QualifiedNames.MatchQualified | src/Sapone/Util/SimpleXMLElement.php:39 | a match splits the input into an optional `\w+` prefix with its colon and a line-feed-free name; no match means an early line feed |
| QualifiedNames.ParseQualifiedXmlType | src/Sapone/Util/SimpleXMLElement.php:37-47 | the prefix is `''` or a truthy `\w+` run that the input starts with, followed by `:`; the name is `null` or truthy |
| QualifiedNames.ParseXmlType | src/Sapone/Command/GenerateCommand.php:762-770 | the command's copy never reports an empty prefix: a missing one is `null` |
| QualifiedNames.ParseXmlTypeMatchesQualified | src/Sapone/Command/GenerateCommand.php:762-770 | both parsers give the same name, and the same prefix except that `''` is spelled `null` |
| QualifiedNames.ParsePrefixed | src/Sapone/Util/SimpleXMLElement.php:39-44 | `p:n` with `p` in `\w+` splits at the first colon into `p` and `n`, even when `n` holds more colons |
| QualifiedNames.ParseUnprefixed | src/Sapone/Util/SimpleXMLElement.php:39-43 | without a leading `\w+:` the prefix is `''` and the name is the whole input (`null` if it is falsy) |
| QualifiedNames.ParseEmptyAndZero | src/Sapone/Util/SimpleXMLElement.php:42-43 | `''` and `'0'` both parse to prefix `''` and name `null` |
| QualifiedNames.ParseEmptyParts | src/Sapone/Util/SimpleXMLElement.php:42-43 | the prefix `0` is dropped, and an empty name after a prefix is `null` |
| QualifiedNames.ParseLineFeeds | src/Sapone/Util/SimpleXMLElement.php:39 | a final line feed is dropped from the name; an earlier one makes the match fail |
| QualifiedNames.ParseRoundTrip | src/Sapone/Util/SimpleXMLElement.php:37-47 | for a `\w+` prefix other than `0` and a truthy name without line feeds, rebuilding `p:n` from the parse gives back the input |
| QualifiedNames.ParseRoundTripUnprefixed | src/Sapone/Util/SimpleXMLElement.php:37-47 | the same round trip for a truthy input without a prefix |
| QualifiedNames.ElementNamespace | src/Sapone/Util/SimpleXMLElement.php:82-89 | the namespace of an element is a value of its namespace map, or `null` for an unbound prefix |
| QualifiedNames.ElementNamespaceLookup | src/Sapone/Util/SimpleXMLElement.php:82-89 | a prefixed element name reads the map at its own prefix; an unprefixed one reads the key `''` |
| Inflection.Segments | src/Sapone/Util/NamespaceInflector.php:45-63 | a truthy base namespace is the first segment; without a base and without Axis style there are no segments |
| Inflection.NamespaceOfUri | src/Sapone/Util/NamespaceInflector.php:38-65 | the result is `null` exactly for the XSD namespace |
| Inflection.InflectNamespace | src/Sapone/Util/NamespaceInflector.php:34-109 | throws `InvalidArgumentException` exactly for an argument that is neither a type nor an element; a type gets `null` exactly when it is XSD-owned |
| Inflection.TypeNamespace | src/Sapone/Util/NamespaceInflector.php:36-69 | the namespace of a type is what `inflectNamespace` returns for it |
| Inflection.BranchesAgree | src/Sapone/Util/NamespaceInflector.php:36-104 | a type and an element owned by the same URI get the same namespace |
| Inflection.UnboundElementPrefixGetsNamespace | src/Sapone/Util/NamespaceInflector.php:73-100 | an element whose prefix is unbound reads `null`, which is not the XSD namespace, so it gets a namespace |
| Inflection.NoBaseNoAxisIsEmpty | src/Sapone/Util/NamespaceInflector.php:45-65 | with no base and Axis style off, a non-XSD URI gives `''`, while the XSD URI gives `null` |
| Inflection.BaseComesFirst | src/Sapone/Util/NamespaceInflector.php:48-50 | a configured base is the whole namespace or its first `\`-separated segment |
| Inflection.NamespaceSplitsIntoSegments | src/Sapone/Util/NamespaceInflector.php:45-65 | when no piece holds a backslash, the namespace splits into the base, then the reversed host labels, then the path pieces |
| Inflection.AvoidsBackslashConcat | src/Sapone/Util/NamespaceInflector.php:58-61 | `array_merge` of backslash-free segment lists is backslash-free |
| Inflection.AxisExample | src/Sapone/Util/NamespaceInflector.php:52-65 | in Axis style without a base, host `a.b.c` and path `p` give `c\b\a\p` |
| Inflection.InflectQualifiedName | src/Sapone/Util/NamespaceInflector.php:117-121 | `ns\name` when the namespace is truthy, otherwise the bare name; an XSD type always gets its bare name |
| Inflection.InflectDocBlockQualifiedName | src/Sapone/Util/NamespaceInflector.php:129-132 | a leading `\` in front of the qualified name exactly for non-XSD types |
| Inflection.DocBlockNameIsAbsoluteIffNotXsd | src/Sapone/Util/NamespaceInflector.php:129-132 | the docblock name starts with `\` iff the type is not XSD-owned |
| Naming.SanitizeVariableName | src/Sapone/Builder/AbstractBuilder.php:89-92 | every PCRE `\s` character becomes `_` and every other character is kept, at the same place |
| Naming.SanitizeVariableNameRemovesWhitespace | src/Sapone/Builder/AbstractBuilder.php:89-92 | the result has no whitespace and the same length |
| Naming.SanitizeVariableNameIdempotent | src/Sapone/Builder/AbstractBuilder.php:89-92 | sanitizing twice is sanitizing once |
| Naming.SanitizeVariableNameKeepsCleanNames | src/Sapone/Builder/AbstractBuilder.php:89-92 | a name without whitespace is unchanged |
| Naming.SanitizeConstantName | src/Sapone/Builder/AbstractBuilder.php:100-107 | the name is kept iff it is not reserved; a reserved one gets exactly one `_` appended |
| Naming.ConstantName | src/Sapone/Factory/ClassFactory.php:325-334 | the double sanitizing: no whitespace; the whitespace-free name is kept when it is not reserved and gets exactly one `_` when it is |
| Naming.PrimitiveType | src/Sapone/Command/GenerateCommand.php:957-990 | the `switch` on the lower-cased name maps only to `int`, `float`, `string`, `\DateTime` or `mixed` |
| Naming.PrimitiveTable | src/Sapone/Command/GenerateCommand.php:957-990 | the lower-cased table covers exactly the integer, float and string names plus `datetime` and `anytype` |
| Naming.PrimitiveFamilies | src/Sapone/Command/GenerateCommand.php:958-983 | the integer names map to `int`, the float names to `float`, the string names to `string` |
| Naming.ValidateType | src/Sapone/Command/GenerateCommand.php:946-1003 | a `[]` name is returned as it is; an `arrayof` name (any case) becomes `substr(name, 7) . '[]'`; a table name is mapped; any other name is followed only by `_`s: none iff it is not reserved, two iff both it and `name_` are reserved, otherwise one |
| Naming.ValidateTypeIgnoresCaseOnPrimitives | src/Sapone/Command/GenerateCommand.php:957 | names equal up to case that are in the table validate alike |
| Naming.ValidateTypeArrayOfIsNotMapped | src/Sapone/Command/GenerateCommand.php:949-954 | `ArrayOfInt` gives `Int[]`, not `int[]`; `int[]` is kept |
| Naming.ArrayOfIsNoPrimitive | src/Sapone/Command/GenerateCommand.php:952-957 | no name with the `arrayof` prefix is in the table, so the order of the two tests does not matter for table names |
| Naming.MatchArrayPattern | src/Sapone/Command/GenerateCommand.php:885 | a match of either alternative captures a non-empty `\w+` name |
| Naming.TableOrSelf | src/Sapone/Command/GenerateCommand.php:897-934 | the `switch` of the conversion: a name whose lower-cased form is in the table gives that table's PHP type; any other name is kept as it is |
| Naming.ConvertXsdTypeToPhpType | src/Sapone/Command/GenerateCommand.php:882-937 | without an array match, the table type of the name (or the name) then `[]`; after `ArrayOfX`, that of `X` then `[]` when `X` is truthy and `[]` alone otherwise; after `X[]`, that of `X` then `[]` |
| Naming.ConvertArrayFormsAgree | src/Sapone/Command/GenerateCommand.php:885-936 | `ArrayOfX` and `X[]` give the same type for every `\w+` name `X` except `0` |
| Naming.ConvertArrayOfZero | src/Sapone/Command/GenerateCommand.php:894 | `ArrayOf0` gives `[]` while `0[]` gives `0[]` (see Findings) |
| Naming.ConvertXsdTypeToPhpTypeIntended | src/Sapone/Command/GenerateCommand.php:882-937 | the corrected conversion, which takes the `t1` group whenever the `ArrayOf` branch matched: for each of the three match cases, the table type of the matched name (or that name) followed by `[]` |
| Naming.ConvertIntendedArrayFormsAgree | src/Sapone/Command/GenerateCommand.php:885-936 | with the correction, `ArrayOfX` and `X[]` always agree and give the table type of `X` (or `X`) followed by `[]` |
| Naming.AsWrittenClasses | src/Sapone/Command/GenerateCommand.php:1018 | the unescaped classes reduce to letters, `_` and `7` (leading) and to `\w` (body) |
| Naming.StripLeading | src/Sapone/Command/GenerateCommand.php:1018 | the first `preg_replace`: the result is a suffix of the input that is empty or starts inside the class, and every dropped character lies outside the class |
| Naming.StripLeadingConcat | src/Sapone/Command/GenerateCommand.php:1018 | stripping `a + b` strips `a`, or, when all of `a` goes, strips `b` |
| Naming.KeepOnly | src/Sapone/Command/GenerateCommand.php:1018 | the second `preg_replace`: only characters of the class remain, the first and last are kept when inside it, a name wholly inside the class is unchanged and one wholly outside it becomes `''`; with `Naming.KeepOnlyConcat` this fixes the result: each character is kept or removed on its own |
| Naming.KeepOnlyConcat | src/Sapone/Command/GenerateCommand.php:1018 | filtering `a + b` is filtering `a`, then filtering `b` |
| Naming.SuffixBadStart | src/Sapone/Command/GenerateCommand.php:1014-1016 | a name not starting with `[A-Za-z_]` is `ucfirst`-ed and gets `_` appended; any other name is kept |
| Naming.RepairName | src/Sapone/Command/GenerateCommand.php:1011-1019 | the suffix step followed by both `preg_replace` calls: a name with a good start gives its body-class characters; any other name gives `ucfirst(name)` stripped of its leading non-lead characters, filtered to the body class, then `_`; with the intended classes the first character is a label start |
| Naming.ClassesNest | src/Sapone/Command/GenerateCommand.php:1018 | both pairs of classes allow `_` and the letters first, and the body class allows whatever the lead class does |
| Naming.SuffixSurvives | src/Sapone/Command/GenerateCommand.php:1014-1018 | the appended `_` survives both `preg_replace` calls, which act on the rest as before |
| Naming.RepairTail | src/Sapone/Command/GenerateCommand.php:1018 | both `preg_replace` calls on a name that starts or ends inside the lead class: non-empty, starting inside the lead class, only body characters, keeping a last body character; and filtering alone when the first character is in the lead class |
| Naming.ValidateNamingConvention | src/Sapone/Command/GenerateCommand.php:1011-1019 | the output holds only `[A-Za-z0-9_]`; a name starting like a label keeps exactly its word characters, so a legal name comes back unchanged; any other name gives the stripped and filtered `ucfirst(name)` followed by `_` |
| Naming.ValidateNamingConventionKeepsLeadingSeven | src/Sapone/Command/GenerateCommand.php:1018 | as written, every `7` followed by word characters, such as `7abc`, becomes that name followed by `_`, which starts with a digit (see Findings) |
| Naming.ValidateNamingConventionIntended | src/Sapone/Command/GenerateCommand.php:1011-1019 | with the escapes `\x7f-\xff` the output is a PHP label: non-empty, with a letter, `_` or high character first; a label-like name keeps exactly its body-class characters, so a legal name is unchanged; any other name is stripped, filtered and suffixed with `_` |
| Descriptors.ClosedIsResolvable | src/Sapone/Factory/ClassFactory.php:84-105 | in an arena where every reference resolves, every type has the schemas its class needs |
| Descriptors.ClassFromType | src/Sapone/Builder/AbstractBuilder.php:42-57 | the class takes the type's name; it gets the inflected namespace exactly when that is truthy; it gets the type's doc and an `@xmlns` tag with the target namespace (`''` for a schema without one); it has no members yet |
| Descriptors.NewClassFromType | src/Sapone/Factory/ClassFactory.php:84-105 | `createClassFromType`, setter by setter, builds exactly that skeleton |
| Descriptors.XsdTypeHasNoNamespace | src/Sapone/Builder/AbstractBuilder.php:50-52 | a class built for an XSD-owned type never gets a namespace |
| Descriptors.PathSegments | src/Sapone/Builder/AbstractBuilder.php:64-72 | the output directory comes first and the file name last, with the namespace directory between them only for the `psr0` autoloader |
| Descriptors.AssemblePath | src/Sapone/Factory/ClassFactory.php:117-128 | building the path piece by piece gives the output path |
| Descriptors.Serialize | src/Sapone/Factory/ClassFactory.php:112-132 | the class is written at its class path |
| Descriptors.OutputPath | src/Sapone/Builder/AbstractBuilder.php:64-75 | `implode(DIRECTORY_SEPARATOR, …)` of the path segments; its split back into them is `Descriptors.OutputPathSplits` |
| Descriptors.ClassPath | src/Sapone/Factory/ClassFactory.php:117-128 | the output path of a class's `Name.php` in its namespace; `Descriptors.Serialize` and `Builders.BuilderAndFactoryWriteSameFile` state where it is used |
| Descriptors.OutputPathSplits | src/Sapone/Builder/AbstractBuilder.php:64-75 | for `psr0` the path splits at the separator into the directory, the namespace segments and the file name; otherwise into the directory and the file name |
| Descriptors.ClassmapValue | src/Sapone/Factory/ClassFactory.php:185 | the value is the namespace (`''` for null), a backslash, then the short name |
| Descriptors.ClassmapValueWithoutNamespace | src/Sapone/Factory/ClassFactory.php:185 | a class without a namespace registers as `\Name` |
| Descriptors.DistinctCons | src/Sapone/Factory/ClassFactory.php:179 | a name in front of distinct names keeps them distinct exactly when it is not among them |
| Descriptors.ConstantNames | src/Sapone/Factory/ClassFactory.php:179 | the constants' names, in order |
| Descriptors.PropertyNames | src/Sapone/Factory/ClassFactory.php:259 | the properties' names, in order |
| Descriptors.MethodNames | src/Sapone/Factory/ClassFactory.php:410 | the methods' names, in order |
| Descriptors.MethodKeys | src/Sapone/Factory/ClassFactory.php:410 | the generator's method-table keys: `strtolower` of each method name |
| Enums.EnumParent | src/Sapone/Builder/EnumBuilder.php:15-24 | the base's name when the base is not XSD-owned; otherwise `\SplEnum` exactly when SPL enums are on |
| Enums.EnumFacets | src/Sapone/Builder/EnumBuilder.php:27-29 | without an `enumeration` key there are no facets |
| Enums.EnumConstants | src/Sapone/Builder/EnumBuilder.php:29-42 | one constant per facet in facet order, with the double-sanitized name, the raw value, and a doc exactly for a truthy facet doc |
| Enums.EnumConstantsDistinct | src/Sapone/Builder/EnumBuilder.php:41 | the constant names are distinct exactly when no two facets give the same constant name |
| Enums.EnumClass | src/Sapone/Factory/ClassFactory.php:137-188 | a type without a restriction is fatal; two facets with the same constant name throw the duplicate-member error; otherwise the skeleton with the enum parent and constants, and nothing else: no properties, imports, methods, template or `@service` tag, and not abstract |
| Enums.FinalizeEnum | src/Sapone/Builder/EnumBuilder.php:13-43 | the step-by-step `finalize` builds exactly the enum class, or fails exactly as `Enums.EnumClass` does |
| Enums.ConstantLoop | src/Sapone/Builder/EnumBuilder.php:29-42 | the facet loop appends exactly the constants of the facets, and throws the duplicate-member error exactly when two facets give the same constant name |
| Enums.ClashStep | src/Sapone/Builder/EnumBuilder.php:29-42 | one more facet clashes exactly when its constant name is that of an earlier facet |
| Enums.ConstantKeepsRawValue | src/Sapone/Builder/EnumBuilder.php:32-35 | the facet `on hold` gives the constant `on_hold` with the value `on hold` |
| Enums.SpaceAndUnderscoreFacetsClash | src/Sapone/Builder/EnumBuilder.php:32-41 | the facets `on hold` and `on_hold` give the same constant name, so the enum class is rejected |
| Dtos.AssignmentTextLine | src/Sapone/Builder/ClassBuilder.php:95 | an assignment line for a name without a line feed has no line feed |
| Dtos.ParamFor | src/Sapone/Builder/ClassBuilder.php:53-61 | the parameter of one element; its name, hint and null default per variant are stated by `Dtos.PartsForFacts` and `Dtos.DtoConstructor` |
| Dtos.TagFor | src/Sapone/Builder/ClassBuilder.php:50-55 | the `@param` tag of one element: the raw name and the docblock name of its type, stated by `Dtos.PartsForFacts` |
| Dtos.PropertyFor | src/Sapone/Builder/ClassBuilder.php:67-80 | the property of one element; its name, visibility, type and doc are stated by `Dtos.DtoProperties` |
| Dtos.NeedsUse | src/Sapone/Builder/ClassBuilder.php:86-88 | the import test: a non-XSD element type in another namespace; what it selects is stated by `Dtos.DtoUses` |
| Dtos.UseFor | src/Sapone/Builder/ClassBuilder.php:86-88 | an element adds one import exactly when its type is foreign to the class |
| Dtos.AccessorsFor | src/Sapone/Builder/ClassBuilder.php:102-121 | an element adds two accessors when accessors are on, none otherwise |
| Dtos.PartsFor | src/Sapone/Factory/ClassFactory.php:220-304 | one loop turn's contribution, stated field by field by `Dtos.PartsForFacts` |
| Dtos.ElementsParts | src/Sapone/Builder/ClassBuilder.php:47-122 | one contribution per element |
| Dtos.ElementsPartsPointwise | src/Sapone/Builder/ClassBuilder.php:47-122 | the i-th contribution is that of the i-th element |
| Dtos.Gather | src/Sapone/Builder/ClassBuilder.php:47-122 | the contributions appended to each list in turn; stated by `Dtos.GatherPointwise`, `Dtos.GatherAccessors` and `Dtos.GatherUses` |
| Dtos.GatherPointwise | src/Sapone/Builder/ClassBuilder.php:80-96 | one property, parameter, tag and body line per contribution, in order |
| Dtos.GatherAccessors | src/Sapone/Builder/ClassBuilder.php:112-120 | accessor pairs stay together and in element order |
| Dtos.GatherUses | src/Sapone/Builder/ClassBuilder.php:86-88 | the imports are exactly those of the contributions |
| Dtos.DtoParent | src/Sapone/Builder/ClassBuilder.php:23-33 | a parent exactly when the type has one whose base is not XSD-owned, and then it is the base's name |
| Dtos.ConstructorFor | src/Sapone/Builder/ClassBuilder.php:39-44 | `__construct` with every parameter and tag and the assignments as its body; stated by `Dtos.DtoConstructor` and `Dtos.DtoConstructorBody` |
| Dtos.DtoClass | src/Sapone/Factory/ClassFactory.php:193-315 | the class descriptor before the generator's name checks: the skeleton with the DTO parent and the type's abstract flag, no constants, and the constructor as the first method; whether the generator accepts it is `Dtos.DtoResult` |
| Dtos.DtoResult | src/Sapone/Factory/ClassFactory.php:259-302 | the DTO class as the generator lets it through: the duplicate-member error exactly when two elements clash (equal property names once whitespace is replaced, or, with accessors on, names equal up to case), and `Dtos.DtoClass` otherwise |
| Dtos.DtoMembersAccepted | src/Sapone/Builder/ClassBuilder.php:80-120 | the generator accepts every member of the DTO class exactly when no two elements clash |
| Dtos.DtoPropertyNames | src/Sapone/Builder/ClassBuilder.php:80 | the property names repeat exactly when two element names do once whitespace is replaced |
| Dtos.SanitizedNamesDistinct | src/Sapone/Builder/ClassBuilder.php:67-80 | properties named by the sanitized element names are distinct exactly when those names are |
| Dtos.DtoMethodKeys | src/Sapone/Builder/ClassBuilder.php:44-120 | the method keys repeat exactly when accessors are on and two element names agree up to case |
| Dtos.AccessorKeys | src/Sapone/Builder/ClassBuilder.php:104-120 | the keys of the i-th accessor pair are `set` and `get` followed by the lowered element name |
| Dtos.AccessorKeyAt | src/Sapone/Builder/ClassBuilder.php:104-120 | every key after the constructor's is the setter or the getter key of one element |
| Dtos.AccessorKeysDistinct | src/Sapone/Builder/ClassBuilder.php:44-120 | the constructor followed by accessor pairs has distinct keys exactly when no two element names agree up to case |
| Dtos.SettersClash | src/Sapone/Builder/ClassBuilder.php:112 | two element names equal up to case give equal setter keys |
| Dtos.KeysClash | src/Sapone/Builder/ClassBuilder.php:112-120 | equal method keys come from two element names equal up to case |
| Dtos.RepeatedElementRejected | src/Sapone/Builder/ClassBuilder.php:80 | a repeated element name gives the duplicate-member error |
| Dtos.AccessorsClashUpToCase | src/Sapone/Builder/ClassBuilder.php:112-120 | names that differ only in the case of the first letter, such as `fooBar` and `FooBar`, clash with accessors on and not with accessors off |
| Dtos.ElementLoop | src/Sapone/Builder/ClassBuilder.php:47-122 | the loop gathers every contribution in element order and grows the constructor body by one line per element |
| Dtos.FinalizeDto | src/Sapone/Builder/ClassBuilder.php:21-126 | the step-by-step `finalize` builds exactly the DTO class, or fails exactly as `Dtos.DtoResult` does |
| Dtos.PartsForFacts | src/Sapone/Factory/ClassFactory.php:223-303 | one element's contribution: the sanitized property name; the raw name for the parameter, tag, body line and accessors; the variant's hint, nullability and doc |
| Dtos.DtoProperties | src/Sapone/Builder/ClassBuilder.php:67-80 | one property per element in order: the sanitized name, protected iff accessors are on, typed by the docblock name, with the element's doc (builder) or the type's doc (factory) |
| Dtos.DtoConstructor | src/Sapone/Factory/ClassFactory.php:223-236 | one constructor parameter and `@param` per element; it defaults to null iff the element is nillable, or (factory only) null constructor arguments are on |
| Dtos.DtoConstructorBody | src/Sapone/Builder/ClassBuilder.php:95 | the constructor body splits into one assignment per element, in order, using the raw element name |
| Dtos.DtoAccessorCount | src/Sapone/Builder/ClassBuilder.php:102-121 | the constructor, then two accessors per element when accessors are on, else none |
| Dtos.AccessorsPerElement | src/Sapone/Builder/ClassBuilder.php:102-121 | each element contributes two accessors or none, as the flag says |
| Dtos.MembersAccessorPair | src/Sapone/Builder/ClassBuilder.php:104-120 | the gathered accessors of element i are its setter and its getter |
| Dtos.DtoAccessorPairs | src/Sapone/Builder/ClassBuilder.php:104-120 | `set` + `ucfirst(name)` takes the constructor's parameter and assigns it; `get` + `ucfirst(name)` returns the property with its type as `@return` |
| Dtos.DtoUses | src/Sapone/Builder/ClassBuilder.php:86-88 | the imports are exactly the qualified names of the non-XSD element types whose namespace differs from the class's |
| Dtos.NoNamespaceImportsBareNames | src/Sapone/Factory/ClassFactory.php:265-271 | without a base and Axis style the class has no namespace, yet every non-XSD element type is imported under its bare name |
| Dtos.GatherSameUses | src/Sapone/Builder/ClassBuilder.php:86-88 | contributions with the same imports gather the same imports |
| Dtos.VariantsShareLayout | src/Sapone/Factory/ClassFactory.php:193-315 | the builder and the factory give the same name, namespace, parent, imports, property names and visibility, constructor body and method count |
| Classmaps.Keys | src/Sapone/Factory/ClassFactory.php:447 | the keys in iteration order |
| Classmaps.Lookup | src/Sapone/Factory/ClassFactory.php:185 | `null` exactly for a missing key; otherwise the value of an entry with that key |
| Classmaps.Put | src/Sapone/Factory/ClassFactory.php:185 | an existing key keeps its place; a new key goes last; unique keys stay unique |
| Classmaps.LookupPut | src/Sapone/Factory/ClassFactory.php:312 | after an assignment the key reads the new value |
| Classmaps.LookupPutOther | src/Sapone/Factory/ClassFactory.php:312 | an assignment leaves every other key reading what it read before |
| Classmaps.PutAppendsNewKey | src/Sapone/Factory/ClassFactory.php:416 | a new short name is appended at the end |
| Classmaps.PutTwice | src/Sapone/Factory/ClassFactory.php:416 | a second registration of a short name overwrites the first in place, with no error |
| Classmaps.IniText | src/Sapone/Factory/ClassFactory.php:448 | the `key = value` text has no line feed when the names have none |
| Classmaps.IniTexts | src/Sapone/Factory/ClassFactory.php:447-449 | one text per entry, in classmap order |
| Classmaps.IniTextsAppend | src/Sapone/Factory/ClassFactory.php:447-449 | one more entry adds its line at the end |
| Classmaps.IniContentLines | src/Sapone/Factory/ClassFactory.php:447-449 | the INI file splits into exactly one `key = value` line per entry, in order |
| Factories.SchemaFor | src/Sapone/Factory/ClassFactory.php:483-487 | no schema exactly when the list is empty; otherwise a known schema |
| Factories.SchemaForFirstMatch | src/Sapone/Factory/ClassFactory.php:483-487 | the first schema whose target namespace is the URI is the one found |
| Factories.SchemaForNoMatch | src/Sapone/Factory/ClassFactory.php:483-487 | when no schema matches, the last one is left |
| Factories.SchemaForIsListed | src/Sapone/Factory/ClassFactory.php:483-487 | the schema found is one of the list |
| Factories.MessageType | src/Sapone/Factory/ClassFactory.php:475-490 | an empty schema list is the fatal `new ComplexType(null, …)` |
| Factories.MessageTypeFacts | src/Sapone/Factory/ClassFactory.php:475-490 | the message type has the parsed local name and the namespace of a listed schema |
| Factories.MessageTypeOfBoundPrefix | src/Sapone/Factory/ClassFactory.php:475-490 | a prefix bound to a schema's target namespace gives a type in that namespace |
| Factories.FirstMatchExists | src/Sapone/Factory/ClassFactory.php:483-487 | a matching schema implies a first matching schema |
| Factories.MessageTypeOfUnboundPrefix | src/Sapone/Factory/ClassFactory.php:475-490 | an unbound prefix reads `null`: the type lies in the first schema without a target namespace when there is one, and in the last schema otherwise |
| Factories.SoapCallBody | src/Sapone/Factory/ClassFactory.php:409 | the `__soapCall` body of an operation method; split into its parts by `Factories.SoapCallBodyParts` |
| Factories.SoapCallBodyParts | src/Sapone/Factory/ClassFactory.php:409 | the method body is the call head, the raw wire name, then the call tail |
| Factories.SoapCallNameRoundTrip | src/Sapone/Factory/ClassFactory.php:409 | the wire name can be read back from the body |
| Factories.OperationMethod | src/Sapone/Factory/ClassFactory.php:391-410 | the method of one operation; its name, parameter, tags and body are stated by `Factories.ServiceMethods` |
| Factories.OperationMethods | src/Sapone/Factory/ClassFactory.php:366-411 | the methods before the generator's name checks: fails (fatal) exactly when there are operations but no schema; otherwise one method per operation; the name check is made by `Factories.ServiceClass` |
| Factories.OperationMethodsStep | src/Sapone/Factory/ClassFactory.php:379-410 | one more operation whose input message resolves appends its method |
| Factories.OperationMethodsPointwise | src/Sapone/Factory/ClassFactory.php:366-411 | the i-th method is the i-th operation's |
| Factories.ServiceNamespace | src/Sapone/Factory/ClassFactory.php:343 | the inflected namespace of the port type element, set unconditionally (`Factories.ServiceNamespaceEvenWhenEmpty`) |
| Factories.ServiceSkeleton | src/Sapone/Factory/ClassFactory.php:323-360 | the service class before its operations; its name, parent and import are stated by `Factories.ServiceClass` |
| Factories.OperationKeys | src/Sapone/Factory/ClassFactory.php:410 | the method-table keys of the operations' methods: `strtolower` of each double-sanitized name |
| Factories.OperationMethodNames | src/Sapone/Factory/ClassFactory.php:391-410 | each built method is named after its operation |
| Factories.ServiceKeysDistinct | src/Sapone/Factory/ClassFactory.php:341-410 | the template's `__construct` and the operations' methods have distinct keys exactly when no operation's key is `__construct` or repeats |
| Factories.ConstructorKey | src/Sapone/Factory/ClassFactory.php:341 | `__construct` is its own method-table key |
| Factories.MethodKeysCons | src/Sapone/Factory/ClassFactory.php:410 | the keys of a name in front of others are its key in front of theirs |
| Factories.OverloadedOperationFails | src/Sapone/Factory/ClassFactory.php:410 | two operations of one name, an overloaded operation, make the service class fail |
| Factories.ServiceClass | src/Sapone/Factory/ClassFactory.php:320-419 | the double-sanitized port type name; `BeSimpleSoapClient` with its import iff BeSimple is on, else `\SoapClient`; no constants or properties; one method per operation; fatal when there are operations but no schema, and otherwise the duplicate-member error exactly when an operation's method name equals, up to case, `__construct` or an earlier operation's |
| Factories.ServiceMethods | src/Sapone/Factory/ClassFactory.php:366-410 | in an accepted service class, each method has the double-sanitized operation name and the single `parameters` parameter typed by the input message; its `@param`/`@return` are the message types' docblock names; it calls `__soapCall` with the raw wire name |
| Factories.ServiceNamespaceEvenWhenEmpty | src/Sapone/Factory/ClassFactory.php:343 | in an accepted service class the namespace is set even when it is `''`, and then the class registers as `\Name` |
| Factories.ClassmapClass | src/Sapone/Factory/ClassFactory.php:456-463 | `Classmap extends \ArrayObject` in the configured namespace, reflected from the classmap template, with the WSDL path as its tag |
| Factories.ClassmapIniPath | src/Sapone/Factory/ClassFactory.php:430-441 | the path of `classmap.ini`, with the namespace directory under `psr0`; placed by `Factories.ClassmapFilesShareDirectory` |
| Factories.ClassmapFilesShareDirectory | src/Sapone/Factory/ClassFactory.php:430-441 | the INI file and the `Classmap` class file lie in the same directory |
| Factories.ClassmapFile | src/Sapone/Factory/ClassFactory.php:443-449 | an empty classmap leaves no file |
| Factories.ClassFactory.constructor | src/Sapone/Factory/ClassFactory.php:69-76 | keeps the configuration, the schemas and the types, and starts with an empty classmap |
| Factories.ClassFactory.Register | src/Sapone/Factory/ClassFactory.php:185 | the classmap gets the class's value under its short name |
| Factories.ClassFactory.CreateEnum | src/Sapone/Factory/ClassFactory.php:137-188 | writes the enum class and registers it; on the fatal error nothing is registered |
| Factories.ClassFactory.CreateDto | src/Sapone/Factory/ClassFactory.php:193-315 | writes the factory's DTO class and registers it; when two members clash it throws the duplicate-member error and registers nothing |
| Factories.ClassFactory.GetTypeFromQualifiedString | src/Sapone/Factory/ClassFactory.php:475-490 | returns exactly the message type |
| Factories.ClassFactory.FindSchema | src/Sapone/Factory/ClassFactory.php:483-487 | the loop with `break` leaves the first matching schema, else the last, else null |
| Factories.ClassFactory.CreateService | src/Sapone/Factory/ClassFactory.php:320-419 | writes the service class and registers it; on either failure, no schema or a clashing method name, nothing is registered |
| Factories.ClassFactory.OperationLoop | src/Sapone/Factory/ClassFactory.php:366-411 | the loop builds exactly the operation methods |
| Factories.ClassFactory.CreateClassmap | src/Sapone/Factory/ClassFactory.php:424-468 | the INI path, the INI content with one line per entry, and the `Classmap` class file |
| Legacy.LegacyNamespace | src/Sapone/Command/GenerateCommand.php:789-802 | `''` without a truthy base; the base with the structured flag off; `base\Category` with it on |
| Legacy.CategoryNamespace | src/Sapone/Command/GenerateCommand.php:804-817 | the three category namespaces; truthy exactly when the base is |
| Legacy.LegacyClassName | src/Sapone/Command/GenerateCommand.php:819-824 | `ns\` in front only when the namespace is truthy |
| Legacy.CategoryClassName | src/Sapone/Command/GenerateCommand.php:819-838 | the bare name without a base, else the category namespace, `\`, then the name |
| Legacy.LegacyClassNameSegments | src/Sapone/Command/GenerateCommand.php:819-838 | the class name splits into base, category and short name; or base and short name; or just the short name |
| Legacy.GenerateClassmapEntry | src/Sapone/Command/GenerateCommand.php:784-787 | `$this['s'] = 'p';` then a line feed, which is its only line feed |
| Legacy.FirstIndexOf | src/Sapone/Command/GenerateCommand.php:786 | the first position of a character, or the length |
| Legacy.ParseClassmapEntry | src/Sapone/Command/GenerateCommand.php:784-787 | reads `$this['s'] = 'p';` back into its two names; the inverse of `Legacy.GenerateClassmapEntry` by `Legacy.ClassmapEntryRoundTrip` |
| Legacy.ClassmapEntryRoundTrip | src/Sapone/Command/GenerateCommand.php:784-787 | an entry reads back into its SOAP type and PHP type when the SOAP type has no quote |
| Builders.BuildEnum | src/Sapone/Builder/AbstractBuilder.php:40-79 | `EnumBuilder::buildClass` writes the enum class at its path; it fails exactly for a type without a restriction or with two facets of the same constant name |
| Builders.BuildDto | src/Sapone/Builder/AbstractBuilder.php:40-79 | `ClassBuilder::buildClass` writes the builder's DTO class at its path, or throws the duplicate-member error exactly when two elements clash |
| Builders.BuilderAndFactoryWriteSameFile | src/Sapone/Builder/AbstractBuilder.php:64-75 | the builder and the factory write the DTO of a type to the same path, with the same name, namespace and parent |
| Generation.Excluded | src/Sapone/Generator.php:109-112 | a schema of the XML or the XSD namespace is never processed; its use is stated by `Generation.ClosureDistinctAdmitted` |
| Generation.Closure | src/Sapone/Generator.php:117-126 | the worklist walk ends and lists only known schemas |
| Generation.SchemaClosure | src/Sapone/Generator.php:115-128 | the `while` loop computes exactly the closure |
| Generation.ClosureExtends | src/Sapone/Generator.php:123 | schemas are only ever appended to the processed list |
| Generation.ClosureDistinctAdmitted | src/Sapone/Generator.php:122-123 | no schema is processed twice, and none of the XML or XSD namespace is processed |
| Generation.ClosureTakesWorklist | src/Sapone/Generator.php:117-126 | every admitted schema of the worklist is processed |
| Generation.ClosureImportClosed | src/Sapone/Generator.php:124 | every admitted import of a processed schema is processed |
| Generation.ClosureSound | src/Sapone/Generator.php:117-126 | every result schema was processed or waiting already, or is imported |
| Generation.ProcessedSchemas | src/Sapone/Generator.php:109-128 | no duplicates, no excluded namespace, every admitted schema of the document and every admitted import, and nothing else |
| Generation.ConcatTypes | src/Sapone/Generator.php:142-144 | every listed type is known |
| Generation.CollectTypes | src/Sapone/Generator.php:142-144 | the `foreach` computes exactly the concatenation of the schemas' types |
| Generation.ConcatTypesAppend | src/Sapone/Generator.php:142-144 | the list of `a + b` is the list of `a`, then the list of `b` |
| Generation.ConcatTypesMembers | src/Sapone/Generator.php:142-144 | a type is listed iff one of the schemas defines it |
| Generation.Links | src/Sapone/Generator.php:165-173 | the `while` walk up the restriction bases, with fuel; stated by `Generation.LinksShape` and `Generation.LinksMoreFuel` |
| Generation.Chain | src/Sapone/Generator.php:165-173 | the chain of a type whose walk ends; used by `Generation.Classify` and stated by `Generation.LinksShape` |
| Generation.LinksShape | src/Sapone/Generator.php:165-173 | an ended chain is well linked and starts with the restriction it was walked from |
| Generation.LinksMoreFuel | src/Sapone/Generator.php:170-173 | once the chain has ended, more steps change nothing |
| Generation.InheritanceChain | src/Sapone/Generator.php:165-173 | the loop yields the chain's links followed by the `null` it stopped at |
| Generation.ArrayPop | src/Sapone/Generator.php:176 | `array_pop` removes the last item; an empty list stays empty |
| Generation.Primitive | src/Sapone/Generator.php:179-184 | after the two pops, the last link's base is a known type |
| Generation.Classify | src/Sapone/Generator.php:158-191 | a complex type goes to the DTO; a simple type is an enum iff its primitive is named `string` and its own restriction has `enumeration`; a chain shorter than two is fatal; anything else is skipped |
| Generation.ClassifyType | src/Sapone/Generator.php:160-190 | the walk, the two pops and the test compute exactly that classification |
| Generation.PrimitiveIsUnderRoot | src/Sapone/Generator.php:178-181 | the primitive is the base just under the root type |
| Generation.PrimitiveInherited | src/Sapone/Generator.php:165-184 | a restriction of a restricted type has the same primitive at any depth |
| Generation.DirectStringRestriction | src/Sapone/Generator.php:184-186 | a direct restriction of `xs:string` is an enum iff it lists values |
| Generation.ShortChainIsFatal | src/Sapone/Generator.php:176-184 | a simple type without a restriction, or one restricting the root, stops the run |
| Generation.Registered | src/Sapone/Factory/ClassFactory.php:185 | each class file's class registered in turn; stated by `Generation.RegisteredAppend`, `Generation.RegisteredLookup` and `Generation.RegisteredUnique` |
| Generation.RegisteredAppend | src/Sapone/Factory/ClassFactory.php:185 | registering `a + b` is registering `a`, then `b` |
| Generation.RegisteredOne | src/Sapone/Factory/ClassFactory.php:185 | registering one file puts its class's value under its short name |
| Generation.TypeArtifact | src/Sapone/Generator.php:158-191 | one type gives at most one class file |
| Generation.TypeArtifactByKind | src/Sapone/Generator.php:158-191 | a complex type gives its DTO, or the duplicate-member error when two elements clash; an enum type without clashing facets gives its enum class; a type that is neither simple nor complex gives nothing; failure happens exactly for a short chain (fatal) or clashing members (the duplicate-member error) |
| Generation.ComplexTypeGivesDto | src/Sapone/Generator.php:188-190 | a complex type that gives a file has no clashing elements, and the file is its DTO |
| Generation.ServiceArtifact | src/Sapone/Generator.php:193-195 | one service gives its service class; it fails exactly when operations meet an empty schema list (fatal) or a method name clashes (the duplicate-member error) |
| Generation.Collect | src/Sapone/Generator.php:158-195 | a loop's outcome: the steps' files in order, or the first failing step's error; stated by `Generation.CollectFail`, `Generation.CollectMembers` and `Generation.CollectSingles` |
| Generation.CollectStop | src/Sapone/Generator.php:158-191 | once a step fails, the run fails with that error |
| Generation.CollectFail | src/Sapone/Generator.php:158-195 | a loop fails iff a step fails, and then with the first failing step's error |
| Generation.CollectMembers | src/Sapone/Generator.php:158-195 | a loop collects exactly what its steps give |
| Generation.CollectSingles | src/Sapone/Generator.php:193-195 | steps of one file each give their files in order |
| Generation.Written | src/Sapone/Factory/ClassFactory.php:128-131 | the files a loop has written when it stops, since every `create*` call writes its file before the next step |
| Generation.WrittenOk | src/Sapone/Generator.php:158-195 | a loop that does not fail has written exactly the files it returns |
| Generation.WrittenStop | src/Sapone/Generator.php:158-191 | after the first failure, later steps write nothing |
| Generation.WrittenBeforeFailure | src/Sapone/Generator.php:158-195 | a failed loop leaves exactly the files of the steps before the first failing one |
| Generation.LoopStep | src/Sapone/Generator.php:158-195 | one loop turn: a failing step ends the loop with its error and no more files; a working step adds its files |
| Generation.TypeResults | src/Sapone/Generator.php:158 | the i-th step is the i-th type's |
| Generation.ServiceResults | src/Sapone/Generator.php:193 | the i-th step is the i-th service's |
| Generation.TypeLoopFails | src/Sapone/Generator.php:158-191 | the type loop fails iff some type has a short chain or clashing members; it then fails with the error of the first such type |
| Generation.TypeLoopMembers | src/Sapone/Generator.php:158-191 | the type loop's files are exactly those the types give; in a successful loop every complex type's elements do not clash and its DTO is among them |
| Generation.ServiceLoopResults | src/Sapone/Generator.php:193-195 | the service loop fails iff some service fails (no schema and an operation, or a clashing method name), with the fatal error when there is no schema and the duplicate-member error otherwise; when it succeeds, file i is service i's |
| Generation.Generated | src/Sapone/Generator.php:115-195 | a whole run's outcome: the type files, then the service files, or the first error; stated by the `Generation.Generated*` lemmas |
| Generation.GeneratedFails | src/Sapone/Generator.php:115-195 | a run fails iff a processed type has a short chain or clashing members, or a service fails; a failing type decides the error; the error is the fatal `getBase()`, the fatal null schema, or the duplicate-member error |
| Generation.GeneratedServicesLast | src/Sapone/Generator.php:193-195 | a successful run ends with one class file per service, in service order |
| Generation.GeneratedTypesFirst | src/Sapone/Generator.php:158-191 | every class file before the services' is the one file of a processed type |
| Generation.GeneratedHasEveryDto | src/Sapone/Generator.php:142-190 | every complex type of a processed schema has its DTO in a successful run |
| Generation.WrittenRun | src/Sapone/Generator.php:158-195 | the files a run has written when it ends, failed or not |
| Generation.GeneratedWritten | src/Sapone/Generator.php:158-195 | a successful run has written exactly its files; a run that dies in the type loop leaves the files of the earlier types; one that dies in the service loop leaves every type file and those of the earlier services |
| Generation.LastRegistration | src/Sapone/Factory/ClassFactory.php:185 | the value of the last registration of a short name; the reference of `Generation.RegisteredLookup` |
| Generation.RegisteredLookup | src/Sapone/Factory/ClassFactory.php:416 | after the registrations, a short name reads what its last registration wrote, or what it read before |
| Generation.RegisteredUnique | src/Sapone/Factory/ClassFactory.php:312 | the short names stay unique |
| Generation.DispatchType | src/Sapone/Generator.php:160-190 | one turn of the type loop gives that type's class file and registers it; a failing turn, fatal or duplicate member, registers nothing |
| Generation.DispatchService | src/Sapone/Generator.php:194 | one turn of the service loop gives that service's class file and registers it; a failing turn registers nothing |
| Generation.Generate | src/Sapone/Generator.php:115-195 | the whole run's outcome is the specified one; the files written, failed run or not, are `WrittenRun`; the classmap holds the registrations of exactly those files, in order |
| Generation.TypeLoop | src/Sapone/Generator.php:158-191 | the type loop's outcome is the type steps up to the first failure; it returns the files written before it stopped and registers exactly those |
| Generation.ServiceLoop | src/Sapone/Generator.php:193-195 | the service loop's outcome is the service steps up to the first failure; it returns the files written before it stopped and registers exactly those |

## Left out

- Reading the WSDL document, loading schemas through the XSD reader, and XPath queries. Their results are inputs: the schema arena, the port types and the operations with their message names, documentation and namespace maps.
- The proxy and stream-context set-up of `Generator`. It is transport configuration.
- Writing files, `mkdir` and removing the old INI file. The model gives each file's path and content as values (`Artifact`, the INI text).
- Rendering by Zend\Code and docblock text. Classes are plain descriptors, and documentation passes through Html2Text, a foreign library, so the model takes documentation as already-converted text.
- The PHP tokenizer behind `isReservedWord`, the League\Url parser and `DIRECTORY_SEPARATOR`. They are the parameters `reserved`, `parseUrl` and `dirSep`.
- The members that `fromReflection` copies from `ServiceTemplate` and `ClassmapTemplate`. A descriptor only names its template, and the templates' runtime behaviour, `parse_ini_file` included, is not modelled.
- `GenerateCommand::execute`, `configure`, `serializeClass` and the other `serialize*` methods: CLI wiring, dead code after an early return, and file output. `isReservedWord` is the parameter `reserved`.
- `ServiceBuilder`, whose `buildClass` is empty; `Event`; and the interfaces. These have no behaviour.
- PHP's loose `in_array` comparison of schema objects (line 122 of `Generator.php`). Schemas are compared by their id in the arena.
- `Schema::getTypes()` is a plain list of type ids. The XSD reader is not part of this model.
- Restriction-chain cycles. `Ready` requires every simple type's chain to end (the walk uses fuel `|types| + 1`). On a cyclic chain the PHP code would loop forever.
- `Generator::generate` never calls `createClassmap`. The model's `Generate` returns the accumulated classmap, but no run writes it.
- Config getters. `Config.Values()` returns all fields at once, and the pure functions read that snapshot (`Settings`).
- 32-bit integer width is irrelevant here, because the model has no arithmetic on PHP integers.
- Enums.EnumClass: the constants' docblocks are plain text, and an enum's `@xmlns` tag is the target namespace, as for every type class.
- Descriptors.ClassFromType: the doc is the type's documentation as given. The factory first passes it through Html2Text, which is not modelled.
- Zend\Code is not part of this model. `addPropertyFromGenerator` (also used for constants) and `addMethodFromGenerator` throw an `InvalidArgumentException` for a name the class already has; the model has this throw as one fixed error, `DUPLICATE_MEMBER`, whose message does not name the member.
- The duplicate-name test of a DTO and of a service class is made once all members are built, not at the repeated `add` call. The outcome is the same: nothing is written or registered before the class is complete. The enum's facet loop tests each constant as it is added (`Enums.ConstantLoop`).
- Dtos.DtoClass: `uses` lists one import per `addUse` call, in element order, so two elements of the same foreign type list it twice. Whether Zend\Code's `addUse` merges repeated names is not modelled, since Zend\Code is not part of this model; `Dtos.DtoUses` and `Dtos.GatherUses` state which names are imported, not how often.
- `ServiceTemplate` is taken to declare `__construct` as its only method (`Factories.TEMPLATE_METHODS`); its other members are not modelled.
- Naming.ValidateNamingConventionIntended: PHP's `preg_replace` without the `/u` flag works on bytes, so `\x7f-\xff` keeps every byte of a multi-byte UTF-8 character. The model classifies characters, and `HighByte` keeps the characters U+007F to U+00FF only, so a name with characters above U+00FF can come out differently.
- A schema without a target namespace has the target namespace `null`. Where the code passes it to League\Url or prints it in `@xmlns`, PHP turns `null` into `''`, and so does the model.
- Factories.ServiceClass: the namespace is the inflected namespace of the `wsdl:portType` element. That is `getNamespace()` on the element's own name, with its document's namespace map as input.

Behaviour of the code that may look unintended, kept as written:
- Only the factory's `createDTO` ORs the nillable flag with the null-constructor override. `ClassBuilder::finalize` uses the nillable flag alone (`Dtos.DtoConstructor`).
- `convertXsdTypeToPhpType` appends `[]` to every result, array or not (`Naming.ConvertXsdTypeToPhpType`).
- The two array spellings `ArrayOfX` and `X[]` disagree for `X = 0` (`Naming.ConvertArrayOfZero`).
- A simple type whose restriction chain has fewer than two links is not skipped. `end()` of the emptied list gives `false`, and `getBase()` on it stops the run (`Generation.ShortChainIsFatal`).
- A second class with the same short name is not an error. It overwrites the classmap entry in place (`Classmaps.PutTwice`).

## Findings

| source | as written | input that shows it | evidently intended | confidence | as-written member | corrected member |
|---|---|---|---|---|---|---|
| src/Sapone/Command/GenerateCommand.php:1018 | the classes `[^a-zA-Z_x7f-xff]` and `[^a-zA-Z0-9_x7f-xff]` have no backslashes, so `x7f-xff` lists `x`, `7`, the range `f-x`, `f` and `f` | `7abc`, and every `7` followed by word characters, becomes that name followed by `_`, which starts with a digit and is no PHP identifier | the escapes `\x7f-\xff`, the bytes 127 to 255, so that the result always starts with a letter, `_` or a high byte (modelled as the characters U+007F to U+00FF, see Left out) | not executed | Naming.ValidateNamingConventionKeepsLeadingSeven | Naming.ValidateNamingConventionIntended |
| src/Sapone/Command/GenerateCommand.php:894 | `$matches['t1'] ? $matches['t1'] : $matches['t2']` tests `t1` for truthiness, and after an `ArrayOf` match the trailing group `t2` is unset | `ArrayOf0` gives `[]`, while `0[]` gives `0[]` | take `t1` whenever the `ArrayOf` branch matched, so that `ArrayOfX` and `X[]` always agree | not executed | Naming.ConvertArrayOfZero | Naming.ConvertIntendedArrayFormsAgree |
