# telegraf-i18n, modelled in Dafny

This project models the core of `telegraf-i18n`, an internationalisation
library for Telegram bots built on Telegraf. The library keeps a repository
of locales (language code → resource key → template) and renders a key for a
user's language, falling back language by language. It also generates
TypeScript declarations for the template parameters by walking the syntax
tree of each template.

The modules follow the source files:

- `Wrappers` (wrappers.dfy): `Option` and `Result`, which stand for
  JavaScript's `undefined` and for thrown exceptions. `Then` chains two
  list-producing steps so that the first failure aborts.
- `Strings` (strings.dfy): the JavaScript string primitives the core uses.
  These are `toLowerCase` for ASCII letters, `includes`, `join`, `trim` and
  `String(n)` for integers.
- `Dicts` (dicts.dfy): plain objects used as records. Each is an ordered
  dictionary whose key order is `Object.keys` order. It supports assignment,
  `delete` and object spread.
- `Types` (types.dfy): `Config`, template data, templates, and the
  `Repository` object that an `I18n` and its contexts share by reference.
- `Context` (context.dfy):
  - the language fallback: the lower-cased code, then its short form, then
    the default language;
  - the key fallback of `t`: the current code, the short code, the default
    language when `defaultLanguageOnMissing` is set, then the key itself
    when `allowMissing` is set, else an error;
  - the `I18nContext` class.
- `I18nCore` (i18n.dfy):
  - flattening of locale data;
  - compiling templates;
  - loading and resetting locales;
  - the key and progress queries;
  - the configuration defaults;
  - the middleware's choice of language;
  - `match`;
  - the `I18n` class.
- `Estree` (estree.dfy): the part of an ESTree syntax tree the analyzers
  read, and the enter/leave walk with the `skipNode` rule that both
  analyzers use.
- `GenerateTypes` (generate_types.dfy): `generateTypes` and its helpers.
  - The template is wrapped in backticks.
  - Parameters are collected into an insertion-ordered set.
  - Names listed as global template data are dropped.
  - The output is a `I18nResourceParams` interface.
- `LegacyGenerator` (types_generator.dfy): the older `TypesGenerator` class.
  - It keeps raw strings per language.
  - Its analyzer collects into a list and drops no global names.
  - It crashes on a call argument that has neither a name nor an object.
  - It emits the `ResourceKey` and `ResourceParams` declarations.

Foreign code and I/O are parameters of the model:

- The template compiler (`compile-template`) is an `Evaluator`, a function
  from source and data to a rendering or a throw.
- The JavaScript parser (`abstract-syntax-tree`'s `parse`) is a `Parser`, a
  function from text to a tree, with `None` for a syntax error.
- The Telegraf context becomes the `session` and `from` values that the
  middleware reads.

## Model

| member | source | states |
|---|---|---|
| Strings.ToLower | src/I18n.ts:55 | the result has the input's length and each character lower-cased (ASCII letters) |
| Strings.ToLowerIdempotent | src/I18n.ts:128-131 | a lower-cased code is lower case and lower-casing it again changes nothing |
| Strings.TrimNoop | src/generateTypes.ts:18 | a string that neither starts nor ends with JS whitespace is its own `trim()` |
| Strings.SplitJoinedLines | src/generateTypes.ts:33 | `join('\n')` of lines without line breaks splits back into exactly those lines |
| Strings.NatToStringRoundTrip | src/I18n.ts:155 | printing a number in decimal with `String` loses nothing: reading the digits back gives the number |
| Dicts.Put | src/I18n.ts:56 | assigning a key sets its value; an existing key keeps its place in `Object.keys`, a new key goes last; well-formedness is kept |
| Dicts.Merge | src/I18n.ts:56-59 | `{...a, ...b}`: `b`'s values win, keys only in `a` keep theirs, `a`'s order then `b`'s new keys in `b`'s order |
| Dicts.Remove | src/I18n.ts:122 | `delete` removes exactly that key and keeps the order of the others |
| Dicts.MergeAssociative | src/I18n.ts:56-59 | spreading `a` then `b` over an entry equals spreading `{...a, ...b}` over it |
| Dicts.MapValues | src/I18n.ts:154-156 | same keys in the same order, each value transformed |
| Types.Evaluate | src/context.ts:77 | a constant template renders its text; a compiled one renders what the compiler's function gives |
| Context.ShortLanguageCodeFromLong | src/context.ts:103-105 | `split('-')[0]`: the longest hyphen-free prefix, which is followed by `-` when shorter than the code |
| Context.ParseLanguageCode | src/context.ts:86-101 | the lower-cased code is kept iff it or its short form is loaded (as an own key of the repository), else the default language; the short code follows the chosen code |
| Context.ParsedLanguageIsLowerOrDefault | src/context.ts:90-95 | the chosen code is the requested one lower-cased or the default language, and its short form has no hyphen |
| Context.LookupTemplate | src/context.ts:30-33 | a template is found iff the language is an own key of the repository and the key an own key of its templates, without lower-casing |
| Context.FirstTemplateSpec | src/context.ts:50-54 | the first-found template exists iff some candidate language has the key, and it is that of the earliest such language |
| Context.ResolveStepByStep | src/context.ts:50-58 | the source's sequence of reassignments of `template` equals the first-candidate fallback followed by the `allowMissing` placeholder |
| Context.MergeData | src/context.ts:64-67 | call-site data wins on a collision, ambient data fills the rest, and no other key appears |
| Context.ConstantTemplateRendersText | src/context.ts:49-83 | a constant template under the current code renders its text whatever the data and the compiler |
| Context.DefaultLanguageFallback | src/context.ts:52-62 | a key found only under the default language is taken from it with `defaultLanguageOnMissing`, and is "not found" with both flags off |
| Context.NotFoundExactly | src/context.ts:56-62 | `t` throws "not found" iff `allowMissing` is off and no candidate language has the key; with `allowMissing`, such a key renders as itself |
| Context.CompileErrorExactly | src/context.ts:75-80 | `t` throws the compile error naming language and key iff the resolved template throws on the merged data |
| Context.Message | src/context.ts:61-79 | the message starts with `telegraf-i18n: '`, names the code and the key, and ends in `.` exactly for the compile error |
| Context.MessageNamesKey | src/context.ts:61-79 | under one language code, two messages of the same kind are equal exactly when they name the same key |
| Context.FailureMessage | src/context.ts:56-80 | whatever `t` throws, its message starts with the prefix, the current code and the key, and its last character tells "not found" from a compile error |
| Context.ShortFormFallbackExample | src/context.ts:90-100 | `en-US` with only `en` loaded stays `en-us` and finds its keys through `en` |
| Context.DefaultLanguageSubstitutionExample | src/context.ts:93-95 | `fr` with only `en` loaded becomes `en` |
| Context.I18nContext.constructor | src/context.ts:14-28 | the context shares the repository, merges the configured data under the given data, and chooses the language |
| Context.I18nContext.GetTemplate | src/context.ts:30-33 | a template is found iff that exact language is an own key of the repository and has the key as an own key, and it is the stored one |
| Context.I18nContext.Locale | src/context.ts:35-45 | no code (or an empty one) answers the current code and changes nothing; a code re-runs the language choice against the current repository |
| Context.I18nContext.T | src/context.ts:47-83 | the result is the key-level fallback rendered with the merged data, or the "not found" or compile error; the context is unchanged |
| I18nCore.Stringify | src/I18n.ts:155 | `String(value)`: a string is itself, an integer its decimal digits with a `-` when negative, booleans `true`/`false`, `null` the word `null` |
| I18nCore.StringifyIntRoundTrip | src/I18n.ts:155 | a printed integer starts with `-` iff it is negative, and its digits read back as its magnitude |
| I18nCore.Tableize | src/I18n.ts:151 | the flattened data is a well-formed ordered record |
| I18nCore.TableizeNested | src/I18n.ts:150-151 | `{a: {b: v}}` flattens to `{'a.b': v}` |
| I18nCore.TableizeLeaves | src/I18n.ts:158 | flattening an already flat record keeps its keys, their order and their values |
| I18nCore.TableizeFlat | src/I18n.ts:158 | the second `tableize` of `prepareI18nData` returns the string record it is given |
| I18nCore.PrepareI18nData | src/I18n.ts:149-159 | the result is well formed and is the flattened data with every leaf turned into its string, keys in flattening order |
| I18nCore.CompileKeepsPlainText | src/I18n.ts:165-169 | text without `${` becomes a template that renders exactly that text and never throws |
| I18nCore.CompileTemplates | src/I18n.ts:161-173 | one template per key, with keys and order unchanged: compiled when the text contains `${`, constant otherwise |
| I18nCore.Loaded | src/I18n.ts:58 | the entry a load merges in is well formed and has the flattened data's keys in order |
| I18nCore.WithLocale | src/I18n.ts:54-60 | the entry goes under the lower-cased code; new keys overwrite, old keys survive, other languages are untouched, well-formedness is kept |
| I18nCore.LoadTwice | src/I18n.ts:54-60 | loading the same language twice equals loading the merge of both data sets once |
| I18nCore.LoadIgnoresCase | src/I18n.ts:55 | loading under any casing of a code reaches the same language |
| I18nCore.WithoutLocale | src/I18n.ts:120-122 | deleting removes exactly the lower-cased language; the others keep their entries |
| I18nCore.Missing | src/I18n.ts:112 | a key is missing iff the reference has it and the language of interest does not; repeats in the reference are not introduced |
| I18nCore.MissingKeepsOrder | src/I18n.ts:112 | the missing keys keep the reference's order: filtering distributes over a split of the reference |
| I18nCore.MissingNone | src/I18n.ts:112 | a language with every reference key misses none |
| I18nCore.Progress | src/I18n.ts:141-146 | `None` (the `NaN`) iff the reference is empty; otherwise the translated share of the reference, between 0 and 1 |
| I18nCore.CompleteTranslation | src/I18n.ts:141-146 | a language with every reference key has progress 1 |
| I18nCore.PartialTranslation | src/I18n.ts:108-146 | with translated keys then untranslated ones, exactly the untranslated are missing and the progress is the translated share |
| I18nCore.SevenOfTenExample | src/I18n.ts:108-146 | seven of ten keys translated: the last three are missing and the progress is 0.7 |
| I18nCore.WithDefaults | src/I18n.ts:31-40 | defaults `en`, `session`, `allowMissing` true and `{pluralize}`; every given option overrides its default |
| I18nCore.MiddlewareLanguage | src/I18n.ts:87-88 | the session's code when sessions are used and it has one, else the sender's code, else the default language |
| I18nCore.I18n.constructor | src/I18n.ts:27-44 | the configuration is the defaults overridden by the options, over a new empty repository |
| I18nCore.I18n.AvailableLocales | src/I18n.ts:46-48 | exactly the loaded languages, each once |
| I18nCore.I18n.CreateContext | src/I18n.ts:50-52 | a new context over the same repository object and configuration, its language chosen from the code |
| I18nCore.I18n.LoadLocale | src/I18n.ts:54-60 | the repository becomes `WithLocale` of the compiled, flattened data; well-formedness is kept |
| I18nCore.I18n.ResetLocale | src/I18n.ts:119-126 | a non-empty code deletes that language from the shared object; no code or `''` replaces the repository by a new empty one and leaves the old object, which earlier contexts still share, with its languages |
| I18nCore.I18n.ResourceKeys | src/I18n.ts:128-131 | the keys of the lower-cased language in load order, or none when it is not loaded |
| I18nCore.I18n.MissingKeys | src/I18n.ts:108-113 | a key is listed iff the reference language has it and the language of interest lacks it, in reference order |
| I18nCore.I18n.OverspecifiedKeys | src/I18n.ts:115-117 | the keys of the language of interest that the reference lacks: `missingKeys` with the two languages swapped |
| I18nCore.I18n.TranslationProgress | src/I18n.ts:141-146 | `None` iff the reference has no keys; otherwise (reference − missing) / reference, between 0 and 1 |
| I18nCore.I18n.T | src/I18n.ts:133-139 | renders through a context for the code, with the call's data used both as ambient data and at the call |
| I18nCore.Match | src/I18n.ts:177-184 | `[text]` iff the text is non-empty, there is a context, and the context renders the key as exactly that text; `null` otherwise; errors of `t` propagate |
| Estree.NameOf | src/generateTypes.ts:63 | only identifiers have a name |
| Estree.Step | src/generateTypes.ts:55-96 | while skipping, nothing is entered; entering a member or call expression starts skipping; leaving the skipped node stops it |
| Estree.SkippedSubtree | src/generateTypes.ts:58-60 | while a larger node is skipped, walking a subtree enters nothing and keeps the skip |
| Estree.WalkVisits | src/generateTypes.ts:55-97 | the walk enters exactly the pre-order nodes outside member and call subtrees, and ends without a skip |
| Estree.CallInTemplateExample | src/generateTypes.ts:75-89 | for `` `${foo(bar.baz)}` `` the call is entered and nothing inside it is |
| GenerateTypes.ArgumentName | src/generateTypes.ts:79 | `argument.name` when truthy; else the object's name for a member expression; nothing for an argument with neither a name nor an object |
| GenerateTypes.ParamsNoGlobal | src/generateTypes.ts:62-87 | no parameter found names an entry of `globalTemplateData` |
| GenerateTypes.Insert | src/generateTypes.ts:64 | `Set.add`: an entry already present changes nothing, a new one goes last |
| GenerateTypes.UniqueIsKeepFirst | src/generateTypes.ts:99 | the set's array equals keeping each entry at its first occurrence (an independent definition) |
| GenerateTypes.UniqueMembers | src/generateTypes.ts:99 | the set's array holds each added entry exactly once |
| GenerateTypes.TemplateParamsSpec | src/generateTypes.ts:47-99 | the entries are the lines of the non-global parameters of the visited nodes, each once, in first-occurrence order |
| GenerateTypes.EscapeBackticks | src/generateTypes.ts:50 | the escaped text does not start with a backtick |
| GenerateTypes.EscapeRoundTrip | src/generateTypes.ts:50 | reading each `` \` `` back as a backtick gives the original template |
| GenerateTypes.EscapedBackticksArePreceded | src/generateTypes.ts:50 | every backtick of the escaped text follows a backslash |
| GenerateTypes.Wrap | src/generateTypes.ts:50 | the parser gets the escaped template between two backticks |
| GenerateTypes.AddCallEntries | src/generateTypes.ts:75-89 | the set after a call expression: its named, non-global arguments as scalars, then the callee as a function |
| GenerateTypes.AddKeyBlock | src/generateTypes.ts:28-38 | one key's step: an empty template adds nothing, a parse failure aborts, otherwise the key's block is appended |
| GenerateTypes.EnterNode | src/generateTypes.ts:57-91 | the `enter` callback adds a node's parameters to the set and starts skipping member and call expressions |
| GenerateTypes.ParseTemplateParams | src/generateTypes.ts:47-104 | the walk returns the template's parameter lines, or the parse failure naming key and template |
| GenerateTypes.BlocksSucceed | src/generateTypes.ts:26-41 | the declarations are produced iff every non-empty template parses |
| GenerateTypes.BlocksFirstFailure | src/generateTypes.ts:28-31 | a failure names the first key, in key order, whose template does not parse |
| GenerateTypes.GenerateTemplateParams | src/generateTypes.ts:26-41 | one block per non-empty template in key order, quoted key then entries or `never`, inside `I18nResourceParams`; or the first parse failure |
| GenerateTypes.BlockLayout | src/generateTypes.ts:32-36 | a `Block` is the quoted key's opening line, one line per entry and `  }`; without entries it is the one line `'key': never` |
| GenerateTypes.ParamsInterfaceLayout | src/generateTypes.ts:40 | `ParamsInterface` is its opening line, the lines of each block in order, and `}`; with no blocks an empty line in between |
| GenerateTypes.DeclarationsLines | src/generateTypes.ts:14-18 | the lines of `Declarations` are those of the interface, a blank line, the `ResourceKeyType` line, and an empty last line |
| GenerateTypes.NoBreakInHeaders | src/generateTypes.ts:40-44 | the interface's opening line and `ResourceKeyType` hold no line break |
| GenerateTypes.DeclarationsLayout | src/generateTypes.ts:14-18 | the trim changes nothing: the interface, a blank line, the key type, and exactly one final line break |
| GenerateTypes.GenerateTypes | src/generateTypes.ts:8-24 | the text is the params interface of the flattened data, a blank line, `I18nResourceKey`, and a newline; or the parse failure |
| GenerateTypes.CallWithMemberArgument | src/generateTypes.ts:68-89 | in `${f(o.p)}` the object `o` is a scalar, `f` a function, `p` nothing; globals are dropped |
| GenerateTypes.CallWithMemberArgumentExample | src/generateTypes.ts:75-89 | `foo(bar.baz)` yields `bar` and `foo` but not `baz`; listing `foo` as global leaves only `bar` |
| GenerateTypes.CallWithMemberArgumentDistinct | src/generateTypes.ts:75-89 | for `${f(o.p)}` with any two different names: the entries of `o` then `f`, two different lines, and only `o` once `f` is global |
| GenerateTypes.ScalarAndFunctionLinesDiffer | src/generateTypes.ts:80-87 | a scalar entry and a function entry are never the same line, whatever their names |
| LegacyGenerator.LegacyArgumentParam | src/TypesGenerator.ts:91 | an argument throws iff it has neither a truthy name nor an object; otherwise one entry of the union type, named by the argument or else by its object |
| LegacyGenerator.LegacyKeepsEveryEntry | src/TypesGenerator.ts:77-96 | nothing is merged or filtered: one entry per identifier, member expression, call argument and callee visited |
| LegacyGenerator.LegacyFailsIff | src/TypesGenerator.ts:87-96 | the analysis throws iff some visited call has an argument with neither name nor object |
| LegacyGenerator.LegacyEnterNode | src/TypesGenerator.ts:73-98 | the `enter` callback appends the node's entries, or throws, and starts skipping member and call expressions |
| LegacyGenerator.LegacyArgumentEntries | src/TypesGenerator.ts:89-93 | a call's arguments each append one entry, in order; the first argument with neither name nor object throws |
| LegacyGenerator.LegacyParseTemplateParams | src/TypesGenerator.ts:64-107 | the raw template is parsed and walked; the result is the list of entries, or the syntax error, or the argument crash |
| LegacyGenerator.Lookup | src/TypesGenerator.ts:43 | a template is found iff the key is an own key, and it is the stored one |
| LegacyGenerator.NoTemplatesNoBlocks | src/TypesGenerator.ts:42-52 | keys without a template contribute no block |
| LegacyGenerator.LegacyBlockLayout | src/TypesGenerator.ts:46-50 | a `LegacyBlock` is the unquoted key's opening line, one line per entry and `  }`; without entries the one line `key: never` |
| LegacyGenerator.ResourceParamsLayout | src/TypesGenerator.ts:54 | `ResourceParams` is its opening line, the lines of the blocks joined by backslash-`n`, and `}` |
| LegacyGenerator.ResourceParamsOneLine | src/TypesGenerator.ts:54 | blocks without line breaks of their own all land on one line between the opening line and `}` |
| LegacyGenerator.ResourceKeyLayout | src/TypesGenerator.ts:58-62 | `ResourceKeyDeclaration` is an empty line, the `ResourceKey =` line, the first quoted key, and each further key on its own line after `  \| `; no keys leave an empty last line |
| LegacyGenerator.ResourceParamsLineBreaks | src/TypesGenerator.ts:54 | the blocks are joined without line breaks: the text has only the frame's and the blocks' own line breaks |
| LegacyGenerator.QuoteAll | src/TypesGenerator.ts:61 | each key in double quotes after a space, in order |
| LegacyGenerator.ResourceKeyDeclarationSnoc | src/TypesGenerator.ts:58-62 | each further key adds `\n  \| "key"` at the end of the `ResourceKey` union |
| LegacyGenerator.MixedCaseDefaultLanguage | src/TypesGenerator.ts:13-43 | with a default language that is not lower case no templates are found, so `ResourceParams` is empty whatever the keys |
| LegacyGenerator.TypesGenerator.constructor | src/TypesGenerator.ts:9-10 | the defaults overridden by the options, and no templates |
| LegacyGenerator.TypesGenerator.LoadLocale | src/TypesGenerator.ts:27-33 | the raw flattened strings, not compiled, are merged into the lower-cased language; every stored code stays lower case |
| I18nCore.WithLocaleKeepsLowerCodes | src/TypesGenerator.ts:28-29 | storing under the lower-cased code keeps every language code of the repository lower case |
| LegacyGenerator.TypesGenerator.ResourceKeys | src/TypesGenerator.ts:35-38 | the keys of the lower-cased language in `templates`, or none |
| LegacyGenerator.TypesGenerator.GenerateTemplateParams | src/TypesGenerator.ts:40-55 | one unquoted-key block per key whose default-language template is present and non-empty, in key order, joined by `\n` characters; or the first throw |
| LegacyGenerator.TypesGenerator.GenerateTypes | src/TypesGenerator.ts:12-25 | `ResourceKey` over the default language's keys, a blank line, then `ResourceParams` for those same keys |
| LegacyGenerator.RepeatedName | src/TypesGenerator.ts:78-81 | a name used twice is listed twice by the older analyzer and once by the newer one |
| LegacyGenerator.LiteralArgument | src/TypesGenerator.ts:89-93 | a call with a literal argument makes the older analyzer throw while the newer one lists only the callee |
| LegacyGenerator.CallWithMemberArgumentLegacy | test/types-generator.ts:5-17 | for `` `${foo(bar.baz)}` `` the entries are `bar` and `foo`; `baz` does not appear |
| LegacyGenerator.LegacyCallWithMember | src/TypesGenerator.ts:82-95 | for `${f(o.p)}` the older analyzer gives the entry of `o`, then `f`; the property `p` is skipped |

## Left out

- `loadLocales` and the `directory` option (src/I18n.ts:62-82) are left out. They read the file system, YAML and JSON. The constructors are modelled without a directory.
- `TypesGenerator` with a `directory` option is left out. The superclass constructor would call the overriding `loadLocale` before the `templates` field is initialised. That is JavaScript class-field ordering tied to that I/O.
- `TypesGenerator` does not inherit from `I18n` here, because the model has no subclassing. It is a class of its own and carries only the members it uses or overrides. The inherited `repository` and the other `I18n` members are ignored.
- `middleware` (src/I18n.ts:84-106) is modelled only as its choice of language (`MiddlewareLanguage`). The Telegraf context, `next()` and the session write-back of `locale()` after `next()` are asynchronous framework plumbing.
- `reply` (src/I18n.ts:186-192) is a call into Telegraf.
- The `bind(this)` loop in `t` (src/context.ts:69-73) is left out. Template data functions are kept by name, and what they compute is up to the evaluator.
- `tableize-object` is a foreign library. `Tableize` models it on an explicit ordered tree: every leaf is stored under its dot-joined path, in document order.
  - Arrays are left out.
- Dicts.Put, Dicts.Merge: JavaScript lists integer-like keys first, in ascending order, whatever the insertion order. The model keeps insertion order for every key. So `availableLocales` with a language code `"1"`, or `resourceKeys` with a key `"404"`, would list that key first in JavaScript but in load order here.
- Context.ParseLanguageCode, Context.LookupTemplate, Context.I18nContext.GetTemplate, LegacyGenerator.Lookup: a lookup sees the record's own keys only. JavaScript's `obj[key]` also finds inherited `Object.prototype` members such as `toString` or `constructor`. A language code or resource key with such a name would find a function there. The `__proto__` key, which an object literal drops as data, is not modelled either.
- I18nCore.Progress: the result is the exact rational share. `translationProgress` divides two IEEE doubles, whose quotient is rounded.
- `String(value)` is modelled for strings, integers, booleans and `null`. Floating-point printing is left out.
- `toLowerCase` is modelled for ASCII letters only. Unicode case mapping is left out.
- `translationProgress` returns `NaN` for an empty reference. This is `None` here.
- `Partial<Config>` fields given explicitly as `undefined` are left out. Spreading such a field would override the default with `undefined`. Here an absent option takes the default.
- `compile-template` and `abstract-syntax-tree` are foreign. They are the `Evaluator` and `Parser` parameters.
  - Template quasis are not part of the tree, because entering or leaving them changes nothing.
  - `leave` compares nodes by identity (`===`). The model compares them structurally. The two differ only when a member or call subtree contains a copy of itself, which a finite tree cannot.
- `writeFileSync` (src/generateTypes.ts:20-22, src/TypesGenerator.ts:21-23) is left out as I/O, and so is the `output` parameter.
- The `console.error` before the rethrow (src/generateTypes.ts:101) is left out as I/O. The error value keeps the key and the template it names.
- GenerateTypes.EscapeRoundTrip: the inverse it uses reads only `` \` `` as an escape. JavaScript reads every backslash escape in a template literal, and a backslash in a template is not escaped (src/generateTypes.ts:50). So the statement does not cover templates that contain backslashes.
- GenerateTypes.ParamsNoGlobal: a name that is `undefined` is never compared against the global list, and it prints as `undefined`. The lemma states nothing about that printed text.
