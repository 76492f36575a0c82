/** The locale repository (src/I18n.ts): loading, compiling and resetting
    locales, the introspection queries, the `match` helper for incoming
    text, and the configuration defaults. */
module I18nCore {
  import opened Wrappers
  import opened Strings
  import opened Dicts
  import opened Types
  import opened Context

  /** A leaf of locale data as parsed from YAML or JSON. */
  datatype Scalar = Str(s: string) | Int(i: int) | Bool(b: bool) | Null

  /** Nested locale data: a leaf, or an object whose fields are in order. */
  datatype DataNode = Leaf(value: Scalar) | Branch(fields: seq<Field>)
  datatype Field = Field(name: string, node: DataNode)

  /** `String(value)`: a string is itself, an integer its decimal digits
      after a `-` when negative, a boolean `true` or `false`, and `null`
      the word `null`. */
  function Stringify(v: Scalar): (r: string)
    ensures v.Str? ==> r == v.s
    ensures v.Int? && v.i >= 0 ==> r == NatToString(v.i)
    ensures v.Int? && v.i < 0 ==> r == "-" + NatToString(-v.i)
    ensures v.Bool? ==> r == if v.b then "true" else "false"
    ensures v.Null? ==> r == "null"
  {
    match v
    case Str(s) => s
    case Int(i) => IntToString(i)
    case Bool(b) => if b then "true" else "false"
    case Null => "null"
  }

  /** A printed integer reads back as that integer: its digits, after the
      sign for a negative one, parse to its magnitude. */
  lemma StringifyIntRoundTrip(i: int)
    ensures var r := Stringify(Int(i));
      (r[0] == '-' <==> i < 0)
      && (i >= 0 ==> ParseDigits(r) == i)
      && (i < 0 ==> (forall k :: 1 <= k < |r| ==> '0' <= r[k] <= '9') && ParseDigits(r[1..]) == -i)
  {
    if i >= 0 {
      NatToStringRoundTrip(i);
    } else {
      var r := Stringify(Int(i));
      assert r[1..] == NatToString(-i);
      NatToStringRoundTrip(-i);
    }
  }

  function NodeSize(n: DataNode): nat {
    match n
    case Leaf(_) => 1
    case Branch(fields) => 1 + FieldsSize(fields)
  }

  function FieldsSize(fields: seq<Field>): nat {
    if fields == [] then 0 else NodeSize(fields[0].node) + FieldsSize(fields[1..])
  }

  /** The `tableize-object` flattening, as this model takes it: every leaf
      is assigned under its dot-joined path, in document order. */
  function FlattenInto(acc: Dict<Scalar>, prefix: string, fields: seq<Field>): Dict<Scalar>
    decreases FieldsSize(fields)
  {
    if fields == [] then acc
    else
      var f := fields[0];
      assert FieldsSize(fields) == NodeSize(f.node) + FieldsSize(fields[1..]);
      match f.node
      case Leaf(v) => FlattenInto(Put(acc, prefix + f.name, v), prefix, fields[1..])
      case Branch(children) =>
        assert NodeSize(f.node) == 1 + FieldsSize(children);
        FlattenInto(FlattenInto(acc, prefix + f.name + ".", children), prefix, fields[1..])
  }

  lemma {:induction false} FlattenIntoValid(acc: Dict<Scalar>, prefix: string, fields: seq<Field>)
    requires Valid(acc)
    ensures Valid(FlattenInto(acc, prefix, fields))
    decreases FieldsSize(fields)
  {
    if fields != [] {
      var f := fields[0];
      assert FieldsSize(fields) == NodeSize(f.node) + FieldsSize(fields[1..]);
      match f.node {
        case Leaf(v) =>
          FlattenIntoValid(Put(acc, prefix + f.name, v), prefix, fields[1..]);
        case Branch(children) =>
          assert NodeSize(f.node) == 1 + FieldsSize(children);
          FlattenIntoValid(acc, prefix + f.name + ".", children);
          FlattenIntoValid(FlattenInto(acc, prefix + f.name + ".", children), prefix, fields[1..]);
      }
    }
  }

  /** `tableize(data)` */
  function Tableize(fields: seq<Field>): (r: Dict<Scalar>)
    ensures Valid(r)
  {
    FlattenIntoValid(Empty(), "", fields);
    FlattenInto(Empty(), "", fields)
  }

  /** `{a: {b: v}}` becomes `{'a.b': v}`. */
  lemma TableizeNested(a: string, b: string, v: Scalar)
    ensures Tableize([Field(a, Branch([Field(b, Leaf(v))]))]) == Dict([a + "." + b], map[a + "." + b := v])
  {
    var inner := [Field(b, Leaf(v))];
    assert "" + a == a;
    assert FlattenInto(Empty(), a + ".", inner) == Dict([a + "." + b], map[a + "." + b := v]);
    assert FlattenInto(Empty(), "", [Field(a, Branch(inner))]) == FlattenInto(FlattenInto(Empty(), a + ".", inner), "", []);
  }

  /** A flat record of strings, as data fields in its key order. */
  function LeafFields(keys: seq<string>, items: map<string, string>): seq<Field>
    requires forall k :: k in keys ==> k in items
  {
    if keys == [] then [] else [Field(keys[0], Leaf(Str(items[keys[0]])))] + LeafFields(keys[1..], items)
  }

  lemma {:induction false} FlattenLeaves(acc: Dict<Scalar>, keys: seq<string>, items: map<string, string>)
    requires forall k :: k in keys ==> k in items
    ensures FlattenInto(acc, "", LeafFields(keys, items)) == PutAll(acc, keys, map k | k in items :: Str(items[k]))
    decreases |keys|
  {
    if keys != [] {
      var k := keys[0];
      assert "" + k == k;
      FlattenLeaves(Put(acc, k, Str(items[k])), keys[1..], items);
    }
  }

  lemma {:induction false} NotInNothing(s: seq<string>, m: map<string, Scalar>)
    requires m == map[]
    ensures NotIn(s, m) == s
  {
    if s != [] {
      NotInNothing(s[1..], m);
    }
  }

  /** The keys and leaves `tableize` produces from a flat record. */
  lemma TableizeLeaves(keys: seq<string>, items: map<string, string>)
    requires NoDuplicates(keys)
    requires forall k :: k in keys ==> k in items
    ensures Tableize(LeafFields(keys, items)).keys == keys
    ensures forall k :: k in Tableize(LeafFields(keys, items)).items <==> k in keys
    ensures forall k :: k in keys ==> Tableize(LeafFields(keys, items)).items[k] == Str(items[k])
  {
    var strs := map k | k in items :: Str(items[k]);
    var e := Empty<Scalar>();
    var flat := PutAll(e, keys, strs);
    FlattenLeaves(e, keys, items);
    assert Tableize(LeafFields(keys, items)) == flat;
    PutAllKeys(e, keys, strs);
    NotInNothing(keys, e.items);
    PutAllItems(e, keys, strs);
    assert flat.items == e.items + map k | k in keys :: strs[k];
    forall k | k in keys
      ensures flat.items[k] == Str(items[k])
    {
      assert flat.items[k] == strs[k];
    }
  }

  /** Flattening data that is already flat changes nothing, so the second
      `tableize` in `prepareI18nData` returns the strings it is given. */
  lemma TableizeFlat(d: Dict<string>)
    requires Valid(d)
    ensures MapValues(Tableize(LeafFields(d.keys, d.items)), Stringify) == d
  {
    TableizeLeaves(d.keys, d.items);
    var t := Tableize(LeafFields(d.keys, d.items));
    var r := MapValues(t, Stringify);
    assert r.items.Keys == d.items.Keys;
    assert r.items == d.items;
  }

  /** `prepareI18nData`: flattens to dot keys, then turns every leaf into
      its string. */
  method PrepareI18nData(i18nData: seq<Field>) returns (r: Dict<string>)
    ensures Valid(r)
    ensures r == MapValues(Tableize(i18nData), Stringify)
  {
    var tableized := Tableize(i18nData);
    var ensureStringData := Empty<string>();
    for i := 0 to |tableized.keys|
      invariant MappedPrefix(ensureStringData, tableized, Stringify, i)
    {
      var key := tableized.keys[i];
      MappedPrefixStep(ensureStringData, tableized, Stringify, i);
      ensureStringData := Put(ensureStringData, key, Stringify(tableized.items[key]));
    }
    MappedPrefixAll(ensureStringData, tableized, Stringify);
    TableizeFlat(ensureStringData);
    r := MapValues(Tableize(LeafFields(ensureStringData.keys, ensureStringData.items)), Stringify);
  }

  /** `value.includes('${')` */
  predicate HasPlaceholder(value: string) {
    Contains(value, "${")
  }

  /** The template `compileTemplates` stores for one value. */
  function Compile(value: string): Template {
    if HasPlaceholder(value) then Compiled(value) else Const(value)
  }

  /** Text without `${` compiles to a template that renders exactly that
      text for every input and never throws. */
  lemma CompileKeepsPlainText(value: string, data: TemplateData, compiled: Evaluator)
    requires !HasPlaceholder(value)
    ensures Evaluate(Compile(value), data, compiled) == Rendered(value)
  {
  }

  /** `compileTemplates`: one template per key, keys and order unchanged. */
  method CompileTemplates(root: Dict<string>) returns (r: Dict<Template>)
    requires Valid(root)
    ensures Valid(r)
    ensures r == MapValues(root, Compile)
  {
    var result := Empty<Template>();
    for i := 0 to |root.keys|
      invariant MappedPrefix(result, root, Compile, i)
    {
      var key := root.keys[i];
      var value := root.items[key];
      MappedPrefixStep(result, root, Compile, i);
      if HasPlaceholder(value) {
        result := Put(result, key, Compiled(value));
      } else {
        result := Put(result, key, Const(value));
      }
    }
    MappedPrefixAll(result, root, Compile);
    r := result;
  }

  /** The entry `loadLocale` merges in for `i18nData`. */
  function Loaded(i18nData: seq<Field>): (r: Dict<Template>)
    ensures Valid(r)
    ensures r.keys == Tableize(i18nData).keys
  {
    MapValues(MapValues(Tableize(i18nData), Stringify), Compile)
  }

  /** The repository after `loadLocale(code, …)` merged `entry` in: stored
      under the lower-cased code, new keys overwrite, keys only in the old
      entry survive, other languages are untouched. */
  function WithLocale<V>(repo: Dict<Dict<V>>, code: string, entry: Dict<V>): (r: Dict<Dict<V>>)
    requires Valid(entry)
    ensures var lang := ToLower(code);
      && lang in r.items
      && r.items[lang].items == (if lang in repo.items then repo.items[lang].items else map[]) + entry.items
      && (forall k :: k in entry.items ==> r.items[lang].items[k] == entry.items[k])
      && (forall k :: lang in repo.items && k in repo.items[lang].items && k !in entry.items ==> r.items[lang].items[k] == repo.items[lang].items[k])
      && (forall other :: other != lang ==> (other in r.items <==> other in repo.items))
      && (forall other :: other != lang && other in repo.items ==> r.items[other] == repo.items[other])
    ensures WellFormed(repo) ==> WellFormed(r)
  {
    var lang := ToLower(code);
    Put(repo, lang, Merge(Get(repo, lang).GetOr(Empty()), entry))
  }

  /** Loading keeps every language of the repository under a lower-case
      code, since the new one is stored lower-cased. */
  lemma WithLocaleKeepsLowerCodes<V>(repo: Dict<Dict<V>>, code: string, entry: Dict<V>)
    requires Valid(entry)
    requires forall other :: other in repo.items ==> IsLower(other)
    ensures forall other :: other in WithLocale(repo, code, entry).items ==> IsLower(other)
  {
    ToLowerIdempotent(code);
  }

  /** Loading the same language twice is loading the merge of both. */
  lemma LoadTwice<V>(repo: Dict<Dict<V>>, code: string, first: Dict<V>, second: Dict<V>)
    requires Valid(first) && Valid(second)
    ensures WithLocale(WithLocale(repo, code, first), code, second) == WithLocale(repo, code, Merge(first, second))
  {
    var lang := ToLower(code);
    var existing := Get(repo, lang).GetOr(Empty());
    var once := Put(repo, lang, Merge(existing, first));
    assert Get(once, lang).GetOr(Empty()) == Merge(existing, first);
    MergeAssociative(existing, first, second);
    PutTwice(repo, lang, Merge(existing, first), Merge(Merge(existing, first), second));
  }

  /** Loading under any casing of a code reaches the same language. */
  lemma LoadIgnoresCase<V>(repo: Dict<Dict<V>>, code: string, entry: Dict<V>)
    requires Valid(entry)
    ensures WithLocale(repo, code, entry) == WithLocale(repo, ToLower(code), entry)
  {
    ToLowerIdempotent(code);
  }

  /** The repository after `resetLocale(code)`: only the lower-cased code is gone. */
  function WithoutLocale<V>(repo: Dict<Dict<V>>, code: string): (r: Dict<Dict<V>>)
    ensures ToLower(code) !in r.items
    ensures forall other :: other != ToLower(code) ==> (other in r.items <==> other in repo.items)
    ensures forall other :: other != ToLower(code) && other in repo.items ==> r.items[other] == repo.items[other]
    ensures WellFormed(repo) ==> WellFormed(r)
  {
    Remove(repo, ToLower(code))
  }

  /** `reference.filter(ref => !interest.includes(ref))` */
  function Missing(interest: seq<string>, reference: seq<string>): (r: seq<string>)
    ensures forall k :: k in r <==> k in reference && k !in interest
    ensures |r| <= |reference|
    ensures NoDuplicates(reference) ==> NoDuplicates(r)
  {
    if reference == [] then []
    else if reference[0] in interest then Missing(interest, reference[1..])
    else
      var rest := Missing(interest, reference[1..]);
      NoDuplicatesTail(reference);
      NoDuplicatesCons(reference[0], rest);
      [reference[0]] + rest
  }

  /** The missing keys keep the reference's order: `Missing` distributes
      over a split of the reference. */
  lemma {:induction false} MissingKeepsOrder(interest: seq<string>, front: seq<string>, back: seq<string>)
    ensures Missing(interest, front + back) == Missing(interest, front) + Missing(interest, back)
  {
    if front == [] {
      assert front + back == back;
    } else {
      assert (front + back)[0] == front[0] && (front + back)[1..] == front[1..] + back;
      MissingKeepsOrder(interest, front[1..], back);
    }
  }

  /** `(reference - missing) / reference`; an empty reference gives `NaN`,
      here `None`. */
  function Progress(interest: seq<string>, reference: seq<string>): (r: Option<real>)
    ensures r.None? <==> reference == []
    ensures r.Some? ==> 0.0 <= r.value <= 1.0
    ensures r.Some? ==> r.value == (|reference| - |Missing(interest, reference)|) as real / |reference| as real
  {
    if reference == [] then None
    else
      var total := |reference| as real;
      var translated := (|reference| - |Missing(interest, reference)|) as real;
      FractionBounds(translated, total);
      Some(translated / total)
  }

  lemma FractionBounds(x: real, n: real)
    requires 0.0 <= x <= n && n > 0.0
    ensures 0.0 <= x / n <= 1.0
  {
    assert x / n * n == x;
  }

  lemma {:induction false} MissingNone(interest: seq<string>, reference: seq<string>)
    requires forall k :: k in reference ==> k in interest
    ensures Missing(interest, reference) == []
  {
    if reference != [] {
      MissingNone(interest, reference[1..]);
    }
  }

  lemma {:induction false} MissingAll(interest: seq<string>, reference: seq<string>)
    requires forall k :: k in reference ==> k !in interest
    ensures Missing(interest, reference) == reference
  {
    if reference != [] {
      MissingAll(interest, reference[1..]);
    }
  }

  lemma SelfDivision(x: real)
    requires x > 0.0
    ensures x / x == 1.0
  {
    var q := x / x;
    assert q * x == x;
    assert (q - 1.0) * x == 0.0;
  }

  /** A fully translated language has progress 1. */
  lemma CompleteTranslation(interest: seq<string>, reference: seq<string>)
    requires reference != []
    requires forall k :: k in reference ==> k in interest
    ensures Progress(interest, reference) == Some(1.0)
  {
    assert reference + [] == reference;
    PartialTranslation(interest, reference, []);
    SelfDivision(|reference| as real);
  }

  /** A reference made of translated keys followed by untranslated ones:
      exactly the untranslated ones are missing, and the progress is the
      translated share. */
  lemma PartialTranslation(interest: seq<string>, translated: seq<string>, untranslated: seq<string>)
    requires translated + untranslated != []
    requires forall k :: k in translated ==> k in interest
    requires forall k :: k in untranslated ==> k !in interest
    ensures Missing(interest, translated + untranslated) == untranslated
    ensures Progress(interest, translated + untranslated)
      == Some(|translated| as real / |translated + untranslated| as real)
  {
    var reference := translated + untranslated;
    MissingKeepsOrder(interest, translated, untranslated);
    MissingNone(interest, translated);
    MissingAll(interest, untranslated);
    assert Missing(interest, reference) == untranslated;
    var translatedCount := |reference| - |Missing(interest, reference)|;
    assert translatedCount == |translated|;
    assert translatedCount as real == |translated| as real;
  }

  /** Ten reference keys of which seven are translated: the three others
      are missing, and the progress is 0.7. */
  lemma SevenOfTenExample(en: seq<string>, ru: seq<string>)
    requires en == ["a", "b", "c", "d", "e", "f", "g", "h", "i", "j"]
    requires ru == ["a", "b", "c", "d", "e", "f", "g"]
    ensures Missing(ru, en) == ["h", "i", "j"]
    ensures Progress(ru, en) == Some(0.7)
  {
    var rest := ["h", "i", "j"];
    assert forall k :: k in rest ==> k !in ru;
    assert en == ru + rest;
    PartialTranslation(ru, ru, rest);
    assert |ru| as real / |en| as real == 0.7;
  }

  /** `Partial<Config>`: every field may be left out. */
  datatype PartialConfig = PartialConfig(
    allowMissing: Option<bool>,
    defaultLanguage: Option<string>,
    defaultLanguageOnMissing: Option<bool>,
    directory: Option<string>,
    sessionName: Option<string>,
    templateData: Option<TemplateData>,
    useSession: Option<bool>)

  /** The template data configured when none is given: the `pluralize` helper. */
  const DefaultTemplateData: TemplateData := map["pluralize" := Function("pluralize")]

  /** `{defaultLanguage: 'en', sessionName: 'session', allowMissing: true,
      templateData: {pluralize}, ...config}`; the flags left out are false. */
  function WithDefaults(options: PartialConfig): (c: Config)
    ensures c.defaultLanguage == options.defaultLanguage.GetOr("en")
    ensures c.sessionName == options.sessionName.GetOr("session")
    ensures c.allowMissing == options.allowMissing.GetOr(true)
    ensures c.templateData == options.templateData.GetOr(DefaultTemplateData)
    ensures c.defaultLanguageOnMissing == options.defaultLanguageOnMissing.GetOr(false)
    ensures c.useSession == options.useSession.GetOr(false)
    ensures c.directory == options.directory
  {
    Config(
      options.allowMissing.GetOr(true),
      options.defaultLanguage.GetOr("en"),
      options.defaultLanguageOnMissing.GetOr(false),
      options.directory,
      options.sessionName.GetOr("session"),
      options.templateData.GetOr(DefaultTemplateData),
      options.useSession.GetOr(false))
  }

  /** The language the middleware starts a context with: the session's
      code (when sessions are used and there is one), else the sender's
      code, else the default language. */
  function MiddlewareLanguage(config: Config, session: Option<Option<string>>, fromCode: Option<string>): (r: string)
    ensures config.useSession && session.Some? && session.value.Some? ==> r == session.value.value
    ensures !(config.useSession && session.Some? && session.value.Some?) && fromCode.Some? ==> r == fromCode.value
    ensures !(config.useSession && session.Some? && session.value.Some?) && fromCode.None? ==> r == config.defaultLanguage
  {
    if config.useSession && session.Some? && session.value.Some? then session.value.value
    else fromCode.GetOr(config.defaultLanguage)
  }

  class I18n {
    var repository: Repository
    const config: Config

    /** Every level of the repository is a well-formed dictionary. */
    ghost predicate Valid()
      reads this, repository
    {
      WellFormed(repository.languages)
    }

    /** Applies the configuration defaults to `options` and starts with an
        empty repository. */
    constructor (options: PartialConfig)
      ensures Valid() && fresh(repository)
      ensures config == WithDefaults(options)
      ensures repository.languages == Empty()
    {
      config := WithDefaults(options);
      repository := new Repository();
    }

    /** `availableLocales()`: the loaded languages, each once. */
    function AvailableLocales(): (r: seq<string>)
      requires Valid()
      reads this, repository
      ensures NoDuplicates(r)
      ensures forall code :: code in r <==> code in repository.languages.items
    {
      repository.languages.keys
    }

    /** `createContext(languageCode, templateData)`: a context sharing this
        repository object. */
    method CreateContext(languageCode: string, templateData: TemplateData) returns (ctx: I18nContext)
      ensures fresh(ctx)
      ensures ctx.repository == repository && ctx.config == config
      ensures ctx.templateData == MergeData(config.templateData, Some(templateData))
      ensures LanguageChoice(ctx.languageCode, ctx.shortLanguageCode)
        == ParseLanguageCode(repository.languages, config.defaultLanguage, languageCode)
    {
      ctx := new I18nContext(repository, config, languageCode, templateData);
    }

    /** `loadLocale(languageCode, i18nData)` */
    method LoadLocale(languageCode: string, i18nData: seq<Field>)
      requires Valid()
      modifies repository
      ensures Valid()
      ensures repository.languages == WithLocale(old(repository.languages), languageCode, Loaded(i18nData))
    {
      var language := ToLower(languageCode);
      var prepared := PrepareI18nData(i18nData);
      var compiled := CompileTemplates(prepared);
      var existing := Get(repository.languages, language).GetOr(Empty());
      repository.languages := Put(repository.languages, language, Merge(existing, compiled));
    }

    /** `resetLocale(languageCode?)`: a non-empty code deletes that language
        from the shared repository object; no code, or an empty one,
        replaces the repository by a new empty one, which contexts created
        earlier do not see. */
    method ResetLocale(languageCode: Option<string>)
      requires Valid()
      modifies this, repository
      ensures Valid()
      ensures languageCode.Some? && languageCode.value != "" ==>
        repository == old(repository) && repository.languages == WithoutLocale(old(repository.languages), languageCode.value)
      ensures languageCode.None? || languageCode.value == "" ==>
        fresh(repository) && repository.languages == Empty()
      ensures languageCode.None? || languageCode.value == "" ==>
        old(repository).languages == old(repository.languages)
    {
      if languageCode.Some? && languageCode.value != "" {
        repository.languages := Remove(repository.languages, ToLower(languageCode.value));
      } else {
        repository := new Repository();
      }
    }

    /** `resourceKeys(languageCode)`: the keys of the lower-cased language,
        in load order, or none for a language that is not loaded. */
    function ResourceKeys(languageCode: string): (r: seq<string>)
      reads this, repository
      ensures ToLower(languageCode) in repository.languages.items ==> r == repository.languages.items[ToLower(languageCode)].keys
      ensures ToLower(languageCode) !in repository.languages.items ==> r == []
    {
      match Get(repository.languages, ToLower(languageCode))
      case Some(entry) => entry.keys
      case None => []
    }

    /** The reference language: the given one, else the default language. */
    function Reference(referenceLanguage: Option<string>): string
      reads this
    {
      referenceLanguage.GetOr(config.defaultLanguage)
    }

    /** `missingKeys(languageOfInterest, referenceLanguage)`: the reference
        keys, in their order, that the language of interest lacks. */
    function MissingKeys(languageOfInterest: string, referenceLanguage: Option<string>): (r: seq<string>)
      reads this, repository
      ensures forall k :: k in r <==>
        k in ResourceKeys(Reference(referenceLanguage)) && k !in ResourceKeys(languageOfInterest)
      ensures r == Missing(ResourceKeys(languageOfInterest), ResourceKeys(Reference(referenceLanguage)))
    {
      Missing(ResourceKeys(languageOfInterest), ResourceKeys(Reference(referenceLanguage)))
    }

    /** `overspecifiedKeys(languageOfInterest, referenceLanguage)`: the keys
        of the language of interest that the reference lacks, that is,
        `missingKeys` with the two languages swapped. */
    function OverspecifiedKeys(languageOfInterest: string, referenceLanguage: Option<string>): (r: seq<string>)
      reads this, repository
      ensures r == MissingKeys(Reference(referenceLanguage), Some(languageOfInterest))
      ensures forall k :: k in r <==>
        k in ResourceKeys(languageOfInterest) && k !in ResourceKeys(Reference(referenceLanguage))
    {
      MissingKeys(Reference(referenceLanguage), Some(languageOfInterest))
    }

    /** `translationProgress(languageOfInterest, referenceLanguage)`: the
        share of reference keys translated, between 0 and 1; `None` stands
        for the `NaN` of an empty reference. */
    function TranslationProgress(languageOfInterest: string, referenceLanguage: Option<string>): (r: Option<real>)
      reads this, repository
      ensures r.None? <==> ResourceKeys(Reference(referenceLanguage)) == []
      ensures r.Some? ==> 0.0 <= r.value <= 1.0
      ensures r.Some? ==>
        r.value == (|ResourceKeys(Reference(referenceLanguage))| - |MissingKeys(languageOfInterest, referenceLanguage)|) as real
                   / |ResourceKeys(Reference(referenceLanguage))| as real
    {
      Progress(ResourceKeys(languageOfInterest), ResourceKeys(Reference(referenceLanguage)))
    }

    /** `t(languageCode, resourceKey, templateData)`: renders through a new
        context whose ambient data is the call's data. */
    method T(languageCode: string, resourceKey: string, templateData: Option<TemplateData>, compiled: Evaluator)
      returns (r: Result<string, I18nError>)
      ensures var choice := ParseLanguageCode(repository.languages, config.defaultLanguage, languageCode);
        r == Translate(repository.languages, config, choice.languageCode, choice.shortLanguageCode, resourceKey,
                       MergeData(config.templateData, templateData), templateData, compiled)
    {
      var ctx := CreateContext(languageCode, templateData.GetOr(map[]));
      r := ctx.T(resourceKey, templateData, compiled);
    }
  }

  /** `match(resourceKey, templateData)(text, ctx)`: `[text]` when `text` is
      non-empty and is what the context renders for the key, `null` (here
      `None`) otherwise; an error of `t` propagates. */
  method Match(resourceKey: string, templateData: Option<TemplateData>, text: string, i18n: I18nContext?, compiled: Evaluator)
    returns (r: Result<Option<seq<string>>, I18nError>)
    ensures text == "" || i18n == null ==> r == Success(None)
    ensures text != "" && i18n != null ==>
      var rendered := Translate(i18n.repository.languages, i18n.config, i18n.languageCode, i18n.shortLanguageCode,
                                resourceKey, i18n.templateData, templateData, compiled);
      && (r.Success? && r.value.Some? <==> rendered == Success(text))
      && (r.Success? && r.value.Some? ==> r.value.value == [text])
      && (r.Failure? <==> rendered.Failure?)
      && (r.Failure? ==> r.error == rendered.error)
  {
    if text == "" || i18n == null {
      return Success(None);
    }
    var rendered := i18n.T(resourceKey, templateData, compiled);
    if rendered.Failure? {
      return Failure(rendered.error);
    }
    r := if text == rendered.value then Success(Some([text])) else Success(None);
  }
}
