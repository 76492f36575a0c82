/** The rendering context (src/context.ts): the language-level fallback
    that picks the current language, and the key-level fallback chain that
    picks the template a resource key is rendered with. */
module Context {
  import opened Wrappers
  import opened Strings
  import opened Dicts
  import opened Types

  /** `languageCode.split('-')[0]`: the longest prefix without a hyphen. */
  function ShortLanguageCodeFromLong(code: string): (r: string)
    ensures '-' !in r
    ensures |r| <= |code| && r == code[..|r|]
    ensures |r| < |code| ==> code[|r|] == '-'
  {
    if code == [] || code[0] == '-' then [] else [code[0]] + ShortLanguageCodeFromLong(code[1..])
  }

  datatype LanguageChoice = LanguageChoice(languageCode: string, shortLanguageCode: string)

  /** The language-level fallback: the lower-cased code is kept when it or
      its short form is a language of the repository; otherwise the default
      language is taken as it is. The short form always follows the code
      finally chosen. */
  function ParseLanguageCode(repo: Languages, defaultLanguage: string, languageCode: string): (r: LanguageChoice)
    ensures var code := ToLower(languageCode);
      (code in repo.items || ShortLanguageCodeFromLong(code) in repo.items) ==> r.languageCode == code
    ensures var code := ToLower(languageCode);
      !(code in repo.items || ShortLanguageCodeFromLong(code) in repo.items) ==> r.languageCode == defaultLanguage
    ensures r.shortLanguageCode == ShortLanguageCodeFromLong(r.languageCode)
  {
    var code := ToLower(languageCode);
    var shortCode := ShortLanguageCodeFromLong(code);
    var chosen := if code !in repo.items && shortCode !in repo.items then defaultLanguage else code;
    LanguageChoice(chosen, ShortLanguageCodeFromLong(chosen))
  }

  /** A chosen language is the requested one in lower case, or the default. */
  lemma ParsedLanguageIsLowerOrDefault(repo: Languages, defaultLanguage: string, languageCode: string)
    ensures var r := ParseLanguageCode(repo, defaultLanguage, languageCode);
      (IsLower(r.languageCode) && r.languageCode == ToLower(languageCode)) || r.languageCode == defaultLanguage
    ensures '-' !in ParseLanguageCode(repo, defaultLanguage, languageCode).shortLanguageCode
  {
    ToLowerIdempotent(languageCode);
  }

  /** `repository[languageCode]?.[resourceKey]`, without lower-casing. */
  function LookupTemplate(repo: Languages, languageCode: string, resourceKey: string): (r: Option<Template>)
    ensures r.Some? <==> languageCode in repo.items && resourceKey in repo.items[languageCode].items
    ensures r.Some? ==> r.value == repo.items[languageCode].items[resourceKey]
  {
    match Get(repo, languageCode)
    case None => None
    case Some(entry) => Get(entry, resourceKey)
  }

  /** The languages the key-level fallback tries, in order: the current
      code, its short form, and the default language when
      `defaultLanguageOnMissing` is set. */
  function Candidates(config: Config, languageCode: string, shortLanguageCode: string): seq<string> {
    [languageCode, shortLanguageCode] + if config.defaultLanguageOnMissing then [config.defaultLanguage] else []
  }

  /** The template for `resourceKey` in the first of `languages` that has one. */
  function FirstTemplate(repo: Languages, languages: seq<string>, resourceKey: string): Option<Template> {
    if languages == [] then None
    else
      match LookupTemplate(repo, languages[0], resourceKey)
      case Some(t) => Some(t)
      case None => FirstTemplate(repo, languages[1..], resourceKey)
  }

  /** `FirstTemplate` finds a template exactly when some language has one,
      and what it finds belongs to the earliest such language. */
  lemma {:induction false} FirstTemplateSpec(repo: Languages, languages: seq<string>, resourceKey: string)
    ensures FirstTemplate(repo, languages, resourceKey).None? <==>
      forall i :: 0 <= i < |languages| ==> LookupTemplate(repo, languages[i], resourceKey).None?
    ensures FirstTemplate(repo, languages, resourceKey).Some? ==>
      exists i :: 0 <= i < |languages|
        && LookupTemplate(repo, languages[i], resourceKey) == FirstTemplate(repo, languages, resourceKey)
        && forall j :: 0 <= j < i ==> LookupTemplate(repo, languages[j], resourceKey).None?
  {
    if languages != [] {
      FirstTemplateSpec(repo, languages[1..], resourceKey);
      if LookupTemplate(repo, languages[0], resourceKey).None? {
        if FirstTemplate(repo, languages, resourceKey).Some? {
          var i :| 0 <= i < |languages[1..]|
            && LookupTemplate(repo, languages[1..][i], resourceKey) == FirstTemplate(repo, languages[1..], resourceKey)
            && forall j :: 0 <= j < i ==> LookupTemplate(repo, languages[1..][j], resourceKey).None?;
          assert LookupTemplate(repo, languages[i + 1], resourceKey) == FirstTemplate(repo, languages, resourceKey);
          assert forall j :: 0 <= j < i + 1 ==> LookupTemplate(repo, languages[j], resourceKey).None? by {
            forall j | 0 <= j < i + 1 ensures LookupTemplate(repo, languages[j], resourceKey).None? {
              if j > 0 { assert languages[j] == languages[1..][j - 1]; }
            }
          }
        }
        assert (forall i :: 0 <= i < |languages| ==> LookupTemplate(repo, languages[i], resourceKey).None?) <==>
          (forall i :: 0 <= i < |languages[1..]| ==> LookupTemplate(repo, languages[1..][i], resourceKey).None?) by {
          if forall i :: 0 <= i < |languages[1..]| ==> LookupTemplate(repo, languages[1..][i], resourceKey).None? {
            forall i | 0 <= i < |languages| ensures LookupTemplate(repo, languages[i], resourceKey).None? {
              if i > 0 { assert languages[i] == languages[1..][i - 1]; }
            }
          }
        }
      }
    }
  }

  /** The whole key-level fallback: the first candidate language that has
      the key, else (with `allowMissing`) a placeholder rendering the key
      itself, else nothing. */
  function ResolveTemplate(repo: Languages, config: Config, languageCode: string, shortLanguageCode: string, resourceKey: string): Option<Template> {
    match FirstTemplate(repo, Candidates(config, languageCode, shortLanguageCode), resourceKey)
    case Some(t) => Some(t)
    case None => if config.allowMissing then Some(Const(resourceKey)) else None
  }

  /** The fallback written as the source writes it, one reassignment of
      `template` after the other, agrees with the first-candidate reading. */
  lemma ResolveStepByStep(repo: Languages, config: Config, languageCode: string, shortLanguageCode: string, resourceKey: string)
    ensures ResolveTemplate(repo, config, languageCode, shortLanguageCode, resourceKey) ==
      var exact := LookupTemplate(repo, languageCode, resourceKey);
      var short := if exact.Some? then exact else LookupTemplate(repo, shortLanguageCode, resourceKey);
      var default := if short.None? && config.defaultLanguageOnMissing then LookupTemplate(repo, config.defaultLanguage, resourceKey) else short;
      if default.None? && config.allowMissing then Some(Const(resourceKey)) else default
  {
    var cands := Candidates(config, languageCode, shortLanguageCode);
    var rest := if config.defaultLanguageOnMissing then [config.defaultLanguage] else [];
    assert cands == [languageCode] + ([shortLanguageCode] + rest);
    assert cands[1..] == [shortLanguageCode] + rest;
    assert cands[1..][1..] == rest;
    var exact := LookupTemplate(repo, languageCode, resourceKey);
    var short := LookupTemplate(repo, shortLanguageCode, resourceKey);
    assert FirstTemplate(repo, cands, resourceKey) == if exact.Some? then exact else FirstTemplate(repo, cands[1..], resourceKey);
    assert FirstTemplate(repo, cands[1..], resourceKey) == if short.Some? then short else FirstTemplate(repo, rest, resourceKey);
    if config.defaultLanguageOnMissing {
      assert rest[1..] == [];
      assert FirstTemplate(repo, rest, resourceKey) == LookupTemplate(repo, config.defaultLanguage, resourceKey);
    }
  }

  /** The two errors `t` throws, each naming the current language and the key. */
  datatype I18nError = NotFound(languageCode: string, resourceKey: string) | CompileError(languageCode: string, resourceKey: string)

  /** The error message text: the code and the key after a fixed prefix,
      then the kind of error. The last character tells the kinds apart. */
  function Message(e: I18nError): (r: string)
    ensures |r| > |MessagePrefix| + |e.languageCode| + |e.resourceKey|
    ensures r[..|MessagePrefix|] == MessagePrefix
    ensures r[|r| - 1] == '.' <==> e.CompileError?
  {
    var suffix := if e.NotFound? then NotFoundSuffix else CompileErrorSuffix;
    assert NotFoundSuffix[|NotFoundSuffix| - 1] == 'd';
    assert CompileErrorSuffix[|CompileErrorSuffix| - 1] == '.';
    MessagePrefix + e.languageCode + "." + e.resourceKey + suffix
  }

  const MessagePrefix := "telegraf-i18n: '"
  const NotFoundSuffix := "' not found"
  const CompileErrorSuffix := "' compile error."

  /** Under one language code, two errors of the same kind have the same
      message exactly when they are about the same key. */
  lemma MessageNamesKey(e1: I18nError, e2: I18nError)
    requires e1.languageCode == e2.languageCode
    requires e1.NotFound? == e2.NotFound?
    ensures Message(e1) == Message(e2) <==> e1.resourceKey == e2.resourceKey
  {
    if Message(e1) == Message(e2) {
      var start := |MessagePrefix| + |e1.languageCode| + 1;
      var suffix := if e1.NotFound? then NotFoundSuffix else CompileErrorSuffix;
      var head := MessagePrefix + e1.languageCode + ".";
      assert |head| == start;
      assert Message(e1) == head + e1.resourceKey + suffix;
      assert Message(e2) == head + e2.resourceKey + suffix;
      assert |e1.resourceKey| == |e2.resourceKey|;
      assert Message(e1)[start..start + |e1.resourceKey|] == e1.resourceKey;
      assert Message(e2)[start..start + |e2.resourceKey|] == e2.resourceKey;
    }
  }

  /** `{...ambient, ...call}`: call-site values win on a key collision. */
  function MergeData(ambient: TemplateData, call: Option<TemplateData>): (r: TemplateData)
    ensures r.Keys == ambient.Keys + call.GetOr(map[]).Keys
    ensures forall k :: k in call.GetOr(map[]) ==> r[k] == call.value[k]
    ensures forall k :: k in ambient && k !in call.GetOr(map[]) ==> r[k] == ambient[k]
  {
    ambient + call.GetOr(map[])
  }

  /** What `t(resourceKey, templateData)` returns or throws. */
  function Translate(repo: Languages, config: Config, languageCode: string, shortLanguageCode: string,
                     resourceKey: string, ambient: TemplateData, call: Option<TemplateData>,
                     compiled: Evaluator): Result<string, I18nError>
  {
    match ResolveTemplate(repo, config, languageCode, shortLanguageCode, resourceKey)
    case None => Failure(NotFound(languageCode, resourceKey))
    case Some(t) =>
      match Evaluate(t, MergeData(ambient, call), compiled)
      case Rendered(text) => Success(text)
      case Threw => Failure(CompileError(languageCode, resourceKey))
  }

  /** A constant template renders its text, whatever data is passed and
      however compiled templates behave. */
  lemma ConstantTemplateRendersText(repo: Languages, config: Config, languageCode: string, shortLanguageCode: string,
                                    resourceKey: string, ambient: TemplateData, call: Option<TemplateData>,
                                    compiled: Evaluator, text: string)
    requires LookupTemplate(repo, languageCode, resourceKey) == Some(Const(text))
    ensures Translate(repo, config, languageCode, shortLanguageCode, resourceKey, ambient, call, compiled) == Success(text)
  {
    ResolveStepByStep(repo, config, languageCode, shortLanguageCode, resourceKey);
  }

  /** A key missing under the current code and its short form but present
      under the default language is taken from the default language when
      `defaultLanguageOnMissing` is set; with both flags off it is an error. */
  lemma DefaultLanguageFallback(repo: Languages, config: Config, languageCode: string, shortLanguageCode: string,
                                resourceKey: string, ambient: TemplateData, call: Option<TemplateData>, compiled: Evaluator)
    requires LookupTemplate(repo, languageCode, resourceKey).None?
    requires LookupTemplate(repo, shortLanguageCode, resourceKey).None?
    requires LookupTemplate(repo, config.defaultLanguage, resourceKey).Some?
    ensures config.defaultLanguageOnMissing ==>
      ResolveTemplate(repo, config, languageCode, shortLanguageCode, resourceKey)
        == LookupTemplate(repo, config.defaultLanguage, resourceKey)
    ensures !config.defaultLanguageOnMissing && !config.allowMissing ==>
      Translate(repo, config, languageCode, shortLanguageCode, resourceKey, ambient, call, compiled)
        == Failure(NotFound(languageCode, resourceKey))
  {
    ResolveStepByStep(repo, config, languageCode, shortLanguageCode, resourceKey);
  }

  /** `t` fails with "not found" exactly when `allowMissing` is off and no
      candidate language has the key; with `allowMissing` on, a key found
      nowhere renders as the key itself. */
  lemma NotFoundExactly(repo: Languages, config: Config, languageCode: string, shortLanguageCode: string,
                        resourceKey: string, ambient: TemplateData, call: Option<TemplateData>, compiled: Evaluator)
    ensures var cands := Candidates(config, languageCode, shortLanguageCode);
      Translate(repo, config, languageCode, shortLanguageCode, resourceKey, ambient, call, compiled).Failure?
      && Translate(repo, config, languageCode, shortLanguageCode, resourceKey, ambient, call, compiled).error.NotFound?
      <==> !config.allowMissing && forall i :: 0 <= i < |cands| ==> LookupTemplate(repo, cands[i], resourceKey).None?
    ensures var cands := Candidates(config, languageCode, shortLanguageCode);
      (config.allowMissing && forall i :: 0 <= i < |cands| ==> LookupTemplate(repo, cands[i], resourceKey).None?) ==>
      Translate(repo, config, languageCode, shortLanguageCode, resourceKey, ambient, call, compiled) == Success(resourceKey)
  {
    FirstTemplateSpec(repo, Candidates(config, languageCode, shortLanguageCode), resourceKey);
  }

  /** `t` reports a compile error, naming the current language and the key,
      exactly when the template it resolved throws on the merged data. */
  lemma CompileErrorExactly(repo: Languages, config: Config, languageCode: string, shortLanguageCode: string,
                            resourceKey: string, ambient: TemplateData, call: Option<TemplateData>, compiled: Evaluator)
    ensures var r := Translate(repo, config, languageCode, shortLanguageCode, resourceKey, ambient, call, compiled);
      var t := ResolveTemplate(repo, config, languageCode, shortLanguageCode, resourceKey);
      (r.Failure? && r.error == CompileError(languageCode, resourceKey)) <==>
        (t.Some? && t.value.Compiled? && compiled(t.value.source, MergeData(ambient, call)) == Threw)
  {
  }

  /** Whatever `t` throws, its message starts with the prefix, the current
      language code and the key, and tells by its last character whether
      the key was missing or its template threw. */
  lemma FailureMessage(repo: Languages, config: Config, languageCode: string, shortLanguageCode: string,
                       resourceKey: string, ambient: TemplateData, call: Option<TemplateData>, compiled: Evaluator)
    ensures var r := Translate(repo, config, languageCode, shortLanguageCode, resourceKey, ambient, call, compiled);
      var head := MessagePrefix + languageCode + "." + resourceKey;
      r.Failure? ==>
        |Message(r.error)| > |head| && Message(r.error)[..|head|] == head
        && (Message(r.error)[|Message(r.error)| - 1] == '.' <==> r.error.CompileError?)
  {
    var r := Translate(repo, config, languageCode, shortLanguageCode, resourceKey, ambient, call, compiled);
    if r.Failure? {
      var head := MessagePrefix + languageCode + "." + resourceKey;
      var suffix := if r.error.NotFound? then NotFoundSuffix else CompileErrorSuffix;
      assert r.error.languageCode == languageCode && r.error.resourceKey == resourceKey;
      assert Message(r.error) == head + suffix;
    }
  }

  /** `en-US` lower-cases to `en-us`, whose short form is `en`. */
  lemma RegionCodeLowered()
    ensures ToLower("en-US") == "en-us"
    ensures ShortLanguageCodeFromLong("en-us") == "en"
  {
    assert ToLower("en-US")[3] == 'u' && ToLower("en-US")[4] == 's';
  }

  /** Requesting `en-US` when only `en` is loaded keeps `en-us` as the
      current code and finds the key through the short form `en`. */
  lemma ShortFormFallbackExample(compiled: Evaluator)
    ensures var repo := Dict(["en"], map["en" := Dict(["greeting"], map["greeting" := Const("Hello")])]);
      var config := Config(false, "en", false, None, "session", map[], false);
      var choice := ParseLanguageCode(repo, "en", "en-US");
      choice == LanguageChoice("en-us", "en")
      && Translate(repo, config, choice.languageCode, choice.shortLanguageCode, "greeting", map[], None, compiled) == Success("Hello")
  {
    var repo := Dict(["en"], map["en" := Dict(["greeting"], map["greeting" := Const("Hello")])]);
    var config := Config(false, "en", false, None, "session", map[], false);
    RegionCodeLowered();
    ConstantTemplateRendersText(repo, config, "en", "en", "greeting", map[], None, compiled, "Hello");
    ResolveStepByStep(repo, config, "en-us", "en", "greeting");
  }

  /** Requesting `fr` when neither `fr` nor `f` is loaded switches the
      current language to the default `en` before any key is looked up. */
  lemma DefaultLanguageSubstitutionExample()
    ensures var repo := Dict(["en"], map["en" := Empty<Template>()]);
      ParseLanguageCode(repo, "en", "fr") == LanguageChoice("en", "en")
  {
    assert ToLower("fr") == "fr";
    assert ShortLanguageCodeFromLong("fr") == "fr";
    assert ShortLanguageCodeFromLong("en") == "en";
  }

  class I18nContext {
    const config: Config
    const repository: Repository
    const templateData: TemplateData
    var languageCode: string
    var shortLanguageCode: string

    /** Captures the shared repository, merges the configured template data
        under the given one, and chooses the language. */
    constructor (repository: Repository, config: Config, languageCode: string, templateData: TemplateData)
      ensures this.repository == repository && this.config == config
      ensures this.templateData == MergeData(config.templateData, Some(templateData))
      ensures LanguageChoice(this.languageCode, this.shortLanguageCode)
        == ParseLanguageCode(repository.languages, config.defaultLanguage, languageCode)
    {
      this.repository := repository;
      this.config := config;
      this.templateData := config.templateData + templateData;
      var result := ParseLanguageCode(repository.languages, config.defaultLanguage, languageCode);
      this.languageCode := result.languageCode;
      this.shortLanguageCode := result.shortLanguageCode;
    }

    /** `this.repository[languageCode]?.[resourceKey]` */
    function GetTemplate(languageCode: string, resourceKey: string): (r: Option<Template>)
      reads repository
      ensures r.Some? <==> languageCode in repository.languages.items && resourceKey in repository.languages.items[languageCode].items
      ensures r.Some? ==> r.value == repository.languages.items[languageCode].items[resourceKey]
    {
      LookupTemplate(repository.languages, languageCode, resourceKey)
    }

    /** `locale()` (or `locale('')`) answers the current language and changes
        nothing; `locale(code)` chooses the language again against the
        repository as it is now. */
    method Locale(code: Option<string>) returns (current: Option<string>)
      modifies this
      ensures code.None? || code.value == "" ==>
        current == Some(old(languageCode)) && languageCode == old(languageCode) && shortLanguageCode == old(shortLanguageCode)
      ensures code.Some? && code.value != "" ==>
        current.None? && LanguageChoice(languageCode, shortLanguageCode)
          == ParseLanguageCode(repository.languages, config.defaultLanguage, code.value)
    {
      if code.None? || code.value == "" {
        return Some(languageCode);
      }
      var result := ParseLanguageCode(repository.languages, config.defaultLanguage, code.value);
      languageCode := result.languageCode;
      shortLanguageCode := result.shortLanguageCode;
      current := None;
    }

    /** `t(resourceKey, templateData)`: tries the current code, its short
        form, the default language (with `defaultLanguageOnMissing`), then
        the placeholder (with `allowMissing`); renders with the merged data.
        It changes nothing: neither the context nor the repository. */
    method T(resourceKey: string, data: Option<TemplateData>, compiled: Evaluator) returns (r: Result<string, I18nError>)
      ensures r == Translate(repository.languages, config, languageCode, shortLanguageCode, resourceKey, templateData, data, compiled)
    {
      var template := GetTemplate(languageCode, resourceKey);
      if template.None? {
        template := GetTemplate(shortLanguageCode, resourceKey);
      }
      if template.None? && config.defaultLanguageOnMissing {
        template := GetTemplate(config.defaultLanguage, resourceKey);
      }
      if template.None? && config.allowMissing {
        template := Some(Const(resourceKey));
      }
      ResolveStepByStep(repository.languages, config, languageCode, shortLanguageCode, resourceKey);
      if template.None? {
        return Failure(NotFound(languageCode, resourceKey));
      }
      var merged := templateData + data.GetOr(map[]);
      match Evaluate(template.value, merged, compiled)
      case Rendered(content) => r := Success(content);
      case Threw => r := Failure(CompileError(languageCode, resourceKey));
    }
  }
}
