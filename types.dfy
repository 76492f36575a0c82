/** The shared vocabulary of the library (src/types.ts): template data,
    templates, configuration, and the repository object that the `I18n`
    instance and its rendering contexts share. */
module Types {
  import opened Wrappers
  import opened Dicts

  /** A value passed to a template. Functions are kept by name only: what
      they compute is up to the template evaluator. */
  datatype Value =
    | Text(s: string)
    | Number(n: int)
    | Flag(b: bool)
    | Function(name: string)
    | Record(fields: map<string, Value>)

  /** `TemplateData = Record<string, unknown>` */
  type TemplateData = map<string, Value>

  /** A stored template: either the constant function built for text
      without `${`, or the result of compiling `source`. */
  datatype Template = Const(text: string) | Compiled(source: string)

  /** What invoking a template gives: its text, or an exception. */
  datatype Rendering = Rendered(text: string) | Threw

  /** How a compiled template evaluates its source against the data; the
      template compiler is a foreign library, so this is a parameter. */
  type Evaluator = (string, TemplateData) -> Rendering

  /** `template(data)` */
  function Evaluate(t: Template, data: TemplateData, compiled: Evaluator): (r: Rendering)
    ensures t.Const? ==> r == Rendered(t.text)
    ensures t.Compiled? ==> r == compiled(t.source, data)
  {
    match t
    case Const(text) => Rendered(text)
    case Compiled(source) => compiled(source, data)
  }

  /** `Repository<RepositoryT>`: language code to resource key to template. */
  type Languages = Dict<Dict<Template>>

  /** Every level of a two-level table is a well-formed ordered dictionary. */
  ghost predicate WellFormed<V>(repo: Dict<Dict<V>>) {
    Valid(repo) && forall code :: code in repo.items ==> Valid(repo.items[code])
  }

  /** The repository object. It is shared by reference: contexts created
      from an `I18n` see later in-place changes to it. */
  class Repository {
    var languages: Languages

    constructor ()
      ensures languages == Empty()
    {
      languages := Empty();
    }
  }

  /** `Config` */
  datatype Config = Config(
    allowMissing: bool,
    defaultLanguage: string,
    defaultLanguageOnMissing: bool,
    directory: Option<string>,
    sessionName: string,
    templateData: TemplateData,
    useSession: bool)
}
