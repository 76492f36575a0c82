/** The older declaration generator of src/TypesGenerator.ts: a
    `TypesGenerator` that keeps the raw flattened strings per language, its
    own parameter analysis (a list, no global filtering, and a crash on an
    argument without a name or an object), and the `ResourceKey` and
    `ResourceParams` declarations. */
module LegacyGenerator {
  import opened Wrappers
  import opened Strings
  import opened Dicts
  import opened Types
  import opened Estree
  import opened I18nCore
  import opened GenerateTypes

  const AllValueTypes := "string | number | " + ObjectValueType

  /** What the older `parseTemplateParams` throws: the parser's syntax
      error, or the TypeError of reading `name` of the `object` of a call
      argument that has neither. */
  datatype LegacyError = SyntaxError(template: string) | ArgumentWithoutObject

  /** A call argument the older analyzer cannot name: no truthy `name`
      and no `object`. */
  predicate Unnamed(argument: Node) {
    !Truthy(NameOf(argument)) && !argument.Member?
  }

  /** A call expression one of whose arguments the older analyzer cannot name. */
  predicate Crashes(n: Node) {
    n.Call? && exists a :: a in n.arguments && Unnamed(a)
  }

  /** The entry of one call argument: its own name when truthy, else the
      name of its object. */
  function LegacyArgumentParam(argument: Node): (r: Result<seq<Param>, LegacyError>)
    ensures r.Failure? <==> Unnamed(argument)
    ensures r.Success? ==> |r.value| == 1 && r.value[0].valueType == AllValueTypes
    ensures r.Success? ==> r.value[0].name == if Truthy(NameOf(argument)) then NameOf(argument) else NameOf(argument.obj)
  {
    if Truthy(NameOf(argument)) then Success([Param(NameOf(argument), AllValueTypes)])
    else if argument.Member? then Success([Param(NameOf(argument.obj), AllValueTypes)])
    else Failure(ArgumentWithoutObject)
  }

  function LegacyArgumentParams(args: seq<Node>): Result<seq<Param>, LegacyError> {
    if args == [] then Success([])
    else Then(LegacyArgumentParam(args[0]), LegacyArgumentParams(args[1..]))
  }

  /** The entries the `enter` callback pushes for one node. */
  function LegacyNodeParams(n: Node): Result<seq<Param>, LegacyError> {
    match n
    case Identifier(name) => Success([Param(Some(name), AllValueTypes)])
    case Member(o, _) => Success([Param(NameOf(o), ObjectValueType)])
    case Call(callee, args) => Then(LegacyArgumentParams(args), Success([Param(NameOf(callee), FunctionType)]))
    case _ => Success([])
  }

  /** The entries for the visited nodes, in order; the first crash aborts. */
  function LegacyParamsOf(nodes: seq<Node>): Result<seq<Param>, LegacyError> {
    if nodes == [] then Success([])
    else Then(LegacyNodeParams(nodes[0]), LegacyParamsOf(nodes[1..]))
  }

  /** What the older `parseTemplateParams(template)` returns or throws: the
      raw template goes to the parser, without backticks around it. */
  function LegacyTemplateParams(template: string, parse: Parser): Result<seq<string>, LegacyError> {
    match parse(template)
    case None => Failure(SyntaxError(template))
    case Some(tree) =>
      match LegacyParamsOf(Visited(tree))
      case Failure(e) => Failure(e)
      case Success(params) => Success(Lines(params))
  }

  lemma {:induction false} LegacyParamsConcat(a: seq<Node>, b: seq<Node>)
    ensures LegacyParamsOf(a + b) == Then(LegacyParamsOf(a), LegacyParamsOf(b))
  {
    if a == [] {
      assert a + b == b;
      ThenUnit(LegacyParamsOf(b));
    } else {
      assert (a + b)[0] == a[0] && (a + b)[1..] == a[1..] + b;
      LegacyParamsConcat(a[1..], b);
      ThenAssociative(LegacyNodeParams(a[0]), LegacyParamsOf(a[1..]), LegacyParamsOf(b));
    }
  }

  /** The number of entries a node yields: one for an identifier or a
      member expression, one per argument plus one for a call. */
  function EntryCount(n: Node): nat {
    match n
    case Identifier(_) => 1
    case Member(_, _) => 1
    case Call(_, args) => |args| + 1
    case _ => 0
  }

  function EntryCountList(nodes: seq<Node>): nat {
    if nodes == [] then 0 else EntryCount(nodes[0]) + EntryCountList(nodes[1..])
  }

  lemma {:induction false} LegacyArgumentCount(args: seq<Node>)
    ensures LegacyArgumentParams(args).Success? ==> |LegacyArgumentParams(args).value| == |args|
  {
    if args != [] {
      LegacyArgumentCount(args[1..]);
    }
  }

  /** Nothing is merged or filtered: every identifier, member expression,
      call argument and callee visited yields an entry of its own. */
  lemma {:induction false} LegacyKeepsEveryEntry(nodes: seq<Node>)
    ensures LegacyParamsOf(nodes).Success? ==> |LegacyParamsOf(nodes).value| == EntryCountList(nodes)
  {
    if nodes != [] {
      LegacyKeepsEveryEntry(nodes[1..]);
      if nodes[0].Call? {
        LegacyArgumentCount(nodes[0].arguments);
      }
    }
  }

  lemma {:induction false} LegacyArgumentsFail(args: seq<Node>)
    ensures LegacyArgumentParams(args).Failure? <==> exists a :: a in args && Unnamed(a)
  {
    if args != [] {
      LegacyArgumentsFail(args[1..]);
      assert forall a :: a in args <==> a == args[0] || a in args[1..];
    }
  }

  /** The analysis throws exactly when a visited call has an argument it
      cannot name. */
  lemma {:induction false} LegacyFailsIff(nodes: seq<Node>)
    ensures LegacyParamsOf(nodes).Failure? <==> exists n :: n in nodes && Crashes(n)
  {
    if nodes != [] {
      LegacyFailsIff(nodes[1..]);
      if nodes[0].Call? {
        LegacyArgumentsFail(nodes[0].arguments);
      }
      assert LegacyNodeParams(nodes[0]).Failure? <==> Crashes(nodes[0]);
      assert forall n :: n in nodes <==> n == nodes[0] || n in nodes[1..];
    }
  }

  /** The `args.forEach` loop of a call: one entry per argument, or the
      throw on the first argument with neither a name nor an object. */
  method LegacyArgumentEntries(output: seq<string>, args: seq<Node>) returns (r: Result<seq<string>, LegacyError>)
    ensures r == match LegacyArgumentParams(args)
      case Failure(e) => Failure(e)
      case Success(params) => Success(output + Lines(params))
  {
    var entries := output;
    for j := 0 to |args|
      invariant LegacyArgumentParams(args[..j]).Success?
      invariant entries == output + Lines(LegacyArgumentParams(args[..j]).value)
    {
      var argument := args[j];
      assert args[..j + 1] == args[..j] + [argument];
      LegacyArgumentsSnoc(args[..j], argument);
      var argumentName := if Truthy(NameOf(argument)) then NameOf(argument)
        else if argument.Member? then NameOf(argument.obj) else None;
      if argumentName.None? && !argument.Member? {
        LegacyArgumentsAbort(args, j + 1);
        return Failure(ArgumentWithoutObject);
      }
      LinesConcat(LegacyArgumentParams(args[..j]).value, [Param(argumentName, AllValueTypes)]);
      assert Lines([Param(argumentName, AllValueTypes)]) == ["    " + PrintName(argumentName) + ": " + AllValueTypes];
      entries := entries + ["    " + PrintName(argumentName) + ": " + AllValueTypes];
    }
    assert args[..|args|] == args;
    r := Success(entries);
  }

  /** The `enter` callback outside a skipped subtree. */
  method LegacyEnterNode(output: seq<string>, node: Node)
    returns (r: Result<seq<string>, LegacyError>, skipNode: Option<Node>)
    ensures r == match LegacyNodeParams(node)
      case Failure(e) => Failure(e)
      case Success(params) => Success(output + Lines(params))
    ensures skipNode == Step(None, Enter(node)).skip
  {
    skipNode := None;
    match node {
      case Identifier(name) =>
        assert Lines([Param(Some(name), AllValueTypes)]) == ["    " + name + ": " + AllValueTypes];
        r := Success(output + ["    " + name + ": " + AllValueTypes]);
        assert r == Success(output + Lines(LegacyNodeParams(node).value));
      case Member(o, _) =>
        skipNode := Some(node);
        assert Lines([Param(NameOf(o), ObjectValueType)]) == ["    " + PrintName(NameOf(o)) + ": " + ObjectValueType];
        r := Success(output + ["    " + PrintName(NameOf(o)) + ": " + ObjectValueType]);
        assert r == Success(output + Lines(LegacyNodeParams(node).value));
      case Call(callee, args) =>
        skipNode := Some(node);
        var argumentEntries := LegacyArgumentEntries(output, args);
        if argumentEntries.Failure? {
          return Failure(argumentEntries.error), skipNode;
        }
        LegacyCallLines(output, callee, args);
        r := Success(argumentEntries.value + ["    " + PrintName(NameOf(callee)) + ": " + FunctionType]);
      case _ =>
        assert LegacyNodeParams(node) == Success([]);
        assert output + Lines([]) == output;
        r := Success(output);
    }
  }

  /** A call whose arguments all have entries gets those entries, then
      the callee's. */
  lemma LegacyCallLines(output: seq<string>, callee: Node, args: seq<Node>)
    requires LegacyArgumentParams(args).Success?
    ensures LegacyNodeParams(Call(callee, args)).Success?
    ensures output + Lines(LegacyNodeParams(Call(callee, args)).value)
      == output + Lines(LegacyArgumentParams(args).value) + ["    " + PrintName(NameOf(callee)) + ": " + FunctionType]
  {
    var argumentParams := LegacyArgumentParams(args).value;
    var calleeParam := Param(NameOf(callee), FunctionType);
    assert LegacyNodeParams(Call(callee, args)).value == argumentParams + [calleeParam];
    LinesConcat(argumentParams, [calleeParam]);
    assert Lines([calleeParam]) == [Line(calleeParam)];
    assert output + (Lines(argumentParams) + [Line(calleeParam)]) == output + Lines(argumentParams) + [Line(calleeParam)];
  }

  lemma {:induction false} LegacyArgumentsSnoc(args: seq<Node>, a: Node)
    ensures LegacyArgumentParams(args + [a]) == Then(LegacyArgumentParams(args), LegacyArgumentParam(a))
  {
    if args == [] {
      assert [a][1..] == [];
      ThenUnit(LegacyArgumentParam(a));
    } else {
      assert (args + [a])[0] == args[0] && (args + [a])[1..] == args[1..] + [a];
      LegacyArgumentsSnoc(args[1..], a);
      ThenAssociative(LegacyArgumentParam(args[0]), LegacyArgumentParams(args[1..]), LegacyArgumentParam(a));
    }
  }

  lemma {:induction false} LegacyArgumentsConcat(a: seq<Node>, b: seq<Node>)
    ensures LegacyArgumentParams(a + b) == Then(LegacyArgumentParams(a), LegacyArgumentParams(b))
  {
    if a == [] {
      assert a + b == b;
      ThenUnit(LegacyArgumentParams(b));
    } else {
      assert (a + b)[0] == a[0] && (a + b)[1..] == a[1..] + b;
      LegacyArgumentsConcat(a[1..], b);
      ThenAssociative(LegacyArgumentParam(a[0]), LegacyArgumentParams(a[1..]), LegacyArgumentParams(b));
    }
  }

  /** A failing prefix of the arguments fails the whole call. */
  lemma LegacyArgumentsAbort(args: seq<Node>, i: nat)
    requires i <= |args|
    requires LegacyArgumentParams(args[..i]).Failure?
    ensures LegacyArgumentParams(args) == LegacyArgumentParams(args[..i])
  {
    assert args[..i] + args[i..] == args;
    LegacyArgumentsConcat(args[..i], args[i..]);
  }

  /** The entries a walk has pushed, one callback further on. */
  lemma LegacyWalkStep(events: seq<Event>, i: nat)
    requires i < |events|
    ensures var before := Run(None, events[..i]);
      var step := Step(before.skip, events[i]);
      && Run(None, events[..i + 1]).skip == step.skip
      && LegacyParamsOf(Run(None, events[..i + 1]).entered)
         == Then(LegacyParamsOf(before.entered), LegacyParamsOf(step.entered))
  {
    var before := Run(None, events[..i]);
    var step := Step(before.skip, events[i]);
    assert events[..i + 1] == events[..i] + [events[i]];
    RunSnoc(None, events[..i], events[i]);
    LegacyParamsConcat(before.entered, step.entered);
  }

  /** Once the entries walked so far fail, the rest of the walk changes nothing. */
  lemma LegacyWalkAbort(tree: Node, i: nat)
    requires i <= |Events(tree)|
    requires LegacyParamsOf(Run(None, Events(tree)[..i]).entered).Failure?
    ensures LegacyParamsOf(Visited(tree)) == LegacyParamsOf(Run(None, Events(tree)[..i]).entered)
  {
    LegacyRunAbort(Events(tree), i);
    WalkVisits(tree);
  }

  /** The same for any sequence of callbacks. */
  lemma LegacyRunAbort(events: seq<Event>, i: nat)
    requires i <= |events|
    requires LegacyParamsOf(Run(None, events[..i]).entered).Failure?
    ensures LegacyParamsOf(Run(None, events).entered) == LegacyParamsOf(Run(None, events[..i]).entered)
  {
    var first, rest := events[..i], events[i..];
    var prefix := Run(None, first);
    var suffix := Run(prefix.skip, rest);
    RunConcat(None, first, rest);
    assert first + rest == events;
    LegacyParamsConcat(prefix.entered, suffix.entered);
    assert LegacyParamsOf(prefix.entered + suffix.entered) == LegacyParamsOf(prefix.entered);
  }

  /** The older `parseTemplateParams(template)`: parses the raw template and
      walks it with the `skipNode` rule, pushing onto a list. */
  method LegacyParseTemplateParams(template: string, parse: Parser)
    returns (r: Result<seq<string>, LegacyError>)
    ensures r == LegacyTemplateParams(template, parse)
  {
    var parsed := parse(template);
    if parsed.None? {
      return Failure(SyntaxError(template));
    }
    var tree := parsed.value;
    var events := Events(tree);
    var output: seq<string> := [];
    var skipNode: Option<Node> := None;
    for i := 0 to |events|
      invariant skipNode == Run(None, events[..i]).skip
      invariant LegacyParamsOf(Run(None, events[..i]).entered).Success?
      invariant output == Lines(LegacyParamsOf(Run(None, events[..i]).entered).value)
    {
      LegacyWalkStep(events, i);
      ghost var before := LegacyParamsOf(Run(None, events[..i]).entered);
      match events[i] {
        case Enter(node) =>
          if skipNode.None? {
            assert [node][1..] == [];
            ThenUnit(LegacyNodeParams(node));
            assert LegacyParamsOf([node]) == LegacyNodeParams(node);
            var entered;
            entered, skipNode := LegacyEnterNode(output, node);
            if entered.Failure? {
              LegacyWalkAbort(tree, i + 1);
              return Failure(entered.error);
            }
            LinesConcat(before.value, LegacyNodeParams(node).value);
            output := entered.value;
          } else {
            ThenUnit(before);
          }
        case Leave(node) =>
          ThenUnit(before);
          if skipNode == Some(node) {
            skipNode := None;
          }
      }
    }
    assert events[..|events|] == events;
    WalkVisits(tree);
    r := Success(output);
  }

  /** The block of one key: its entries, or `never`; the key is not quoted. */
  function LegacyBlock(resourceKey: string, entries: seq<string>): string {
    if entries != [] then "  " + resourceKey + ": {" + "\n" + Join(entries, "\n") + "\n" + "  }"
    else "  " + resourceKey + ": never"
  }

  /** As in the newer generator, a block is one line without entries, or
      the key's opening line, one line per entry, and the closing line. */
  lemma LegacyBlockLayout(resourceKey: string, entries: seq<string>)
    requires '\n' !in resourceKey
    requires forall i :: 0 <= i < |entries| ==> '\n' !in entries[i]
    ensures entries != [] ==> SplitLines(LegacyBlock(resourceKey, entries)) == ["  " + resourceKey + ": {"] + entries + ["  }"]
    ensures entries == [] ==> SplitLines(LegacyBlock(resourceKey, entries)) == ["  " + resourceKey + ": never"]
  {
    if entries != [] {
      SplitFramed("  " + resourceKey + ": {", Join(entries, "\n"), "  }");
      SplitJoinedLines(entries);
    } else {
      SplitLinesSingle("  " + resourceKey + ": never");
    }
  }

  /** `templates[defaultLanguage]?.[resourceKey] ?? null` */
  function Lookup(templates: map<string, string>, resourceKey: string): (r: Option<string>)
    ensures r.Some? <==> resourceKey in templates
    ensures r.Some? ==> r.value == templates[resourceKey]
  {
    if resourceKey in templates then Some(templates[resourceKey]) else None
  }

  /** What one key contributes: nothing for a missing or empty template,
      else its block, or what the analysis throws. */
  function LegacyKeyBlock(resourceKey: string, template: Option<string>, parse: Parser): Result<seq<string>, LegacyError> {
    if template.None? || template.value == "" then Success([])
    else match LegacyTemplateParams(template.value, parse)
      case Failure(e) => Failure(e)
      case Success(entries) => Success([LegacyBlock(resourceKey, entries)])
  }

  /** The blocks for `keys` in order; the first template that throws aborts. */
  function LegacyBlocks(templates: map<string, string>, keys: seq<string>, parse: Parser): Result<seq<string>, LegacyError> {
    if keys == [] then Success([])
    else Then(LegacyKeyBlock(keys[0], Lookup(templates, keys[0]), parse), LegacyBlocks(templates, keys[1..], parse))
  }

  lemma {:induction false} LegacyBlocksConcat(templates: map<string, string>, a: seq<string>, b: seq<string>, parse: Parser)
    ensures LegacyBlocks(templates, a + b, parse) == Then(LegacyBlocks(templates, a, parse), LegacyBlocks(templates, b, parse))
  {
    if a == [] {
      assert a + b == b;
      ThenUnit(LegacyBlocks(templates, b, parse));
    } else {
      assert (a + b)[0] == a[0] && (a + b)[1..] == a[1..] + b;
      LegacyBlocksConcat(templates, a[1..], b, parse);
      ThenAssociative(LegacyKeyBlock(a[0], Lookup(templates, a[0]), parse), LegacyBlocks(templates, a[1..], parse), LegacyBlocks(templates, b, parse));
    }
  }

  /** Keys without a template contribute nothing: with no templates at all
      there are no blocks, whatever the keys. */
  lemma {:induction false} NoTemplatesNoBlocks(templates: map<string, string>, keys: seq<string>, parse: Parser)
    requires forall k :: k in keys ==> k !in templates
    ensures LegacyBlocks(templates, keys, parse) == Success([])
  {
    if keys != [] {
      assert keys[0] in keys;
      assert forall k :: k in keys[1..] ==> k in keys;
      NoTemplatesNoBlocks(templates, keys[1..], parse);
      assert LegacyKeyBlock(keys[0], Lookup(templates, keys[0]), parse) == Success([]);
      ThenUnit<string, LegacyError>(Success([]));
    }
  }

  /** The `ResourceParams` declaration: the blocks joined by the two
      characters backslash and `n`, not by a line break. */
  function ResourceParams(blocks: seq<string>): string {
    ResourceParamsOpening + "\n" + Join(blocks, "\\n") + "\n}"
  }

  const ResourceParamsOpening := "export interface " + "ResourceParams {"



  /** The number of line breaks in `s`. */
  function CountNewlines(s: string): nat {
    multiset(s)['\n']
  }

  function NewlinesIn(blocks: seq<string>): nat {
    if blocks == [] then 0 else CountNewlines(blocks[0]) + NewlinesIn(blocks[1..])
  }

  lemma {:induction false} JoinBackslashN(blocks: seq<string>)
    ensures CountNewlines(Join(blocks, "\\n")) == NewlinesIn(blocks)
  {
    if |blocks| == 1 {
      assert blocks[1..] == [];
    } else if |blocks| > 1 {
      JoinBackslashN(blocks[1..]);
      assert multiset("\\n")['\n'] == 0;
      assert multiset(blocks[0] + "\\n" + Join(blocks[1..], "\\n"))
        == multiset(blocks[0]) + multiset("\\n") + multiset(Join(blocks[1..], "\\n"));
    }
  }

  lemma {:induction false} FramedLineBreaks(before: string, blocks: seq<string>, after: string)
    ensures CountNewlines(before + Join(blocks, "\\n") + after) == CountNewlines(before + after) + NewlinesIn(blocks)
  {
    JoinBackslashN(blocks);
    assert multiset(before + Join(blocks, "\\n") + after) == multiset(before) + multiset(Join(blocks, "\\n")) + multiset(after);
    assert multiset(before + after) == multiset(before) + multiset(after);
  }

  /** The declaration has the line breaks of the empty one plus those of
      its blocks: nothing separates one block from the next by a line break. */
  lemma ResourceParamsLineBreaks(blocks: seq<string>)
    ensures CountNewlines(ResourceParams(blocks)) == CountNewlines(ResourceParams([])) + NewlinesIn(blocks)
  {
    var before := ResourceParamsOpening + "\n";
    var after := "\n}";
    FramedLineBreaks(before, blocks, after);
    FramedLineBreaks(before, [], after);
    assert ResourceParams(blocks) == before + Join(blocks, "\\n") + after;
    assert ResourceParams([]) == before + Join([], "\\n") + after;
  }

  /** The declaration is its opening line, the lines of the blocks joined
      by backslash-`n`, and the closing brace; blocks without line breaks
      all end up on one line. */
  lemma ResourceParamsLayout(blocks: seq<string>)
    ensures SplitLines(ResourceParams(blocks)) == [ResourceParamsOpening] + SplitLines(Join(blocks, "\\n")) + ["}"]
  {
    var head, middle, closing := ResourceParamsOpening + "\n", Join(blocks, "\\n"), "}";
    assert "\n}" == "\n" + closing;
    assert ResourceParams(blocks) == head + middle + ("\n" + closing);
    assert head + middle + ("\n" + closing) == ResourceParamsOpening + "\n" + middle + "\n" + closing;
    ResourceParamsFramed(middle);
  }

  /** Blocks without line breaks of their own all end up on one line. */
  lemma ResourceParamsOneLine(blocks: seq<string>)
    requires forall i :: 0 <= i < |blocks| ==> '\n' !in blocks[i]
    ensures SplitLines(ResourceParams(blocks)) == [ResourceParamsOpening, Join(blocks, "\\n"), "}"]
  {
    var middle := Join(blocks, "\\n");
    assert SplitLines(middle) == [middle] by {
      NoBreakAcrossBackslashN(blocks);
      SplitLinesSingle(middle);
    }
    assert SplitLines(ResourceParams(blocks)) == [ResourceParamsOpening] + SplitLines(middle) + ["}"] by {
      ResourceParamsLayout(blocks);
    }
    LinesJoined(ResourceParamsOpening, middle, "}");
  }

  lemma ResourceParamsFramed(middle: string)
    ensures SplitLines(ResourceParamsOpening + "\n" + middle + "\n" + "}") == [ResourceParamsOpening] + SplitLines(middle) + ["}"]
  {
    var opening, closing := ResourceParamsOpening, "}";
    assert '\n' !in opening && '\n' !in closing;
    SplitFramed(opening, middle, closing);
  }

  lemma {:induction false} NoBreakAcrossBackslashN(blocks: seq<string>)
    requires forall i :: 0 <= i < |blocks| ==> '\n' !in blocks[i]
    ensures '\n' !in Join(blocks, "\\n")
  {
    if |blocks| > 1 {
      NoBreakAcrossBackslashN(blocks[1..]);
      assert '\n' !in "\\n";
    }
  }

  /** ` "key"` */
  function Quote(resourceKey: string): string {
    " \"" + resourceKey + "\""
  }

  function QuoteAll(keys: seq<string>): (r: seq<string>)
    ensures |r| == |keys|
    ensures forall i :: 0 <= i < |keys| ==> r[i] == Quote(keys[i])
  {
    if keys == [] then [] else [Quote(keys[0])] + QuoteAll(keys[1..])
  }

  const ResourceKeyTitle := "export type " + "ResourceKey ="
  const ResourceKeyHead := "\n" + ResourceKeyTitle + "\n"

  /** A line break and `  | ` between two keys. */
  const KeySeparator := "\n" + "  | "

  /** `generateResourceKeyType(resourceKeys)` */
  function ResourceKeyDeclaration(keys: seq<string>): string {
    ResourceKeyHead + Join(QuoteAll(keys), KeySeparator)
  }

  /** The declaration starts with an empty line and the title line; each
      key then has a line of its own, the first as ` "key"`, the others
      after `  | `. */
  lemma ResourceKeyLayout(keys: seq<string>)
    requires forall i :: 0 <= i < |keys| ==> '\n' !in keys[i]
    ensures keys != [] ==> SplitLines(ResourceKeyDeclaration(keys)) == ["", ResourceKeyTitle, Quote(keys[0])] + Prefixed("  | ", QuoteAll(keys)[1..])
    ensures keys == [] ==> SplitLines(ResourceKeyDeclaration(keys)) == ["", ResourceKeyTitle, ""]
  {
    var lines := SplitLines(Join(QuoteAll(keys), KeySeparator));
    assert SplitLines(ResourceKeyDeclaration(keys)) == ["", ResourceKeyTitle] + lines by {
      ResourceKeyHeadLines(keys);
    }
    if keys != [] {
      var q, p := Quote(keys[0]), Prefixed("  | ", QuoteAll(keys)[1..]);
      assert lines == [q] + p by {
        QuotedKeyLines(keys);
      }
      LinesRegrouped("", ResourceKeyTitle, q, p);
    }
  }

  lemma ResourceKeyHeadLines(keys: seq<string>)
    ensures SplitLines(ResourceKeyDeclaration(keys)) == ["", ResourceKeyTitle] + SplitLines(Join(QuoteAll(keys), KeySeparator))
  {
    var title, joined := ResourceKeyTitle, Join(QuoteAll(keys), KeySeparator);
    assert '\n' !in title;
    assert ResourceKeyDeclaration(keys) == "\n" + title + "\n" + joined;
    SplitLeadingLine(title, joined);
  }

  lemma QuotedKeyLines(keys: seq<string>)
    requires keys != []
    requires forall i :: 0 <= i < |keys| ==> '\n' !in keys[i]
    ensures SplitLines(Join(QuoteAll(keys), KeySeparator)) == [Quote(keys[0])] + Prefixed("  | ", QuoteAll(keys)[1..])
  {
    QuotedKeysOnOneLine(keys);
    SplitJoined(QuoteAll(keys), "  | ");
  }

  lemma QuotedKeysOnOneLine(keys: seq<string>)
    requires forall i :: 0 <= i < |keys| ==> '\n' !in keys[i]
    ensures forall i :: 0 <= i < |keys| ==> '\n' !in QuoteAll(keys)[i]
    ensures '\n' !in "  | "
  {
    forall i | 0 <= i < |keys|
      ensures '\n' !in QuoteAll(keys)[i]
    {
      assert QuoteAll(keys)[i] == " \"" + keys[i] + "\"";
    }
  }

  /** Each key is listed double-quoted, one alternative after the other. */
  lemma ResourceKeyDeclarationSnoc(keys: seq<string>, k: string)
    ensures keys == [] ==> ResourceKeyDeclaration(keys + [k]) == ResourceKeyHead + Quote(k)
    ensures keys != [] ==> ResourceKeyDeclaration(keys + [k]) == ResourceKeyDeclaration(keys) + KeySeparator + Quote(k)
  {
    assert QuoteAll(keys + [k]) == QuoteAll(keys) + [Quote(k)];
    if keys != [] {
      JoinSnoc(QuoteAll(keys), Quote(k), KeySeparator);
    } else {
      assert QuoteAll(keys) + [Quote(k)] == [Quote(k)];
    }
  }

  /** The templates `generateTemplateParams` reads: those stored under the
      default language exactly as configured, not lower-cased. */
  function DefaultTemplates(templates: Dict<Dict<string>>, defaultLanguage: string): map<string, string> {
    if defaultLanguage in templates.items then templates.items[defaultLanguage].items else map[]
  }

  /** Every language is stored under a lower-case code, so a default
      language with an upper-case letter finds no templates: no key gets a
      block, while `ResourceKey` still lists the keys of its lower-cased
      form. */
  lemma MixedCaseDefaultLanguage(templates: Dict<Dict<string>>, defaultLanguage: string, keys: seq<string>, parse: Parser)
    requires forall code :: code in templates.items ==> IsLower(code)
    requires !IsLower(defaultLanguage)
    ensures DefaultTemplates(templates, defaultLanguage) == map[]
    ensures LegacyBlocks(DefaultTemplates(templates, defaultLanguage), keys, parse) == Success([])
    ensures ResourceParams([]) == "export interface ResourceParams {\n\n}"
  {
    NoTemplatesNoBlocks(map[], keys, parse);
  }

  class TypesGenerator {
    /** Language code to resource key to raw template text. */
    var templates: Dict<Dict<string>>
    const config: Config

    /** Both levels are well-formed dictionaries and every language is
        stored under a lower-case code. */
    ghost predicate Valid()
      reads this
    {
      WellFormed(templates) && forall code :: code in templates.items ==> IsLower(code)
    }

    /** `new TypesGenerator(options)` without a `directory`: the defaults
        applied, no templates. */
    constructor (options: PartialConfig)
      ensures Valid()
      ensures config == WithDefaults(options)
      ensures templates == Empty()
    {
      config := WithDefaults(options);
      templates := Empty();
    }

    /** `loadLocale(languageCode, i18nData)`: the flattened strings, not
        compiled, merged into the lower-cased language. */
    method LoadLocale(languageCode: string, i18nData: seq<Field>)
      requires Valid()
      modifies this
      ensures Valid()
      ensures templates == WithLocale(old(templates), languageCode, MapValues(Tableize(i18nData), Stringify))
    {
      var language := ToLower(languageCode);
      var prepared := PrepareI18nData(i18nData);
      var existing := Get(templates, language).GetOr(Empty());
      WithLocaleKeepsLowerCodes(templates, languageCode, prepared);
      templates := Put(templates, language, Merge(existing, prepared));
    }

    /** `resourceKeys(languageCode)`: the keys of the lower-cased language
        in load order, or none. */
    function ResourceKeys(languageCode: string): (r: seq<string>)
      reads this
      ensures ToLower(languageCode) in templates.items ==> r == templates.items[ToLower(languageCode)].keys
      ensures ToLower(languageCode) !in templates.items ==> r == []
    {
      match Get(templates, ToLower(languageCode))
      case Some(entry) => entry.keys
      case None => []
    }

    /** `generateTemplateParams(resourceKeys)`: one block per key whose
        default-language template is present and non-empty, in key order. */
    method GenerateTemplateParams(resourceKeys: seq<string>, parse: Parser)
      returns (r: Result<string, LegacyError>)
      ensures r == match LegacyBlocks(DefaultTemplates(templates, config.defaultLanguage), resourceKeys, parse)
        case Failure(e) => Failure(e)
        case Success(blocks) => Success(ResourceParams(blocks))
    {
      var defaults := DefaultTemplates(templates, config.defaultLanguage);
      var params: seq<string> := [];
      for i := 0 to |resourceKeys|
        invariant LegacyBlocks(defaults, resourceKeys[..i], parse) == Success(params)
      {
        var resourceKey := resourceKeys[i];
        var template := Lookup(defaults, resourceKey);
        assert resourceKeys[..i + 1] == resourceKeys[..i] + [resourceKey];
        LegacyBlocksConcat(defaults, resourceKeys[..i], [resourceKey], parse);
        assert [resourceKey][1..] == [];
        ThenUnit(LegacyKeyBlock(resourceKey, template, parse));
        if template.Some? && template.value != "" {
          var templateParams := LegacyParseTemplateParams(template.value, parse);
          if templateParams.Failure? {
            assert resourceKeys[..i + 1] + resourceKeys[i + 1..] == resourceKeys;
            LegacyBlocksConcat(defaults, resourceKeys[..i + 1], resourceKeys[i + 1..], parse);
            return Failure(templateParams.error);
          }
          if |templateParams.value| > 0 {
            params := params + ["  " + resourceKey + ": {" + "\n" + Join(templateParams.value, "\n") + "\n" + "  }"];
          } else {
            params := params + ["  " + resourceKey + ": never"];
          }
        } else {
          assert params + [] == params;
        }
      }
      assert resourceKeys[..|resourceKeys|] == resourceKeys;
      r := Success(ResourceParamsOpening + "\n" + Join(params, "\\n") + "\n}");
    }

    /** `generateTypes()`: the `ResourceKey` type over the default
        language's keys, a blank line, and the `ResourceParams` interface
        for those same keys, in that order. */
    method GenerateTypes(parse: Parser) returns (r: Result<string, LegacyError>)
      ensures var keys := ResourceKeys(config.defaultLanguage);
        r == match LegacyBlocks(DefaultTemplates(templates, config.defaultLanguage), keys, parse)
          case Failure(e) => Failure(e)
          case Success(blocks) => Success(ResourceKeyDeclaration(keys) + "\n\n" + ResourceParams(blocks))
    {
      var resourceKeys := ResourceKeys(config.defaultLanguage);
      var keyType := ResourceKeyHead + Join(QuoteAll(resourceKeys), KeySeparator);
      var params := GenerateTemplateParams(resourceKeys, parse);
      if params.Failure? {
        return Failure(params.error);
      }
      assert [keyType, params.value][1..] == [params.value];
      assert Join([params.value], "\n\n") == params.value;
      r := Success(Join([keyType, params.value], "\n\n"));
    }
  }

  /** The visiting order of the tree of `${x + x}`. */
  lemma RepeatedNameVisited(x: string, tree: Node)
    requires tree == Other([Other([Other([Identifier(x), Identifier(x)])])])
    ensures Visited(tree) == [tree, Other([Other([Identifier(x), Identifier(x)])]), Other([Identifier(x), Identifier(x)]), Identifier(x), Identifier(x)]
  {
    var id := Identifier(x);
    var sum := Other([id, id]);
    var statement := Other([sum]);
    assert VisitedList([id]) == [id];
    assert VisitedList([id, id]) == [id, id];
    assert VisitedList([sum]) == [sum, id, id];
    assert VisitedList([statement]) == [statement, sum, id, id];
  }

  /** Three structural nodes followed by the same name twice: the older
      analyzer pushes one entry per occurrence. */
  lemma RepeatedNameLegacy(x: string, nodes: seq<Node>)
    requires |nodes| == 5 && nodes[0].Other? && nodes[1].Other? && nodes[2].Other?
    requires nodes[3] == Identifier(x) && nodes[4] == Identifier(x)
    ensures LegacyParamsOf(nodes) == Success([Param(Some(x), AllValueTypes), Param(Some(x), AllValueTypes)])
  {
    var id := Identifier(x);
    var p := Param(Some(x), AllValueTypes);
    assert nodes[1..][1..][1..] == [id, id] && [id, id][1..] == [id] && [id][1..] == [];
    ThenUnit<Param, LegacyError>(Success([p]));
    assert LegacyParamsOf([id]) == Success([p]);
    assert [p] + [p] == [p, p];
    assert LegacyParamsOf([id, id]) == Success([p, p]);
    ThenUnit<Param, LegacyError>(Success([p, p]));
    assert LegacyParamsOf(nodes[1..][1..]) == Success([p, p]);
    assert LegacyParamsOf(nodes[1..]) == Success([p, p]);
  }

  /** The same nodes: the newer analyzer also finds the name twice ... */
  lemma RepeatedNameCurrent(x: string, nodes: seq<Node>)
    requires |nodes| == 5 && nodes[0].Other? && nodes[1].Other? && nodes[2].Other?
    requires nodes[3] == Identifier(x) && nodes[4] == Identifier(x)
    ensures ParamsOf(None, nodes) == [Param(Some(x), ScalarValueTypes), Param(Some(x), ScalarValueTypes)]
  {
    var id := Identifier(x);
    var q := Param(Some(x), ScalarValueTypes);
    assert nodes[1..][1..][1..] == [id, id] && [id, id][1..] == [id];
    assert ParamsOf(None, [id]) == [q];
    assert ParamsOf(None, [id, id]) == [q, q];
    assert ParamsOf(None, nodes[1..][1..]) == [q, q];
    assert ParamsOf(None, nodes[1..]) == [q, q];
  }

  /** ... but adds its line only once. */
  lemma UniqueOfTwice(e: string)
    ensures Unique([e, e]) == [e]
  {
    assert Insert([], e) == [e];
    assert [e, e][1..] == [e] && [e][1..] == [];
    assert e in [e];
    assert AddAll([e], [e]) == AddAll(Insert([e], e), []);
    assert AddAll([], [e, e]) == AddAll(Insert([], e), [e]);
  }

  /** A name used twice: the older analyzer lists it twice, the newer one once. */
  lemma RepeatedName(x: string, tree: Node)
    requires tree == Other([Other([Other([Identifier(x), Identifier(x)])])])
    ensures LegacyParamsOf(Visited(tree)) == Success([Param(Some(x), AllValueTypes), Param(Some(x), AllValueTypes)])
    ensures TemplateParams(None, tree) == [Line(Param(Some(x), ScalarValueTypes))]
  {
    RepeatedNameVisited(x, tree);
    RepeatedNameLegacy(x, Visited(tree));
    RepeatedNameCurrent(x, Visited(tree));
    var q := Param(Some(x), ScalarValueTypes);
    assert Lines([q, q]) == [Line(q), Line(q)];
    UniqueOfTwice(Line(q));
  }

  /** A call with a literal argument: the older analyzer throws, the newer
      one lists only the callee. */
  lemma LiteralArgument(f: string, tree: Node)
    requires tree == Other([Other([Call(Identifier(f), [Literal])])])
    ensures LegacyParamsOf(Visited(tree)) == Failure(ArgumentWithoutObject)
    ensures ParamsOf(None, Visited(tree)) == [Param(Some(f), FunctionType)]
  {
    var call := Call(Identifier(f), [Literal]);
    var statement := Other([call]);
    assert VisitedList([call]) == [call];
    assert VisitedList([statement]) == [statement, call];
    var nodes := [tree, statement, call];
    assert Visited(tree) == nodes;
    assert [Literal][1..] == [];
    assert LegacyNodeParams(call) == Failure(ArgumentWithoutObject);
    assert nodes[1..][1..] == [call] && [call][1..] == [];
    assert LegacyParamsOf([call]) == Failure(ArgumentWithoutObject);
    assert ArgumentParams(None, [Literal]) == [];
    assert ParamsOf(None, [call]) == [Param(Some(f), FunctionType)];
  }

  /** The template `` `${foo(bar.baz)}` ``: `bar` and `foo` are listed,
      `baz` is not. */
  lemma CallWithMemberArgumentLegacy(template: string, tree: Node, parse: Parser)
    requires tree == Other([Other([TemplateLiteral([Call(Identifier("foo"), [Member(Identifier("bar"), Identifier("baz"))])])])])
    requires parse(template) == Some(tree)
    ensures LegacyTemplateParams(template, parse) ==
      Success([Line(Param(Some("bar"), AllValueTypes)), Line(Param(Some("foo"), FunctionType))])
  {
    LegacyCallWithMember("foo", "bar", "baz", tree);
    var bar := Param(Some("bar"), AllValueTypes);
    var foo := Param(Some("foo"), FunctionType);
    assert Lines([bar, foo]) == [Line(bar), Line(foo)];
  }

  /** `${f(o.p)}` for the older analyzer: the entry of `o`, then that of `f`. */
  lemma LegacyCallWithMember(f: string, o: string, p: string, tree: Node)
    requires o != ""
    requires tree == Other([Other([TemplateLiteral([Call(Identifier(f), [Member(Identifier(o), Identifier(p))])])])])
    ensures LegacyParamsOf(Visited(tree)) == Success([Param(Some(o), AllValueTypes), Param(Some(f), FunctionType)])
  {
    var member := Member(Identifier(o), Identifier(p));
    var call := Call(Identifier(f), [member]);
    CallWithMemberVisited(f, o, p, tree);
    var nodes := Visited(tree);
    assert [member][1..] == [];
    var bar := Param(Some(o), AllValueTypes);
    var foo := Param(Some(f), FunctionType);
    assert LegacyArgumentParam(member) == Success([bar]);
    ThenUnit<Param, LegacyError>(Success([bar]));
    assert LegacyArgumentParams([member]) == Success([bar]);
    assert [bar] + [foo] == [bar, foo];
    assert LegacyNodeParams(call) == Success([bar, foo]);
    assert nodes[1..][1..][1..] == [call] && [call][1..] == [];
    ThenUnit<Param, LegacyError>(Success([bar, foo]));
    assert LegacyParamsOf([call]) == Success([bar, foo]);
    assert LegacyParamsOf(nodes[1..][1..]) == Success([bar, foo]);
    assert LegacyParamsOf(nodes[1..]) == Success([bar, foo]);
  }
}
