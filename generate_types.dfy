/** The type-declaration generator of src/generateTypes.ts: the parameter
    analysis of one template over its syntax tree, the per-key blocks of
    `I18nResourceParams`, and the assembled declaration text. */
module GenerateTypes {
  import opened Wrappers
  import opened Strings
  import opened Dicts
  import opened Estree
  import opened I18nCore

  const ObjectValueType := "Record<string, unknown>"
  const ScalarValueTypes := "string | number"
  const FunctionType := "(...args: unknown[]) => string | number"

  /** One parameter found in a template: a name that may be `undefined`,
      and the type declared for it. */
  datatype Param = Param(name: Option<string>, valueType: string)

  /** The declaration line added for a parameter. */
  function Line(p: Param): string {
    "    " + PrintName(p.name) + ": " + p.valueType
  }

  function Lines(ps: seq<Param>): (r: seq<string>)
    ensures |r| == |ps|
    ensures forall i :: 0 <= i < |ps| ==> r[i] == Line(ps[i])
  {
    if ps == [] then [] else [Line(ps[0])] + Lines(ps[1..])
  }

  lemma {:induction false} LinesConcat(a: seq<Param>, b: seq<Param>)
    ensures Lines(a + b) == Lines(a) + Lines(b)
  {
    if a == [] {
      assert a + b == b;
    } else {
      assert (a + b)[0] == a[0] && (a + b)[1..] == a[1..] + b;
      LinesConcat(a[1..], b);
    }
  }

  /** `globalTemplateData?.includes(name)`; an `undefined` name is never
      listed, and no list at all lists nothing. */
  predicate IsGlobal(globals: Option<seq<string>>, name: Option<string>) {
    globals.Some? && name.Some? && name.value in globals.value
  }

  /** `argument.name || argument.object?.name` */
  function ArgumentName(a: Node): (r: Option<string>)
    ensures Truthy(NameOf(a)) ==> r == NameOf(a)
    ensures !Truthy(NameOf(a)) && a.Member? ==> r == NameOf(a.obj)
    ensures !Truthy(NameOf(a)) && !a.Member? ==> r.None?
  {
    if Truthy(NameOf(a)) then NameOf(a)
    else if a.Member? then NameOf(a.obj)
    else None
  }

  /** The parameters the call arguments add: those with a non-empty,
      non-global name, as scalars. */
  function ArgumentParams(globals: Option<seq<string>>, args: seq<Node>): seq<Param> {
    if args == [] then []
    else
      var name := ArgumentName(args[0]);
      (if Truthy(name) && !IsGlobal(globals, name) then [Param(name, ScalarValueTypes)] else [])
        + ArgumentParams(globals, args[1..])
  }

  /** The parameters `enter` adds for a node it acts on, in order. */
  function NodeParams(globals: Option<seq<string>>, n: Node): seq<Param> {
    match n
    case Identifier(name) =>
      if IsGlobal(globals, Some(name)) then [] else [Param(Some(name), ScalarValueTypes)]
    case Member(o, _) =>
      if IsGlobal(globals, NameOf(o)) then [] else [Param(NameOf(o), ObjectValueType)]
    case Call(c, args) =>
      ArgumentParams(globals, args)
        + (if IsGlobal(globals, NameOf(c)) then [] else [Param(NameOf(c), FunctionType)])
    case _ => []
  }

  function ParamsOf(globals: Option<seq<string>>, nodes: seq<Node>): seq<Param> {
    if nodes == [] then [] else NodeParams(globals, nodes[0]) + ParamsOf(globals, nodes[1..])
  }

  lemma {:induction false} ParamsOfConcat(globals: Option<seq<string>>, a: seq<Node>, b: seq<Node>)
    ensures ParamsOf(globals, a + b) == ParamsOf(globals, a) + ParamsOf(globals, b)
  {
    if a == [] {
      assert a + b == b;
    } else {
      assert (a + b)[0] == a[0] && (a + b)[1..] == a[1..] + b;
      ParamsOfConcat(globals, a[1..], b);
    }
  }

  lemma {:induction false} ArgumentParamsNoGlobal(globals: Option<seq<string>>, args: seq<Node>)
    ensures forall p :: p in ArgumentParams(globals, args) ==> !IsGlobal(globals, p.name) && p.name.Some?
  {
    if args != [] {
      ArgumentParamsNoGlobal(globals, args[1..]);
    }
  }

  /** No parameter the analysis finds names a global: every name is either
      `undefined` or outside `globalTemplateData`. */
  lemma {:induction false} ParamsNoGlobal(globals: Option<seq<string>>, nodes: seq<Node>)
    ensures forall p :: p in ParamsOf(globals, nodes) ==> !IsGlobal(globals, p.name)
  {
    if nodes != [] {
      ParamsNoGlobal(globals, nodes[1..]);
      if nodes[0].Call? {
        ArgumentParamsNoGlobal(globals, nodes[0].arguments);
      }
    }
  }

  /** `output.add(x)` on a `Set`, kept as its insertion order. */
  function Insert(output: seq<string>, x: string): (r: seq<string>)
    ensures x in output ==> r == output
    ensures x !in output ==> r == output + [x]
  {
    if x in output then output else output + [x]
  }

  function AddAll(output: seq<string>, xs: seq<string>): seq<string>
    decreases |xs|
  {
    if xs == [] then output else AddAll(Insert(output, xs[0]), xs[1..])
  }

  lemma {:induction false} AddAllConcat(output: seq<string>, a: seq<string>, b: seq<string>)
    ensures AddAll(output, a + b) == AddAll(AddAll(output, a), b)
    decreases |a|
  {
    if a == [] {
      assert a + b == b;
    } else {
      assert (a + b)[0] == a[0] && (a + b)[1..] == a[1..] + b;
      AddAllConcat(Insert(output, a[0]), a[1..], b);
    }
  }

  lemma AddAllOne(output: seq<string>, x: string)
    ensures AddAll(output, [x]) == Insert(output, x)
  {
    assert [x][1..] == [];
  }

  /** `Array.from(set)` for the set built from `xs`. */
  function Unique(xs: seq<string>): seq<string> {
    AddAll([], xs)
  }

  /** The elements of `xs` outside `s`, in order. */
  function Outside(xs: seq<string>, s: set<string>): (r: seq<string>)
    ensures |r| <= |xs|
    ensures forall x :: x in r <==> x in xs && x !in s
  {
    if xs == [] then []
    else if xs[0] in s then Outside(xs[1..], s)
    else [xs[0]] + Outside(xs[1..], s)
  }

  lemma {:induction false} OutsideTwice(xs: seq<string>, s: set<string>, t: set<string>)
    ensures Outside(Outside(xs, s), t) == Outside(xs, s + t)
  {
    if xs != [] {
      OutsideTwice(xs[1..], s, t);
      if xs[0] !in s {
        assert ([xs[0]] + Outside(xs[1..], s))[1..] == Outside(xs[1..], s);
      }
    }
  }

  /** Reference definition of first-occurrence order: keep the first
      element, drop its later repeats, and continue. */
  function KeepFirst(xs: seq<string>): (r: seq<string>)
    decreases |xs|
  {
    if xs == [] then [] else [xs[0]] + KeepFirst(Outside(xs[1..], {xs[0]}))
  }

  lemma {:induction false} AddAllKeepsFirst(output: seq<string>, xs: seq<string>)
    ensures AddAll(output, xs) == output + KeepFirst(Outside(xs, set x | x in output))
    decreases |xs|
  {
    var seen := set x | x in output;
    if xs == [] {
    } else if xs[0] in output {
      AddAllKeepsFirst(output, xs[1..]);
    } else {
      var output' := output + [xs[0]];
      AddAllKeepsFirst(output', xs[1..]);
      assert (set x | x in output') == seen + {xs[0]};
      OutsideTwice(xs[1..], seen, {xs[0]});
      OutsideTwice(xs[1..], {xs[0]}, seen);
      assert seen + {xs[0]} == {xs[0]} + seen;
      assert Outside(xs, seen) == [xs[0]] + Outside(xs[1..], seen);
    }
  }

  lemma {:induction false} OutsideNothing(xs: seq<string>)
    ensures Outside(xs, {}) == xs
  {
    if xs != [] {
      OutsideNothing(xs[1..]);
    }
  }

  /** The set keeps each entry at its first occurrence and drops repeats. */
  lemma UniqueIsKeepFirst(xs: seq<string>)
    ensures Unique(xs) == KeepFirst(xs)
  {
    AddAllKeepsFirst([], xs);
    assert (set x: string | x in []) == {};
    OutsideNothing(xs);
  }

  lemma {:induction false} AddAllMembers(output: seq<string>, xs: seq<string>)
    ensures forall x :: x in AddAll(output, xs) <==> x in output || x in xs
    ensures NoDuplicates(output) ==> NoDuplicates(AddAll(output, xs))
    decreases |xs|
  {
    if xs != [] {
      AddAllMembers(Insert(output, xs[0]), xs[1..]);
      if xs[0] !in output {
        NoDuplicatesSnoc(output, xs[0]);
      }
    }
  }

  lemma NoDuplicatesSnoc(s: seq<string>, x: string)
    requires x !in s
    ensures NoDuplicates(s) ==> NoDuplicates(s + [x])
  {
    if NoDuplicates(s) {
      forall i, j | 0 <= i < j < |s + [x]|
        ensures (s + [x])[i] != (s + [x])[j]
      {
        if j == |s| {
          assert (s + [x])[i] == s[i];
        }
      }
    }
  }

  /** The set holds each entry once, and exactly the entries added. */
  lemma UniqueMembers(xs: seq<string>)
    ensures NoDuplicates(Unique(xs))
    ensures forall x :: x in Unique(xs) <==> x in xs
  {
    AddAllMembers([], xs);
  }

  /** The entries `parseTemplateParams` returns for a parsed template. */
  function TemplateParams(globals: Option<seq<string>>, tree: Node): seq<string> {
    Unique(Lines(ParamsOf(globals, Visited(tree))))
  }

  /** Every entry is the line of a parameter whose name is not a global,
      each entry appears once, in order of first occurrence. */
  lemma TemplateParamsSpec(globals: Option<seq<string>>, tree: Node)
    ensures NoDuplicates(TemplateParams(globals, tree))
    ensures forall e :: e in TemplateParams(globals, tree) <==> e in Lines(ParamsOf(globals, Visited(tree)))
    ensures forall p :: p in ParamsOf(globals, Visited(tree)) ==> !IsGlobal(globals, p.name)
    ensures TemplateParams(globals, tree) == KeepFirst(Lines(ParamsOf(globals, Visited(tree))))
  {
    UniqueMembers(Lines(ParamsOf(globals, Visited(tree))));
    ParamsNoGlobal(globals, Visited(tree));
    UniqueIsKeepFirst(Lines(ParamsOf(globals, Visited(tree))));
  }

  /** `template.replace(/`/g, '\\`')` */
  function EscapeBackticks(s: string): (r: string)
    ensures r != [] ==> r[0] != '`'
  {
    if s == [] then []
    else if s[0] == '`' then "\\`" + EscapeBackticks(s[1..])
    else [s[0]] + EscapeBackticks(s[1..])
  }

  /** Reads `\`` back as a backtick. */
  function UnescapeBackticks(s: string): string {
    if |s| >= 2 && s[0] == '\\' && s[1] == '`' then "`" + UnescapeBackticks(s[2..])
    else if s == [] then []
    else [s[0]] + UnescapeBackticks(s[1..])
  }

  /** Escaping backticks loses nothing. */
  lemma {:induction false} EscapeRoundTrip(s: string)
    ensures UnescapeBackticks(EscapeBackticks(s)) == s
  {
    if s != [] {
      EscapeRoundTrip(s[1..]);
      var rest := EscapeBackticks(s[1..]);
      if s[0] == '`' {
        assert ("\\`" + rest)[2..] == rest;
      } else {
        assert ([s[0]] + rest)[1..] == rest;
      }
    }
  }

  /** Every backtick in `e` comes right after a backslash. */
  predicate BackticksPreceded(e: string) {
    forall i :: 0 < i < |e| && e[i] == '`' ==> e[i - 1] == '\\'
  }

  /** Every backtick of the escaped text comes right after a backslash. */
  lemma {:induction false} EscapedBackticksArePreceded(s: string)
    ensures BackticksPreceded(EscapeBackticks(s))
  {
    if s != [] {
      EscapedBackticksArePreceded(s[1..]);
      var rest := EscapeBackticks(s[1..]);
      var e := EscapeBackticks(s);
      var k := |e| - |rest|;
      assert e[k..] == rest;
      if s[0] == '`' {
        assert e[0] == '\\' && e[1] == '`' && k == 2;
      } else {
        assert e[0] == s[0] && k == 1;
      }
      forall i | 0 < i < |e| && e[i] == '`'
        ensures e[i - 1] == '\\'
      {
        if i >= k {
          assert rest[i - k] == '`';
          assert i - k > 0;
          assert rest[i - k - 1] == '\\';
          assert e[i - 1] == rest[i - k - 1];
        }
      }
    }
  }

  /** The source handed to the parser: the template in backticks. */
  function Wrap(template: string): (r: string)
    ensures |r| >= 2 && r[0] == '`' && r[|r| - 1] == '`'
    ensures r[1..|r| - 1] == EscapeBackticks(template)
  {
    "`" + EscapeBackticks(template) + "`"
  }

  /** The parser, `abstract-syntax-tree`'s `parse`, is foreign: `None`
      stands for a syntax error it throws. */
  type Parser = string -> Option<Node>

  /** A failed parse, after the key and the template are logged. */
  datatype GenerateError = ParseFailed(resourceKey: string, template: string)

  /** What `parseTemplateParams` returns or throws. */
  function TemplateParamsResult(resourceKey: string, template: string, globals: Option<seq<string>>, parse: Parser): Result<seq<string>, GenerateError> {
    match parse(Wrap(template))
    case None => Failure(ParseFailed(resourceKey, template))
    case Some(tree) => Success(TemplateParams(globals, tree))
  }

  /** Adds the entries of one call expression, arguments first, then the callee. */
  method AddCallEntries(output: seq<string>, globals: Option<seq<string>>, callee: Node, args: seq<Node>)
    returns (r: seq<string>)
    ensures r == AddAll(output, Lines(NodeParams(globals, Call(callee, args))))
  {
    r := output;
    for j := 0 to |args|
      invariant r == AddAll(output, Lines(ArgumentParams(globals, args[..j])))
    {
      var argument := args[j];
      var argumentName := if Truthy(NameOf(argument)) then NameOf(argument)
        else if argument.Member? then NameOf(argument.obj) else None;
      ArgumentParamsSnoc(globals, args[..j], argument);
      assert args[..j + 1] == args[..j] + [argument];
      LinesConcat(ArgumentParams(globals, args[..j]), ArgumentParams(globals, [argument]));
      AddAllConcat(output, Lines(ArgumentParams(globals, args[..j])), Lines(ArgumentParams(globals, [argument])));
      if Truthy(argumentName) && !IsGlobal(globals, argumentName) {
        AddAllOne(r, Line(Param(argumentName, ScalarValueTypes)));
        r := Insert(r, "    " + argumentName.value + ": " + ScalarValueTypes);
      }
    }
    assert args[..|args|] == args;
    var calleeParams := if IsGlobal(globals, NameOf(callee)) then [] else [Param(NameOf(callee), FunctionType)];
    LinesConcat(ArgumentParams(globals, args), calleeParams);
    AddAllConcat(output, Lines(ArgumentParams(globals, args)), Lines(calleeParams));
    if !IsGlobal(globals, NameOf(callee)) {
      AddAllOne(r, Line(Param(NameOf(callee), FunctionType)));
      r := Insert(r, "    " + PrintName(NameOf(callee)) + ": " + FunctionType);
    }
  }

  lemma ArgumentParamsSnoc(globals: Option<seq<string>>, args: seq<Node>, a: Node)
    ensures ArgumentParams(globals, args + [a]) == ArgumentParams(globals, args) + ArgumentParams(globals, [a])
    decreases |args|
  {
    if args != [] {
      assert (args + [a])[1..] == args[1..] + [a];
      ArgumentParamsSnoc(globals, args[1..], a);
    }
  }

  /** The entries a walk has added, one callback further on. */
  lemma WalkStep(globals: Option<seq<string>>, events: seq<Event>, i: nat)
    requires i < |events|
    ensures var before := Run(None, events[..i]);
      var step := Step(before.skip, events[i]);
      && Run(None, events[..i + 1]).skip == step.skip
      && AddAll([], Lines(ParamsOf(globals, Run(None, events[..i + 1]).entered)))
         == AddAll(AddAll([], Lines(ParamsOf(globals, before.entered))), Lines(ParamsOf(globals, step.entered)))
  {
    var before := Run(None, events[..i]);
    var step := Step(before.skip, events[i]);
    assert events[..i + 1] == events[..i] + [events[i]];
    RunSnoc(None, events[..i], events[i]);
    ParamsOfConcat(globals, before.entered, step.entered);
    LinesConcat(ParamsOf(globals, before.entered), ParamsOf(globals, step.entered));
    AddAllConcat([], Lines(ParamsOf(globals, before.entered)), Lines(ParamsOf(globals, step.entered)));
  }

  /** The `enter` callback outside a skipped subtree: adds the node's
      entries and starts skipping a member or call expression. */
  method EnterNode(output: seq<string>, globals: Option<seq<string>>, node: Node)
    returns (r: seq<string>, skipNode: Option<Node>)
    ensures r == AddAll(output, Lines(ParamsOf(globals, [node])))
    ensures skipNode == Step(None, Enter(node)).skip
  {
    assert ParamsOf(globals, [node]) == NodeParams(globals, node) + ParamsOf(globals, []);
    assert ParamsOf(globals, [node]) == NodeParams(globals, node);
    r := output;
    skipNode := None;
    match node {
      case Identifier(name) =>
        if !IsGlobal(globals, Some(name)) {
          assert Lines(NodeParams(globals, node)) == [Line(Param(Some(name), ScalarValueTypes))];
          AddAllOne(r, Line(Param(Some(name), ScalarValueTypes)));
          r := Insert(r, "    " + name + ": " + ScalarValueTypes);
        } else {
          assert Lines(NodeParams(globals, node)) == [];
        }
      case Member(o, _) =>
        skipNode := Some(node);
        if !IsGlobal(globals, NameOf(o)) {
          assert Lines(NodeParams(globals, node)) == [Line(Param(NameOf(o), ObjectValueType))];
          AddAllOne(r, Line(Param(NameOf(o), ObjectValueType)));
          r := Insert(r, "    " + PrintName(NameOf(o)) + ": " + ObjectValueType);
        } else {
          assert Lines(NodeParams(globals, node)) == [];
        }
      case Call(callee, args) =>
        skipNode := Some(node);
        r := AddCallEntries(r, globals, callee, args);
      case _ =>
        assert Lines(NodeParams(globals, node)) == [];
    }
  }

  /** `parseTemplateParams(resourceKey, template, globalTemplateData)`:
      parses the wrapped template and walks it with the `skipNode` rule,
      adding entries to a set; a parse failure is rethrown. */
  method ParseTemplateParams(resourceKey: string, template: string, globals: Option<seq<string>>, parse: Parser)
    returns (r: Result<seq<string>, GenerateError>)
    ensures r == TemplateParamsResult(resourceKey, template, globals, parse)
  {
    var parsed := parse(Wrap(template));
    if parsed.None? {
      return Failure(ParseFailed(resourceKey, template));
    }
    var tree := parsed.value;
    var events := Events(tree);
    var output: seq<string> := [];
    var skipNode: Option<Node> := None;
    for i := 0 to |events|
      invariant skipNode == Run(None, events[..i]).skip
      invariant output == AddAll([], Lines(ParamsOf(globals, Run(None, events[..i]).entered)))
    {
      WalkStep(globals, events, i);
      match events[i] {
        case Enter(node) =>
          if skipNode.None? {
            output, skipNode := EnterNode(output, globals, node);
          } else {
            assert ParamsOf(globals, []) == [];
          }
        case Leave(node) =>
          assert ParamsOf(globals, []) == [];
          if skipNode == Some(node) {
            skipNode := None;
          }
      }
    }
    assert events[..|events|] == events;
    WalkVisits(tree);
    r := Success(output);
  }

  /** The declaration block of one key: its entries, or `never`. */
  function Block(resourceKey: string, entries: seq<string>): string {
    if entries != [] then "  '" + resourceKey + "': {" + "\n" + Join(entries, "\n") + "\n" + "  }"
    else "  '" + resourceKey + "': never"
  }

  /** A block is one line for a key without entries; otherwise the key's
      opening line, each entry on a line of its own, and the closing line. */
  lemma BlockLayout(resourceKey: string, entries: seq<string>)
    requires '\n' !in resourceKey
    requires forall i :: 0 <= i < |entries| ==> '\n' !in entries[i]
    ensures entries != [] ==> SplitLines(Block(resourceKey, entries)) == ["  '" + resourceKey + "': {"] + entries + ["  }"]
    ensures entries == [] ==> SplitLines(Block(resourceKey, entries)) == ["  '" + resourceKey + "': never"]
  {
    if entries != [] {
      SplitFramed("  '" + resourceKey + "': {", Join(entries, "\n"), "  }");
      SplitJoinedLines(entries);
    } else {
      SplitLinesSingle("  '" + resourceKey + "': never");
    }
  }

  /** What one key contributes: nothing for an empty template, else its
      block, or the parse failure. */
  function KeyBlock(resourceKey: string, template: string, globals: Option<seq<string>>, parse: Parser): Result<seq<string>, GenerateError> {
    if template == "" then Success([])
    else match TemplateParamsResult(resourceKey, template, globals, parse)
      case Failure(e) => Failure(e)
      case Success(entries) => Success([Block(resourceKey, entries)])
  }

  /** The blocks for `keys` in order; the first template that fails to
      parse aborts. */
  function Blocks(templates: map<string, string>, keys: seq<string>, globals: Option<seq<string>>, parse: Parser): Result<seq<string>, GenerateError>
    requires forall k :: k in keys ==> k in templates
  {
    if keys == [] then Success([])
    else Then(KeyBlock(keys[0], templates[keys[0]], globals, parse), Blocks(templates, keys[1..], globals, parse))
  }

  lemma {:induction false} BlocksConcat(templates: map<string, string>, a: seq<string>, b: seq<string>, globals: Option<seq<string>>, parse: Parser)
    requires forall k :: k in a + b ==> k in templates
    ensures Blocks(templates, a + b, globals, parse) == Then(Blocks(templates, a, globals, parse), Blocks(templates, b, globals, parse))
  {
    if a == [] {
      assert a + b == b;
      assert Then(Success([]), Blocks(templates, b, globals, parse)) == Blocks(templates, b, globals, parse) by {
        var rb := Blocks(templates, b, globals, parse);
        if rb.Success? {
          assert [] + rb.value == rb.value;
        }
      }
    } else {
      assert (a + b)[0] == a[0] && (a + b)[1..] == a[1..] + b;
      BlocksConcat(templates, a[1..], b, globals, parse);
      ThenAssociative(KeyBlock(a[0], templates[a[0]], globals, parse), Blocks(templates, a[1..], globals, parse), Blocks(templates, b, globals, parse));
    }
  }

  /** A template `generateTemplateParams` gets through: empty, or parsed. */
  predicate Parses(templates: map<string, string>, parse: Parser, key: string)
    requires key in templates
  {
    templates[key] == "" || parse(Wrap(templates[key])).Some?
  }

  /** The blocks are produced exactly when every template parses. */
  lemma {:induction false} BlocksSucceed(templates: map<string, string>, keys: seq<string>, globals: Option<seq<string>>, parse: Parser)
    requires forall k :: k in keys ==> k in templates
    ensures Blocks(templates, keys, globals, parse).Success? <==> forall k :: k in keys ==> Parses(templates, parse, k)
  {
    if keys != [] {
      BlocksSucceed(templates, keys[1..], globals, parse);
      assert KeyBlock(keys[0], templates[keys[0]], globals, parse).Success? <==> Parses(templates, parse, keys[0]);
      assert forall k :: k in keys <==> k == keys[0] || k in keys[1..];
    }
  }

  /** Key `i` is the first, in key order, whose template does not parse,
      and `error` names it. */
  predicate FirstFailureAt(templates: map<string, string>, parse: Parser, keys: seq<string>, i: int, error: GenerateError)
    requires forall k :: k in keys ==> k in templates
  {
    && 0 <= i < |keys| && !Parses(templates, parse, keys[i])
    && error == ParseFailed(keys[i], templates[keys[i]])
    && forall j :: 0 <= j < i ==> Parses(templates, parse, keys[j])
  }

  /** A failure names the first key, in key order, whose template does not
      parse. */
  lemma {:induction false} BlocksFirstFailure(templates: map<string, string>, keys: seq<string>, globals: Option<seq<string>>, parse: Parser)
    requires forall k :: k in keys ==> k in templates
    requires Blocks(templates, keys, globals, parse).Failure?
    ensures exists i :: FirstFailureAt(templates, parse, keys, i, Blocks(templates, keys, globals, parse).error)
  {
    var key := keys[0];
    var first := KeyBlock(key, templates[key], globals, parse);
    var rest := Blocks(templates, keys[1..], globals, parse);
    assert Blocks(templates, keys, globals, parse) == Then(first, rest);
    if Parses(templates, parse, key) {
      assert first.Success?;
      assert rest.Failure?;
      BlocksFirstFailure(templates, keys[1..], globals, parse);
      var i :| FirstFailureAt(templates, parse, keys[1..], i, rest.error);
      assert keys[i + 1] == keys[1..][i];
      forall j | 0 <= j < i + 1
        ensures Parses(templates, parse, keys[j])
      {
        if j > 0 {
          assert keys[j] == keys[1..][j - 1];
        }
      }
      assert FirstFailureAt(templates, parse, keys, i + 1, rest.error);
    } else {
      assert first == Failure(ParseFailed(key, templates[key]));
      assert FirstFailureAt(templates, parse, keys, 0, first.error);
    }
  }

  const ParamsOpening := "export interface " + "I18nResourceParams {"

  /** The interface declaration around the blocks. */
  function ParamsInterface(blocks: seq<string>): string {
    ParamsOpening + "\n" + Join(blocks, "\n") + "\n" + "}"
  }

  /** The interface is its opening line, the lines of the blocks in order
      (one empty line when there are none), and the closing brace. */
  lemma ParamsInterfaceLayout(blocks: seq<string>)
    ensures blocks != [] ==> SplitLines(ParamsInterface(blocks)) == [ParamsOpening] + AllLines(blocks) + ["}"]
    ensures blocks == [] ==> SplitLines(ParamsInterface(blocks)) == [ParamsOpening, "", "}"]
  {
    NoBreakInHeaders();
    SplitFramed(ParamsOpening, Join(blocks, "\n"), "}");
    if blocks != [] {
      SplitJoinedBlocks(blocks);
    }
  }

  /** `Blocks` one key further on. */
  lemma BlocksSnoc(templates: map<string, string>, keys: seq<string>, i: nat, globals: Option<seq<string>>, parse: Parser)
    requires i < |keys|
    requires forall k :: k in keys ==> k in templates
    ensures Blocks(templates, keys[..i + 1], globals, parse)
      == Then(Blocks(templates, keys[..i], globals, parse), KeyBlock(keys[i], templates[keys[i]], globals, parse))
  {
    assert keys[..i + 1] == keys[..i] + [keys[i]];
    BlocksConcat(templates, keys[..i], [keys[i]], globals, parse);
    var one := KeyBlock(keys[i], templates[keys[i]], globals, parse);
    assert [keys[i]][1..] == [];
    assert Blocks(templates, [keys[i]], globals, parse) == Then(one, Success([]));
    assert Then(one, Success([])) == one by {
      if one.Success? {
        assert one.value + [] == one.value;
      }
    }
  }

  /** Once a step fails, whatever follows changes nothing. */
  lemma BlocksAbort(templates: map<string, string>, keys: seq<string>, i: nat, globals: Option<seq<string>>, parse: Parser)
    requires i <= |keys|
    requires forall k :: k in keys ==> k in templates
    requires Blocks(templates, keys[..i], globals, parse).Failure?
    ensures Blocks(templates, keys, globals, parse) == Blocks(templates, keys[..i], globals, parse)
  {
    assert keys[..i] + keys[i..] == keys;
    BlocksConcat(templates, keys[..i], keys[i..], globals, parse);
  }

  /** The `forEach` callback for one key: pushes the key's block, if any,
      or rethrows the parse failure. */
  method AddKeyBlock(params: seq<string>, resourceKey: string, template: string, globals: Option<seq<string>>, parse: Parser)
    returns (r: Result<seq<string>, GenerateError>)
    ensures r == Then(Success(params), KeyBlock(resourceKey, template, globals, parse))
  {
    if template == "" {
      assert params + [] == params;
      return Success(params);
    }
    var templateParams := ParseTemplateParams(resourceKey, template, globals, parse);
    if templateParams.Failure? {
      return Failure(templateParams.error);
    }
    if |templateParams.value| > 0 {
      r := Success(params + ["  '" + resourceKey + "': {" + "\n" + Join(templateParams.value, "\n") + "\n" + "  }"]);
    } else {
      r := Success(params + ["  '" + resourceKey + "': never"]);
    }
  }

  /** `generateTemplateParams(templates, globalTemplateData)`: one block per
      key with a non-empty template, in key order. */
  method GenerateTemplateParams(templates: Dict<string>, globals: Option<seq<string>>, parse: Parser)
    returns (r: Result<string, GenerateError>)
    requires Valid(templates)
    ensures r == match Blocks(templates.items, templates.keys, globals, parse)
      case Failure(e) => Failure(e)
      case Success(blocks) => Success(ParamsInterface(blocks))
  {
    var keys := templates.keys;
    var params: seq<string> := [];
    for i := 0 to |keys|
      invariant Blocks(templates.items, keys[..i], globals, parse) == Success(params)
    {
      var resourceKey := keys[i];
      BlocksSnoc(templates.items, keys, i, globals, parse);
      var next := AddKeyBlock(params, resourceKey, templates.items[resourceKey], globals, parse);
      if next.Failure? {
        BlocksAbort(templates.items, keys, i + 1, globals, parse);
        return Failure(next.error);
      }
      params := next.value;
    }
    assert keys[..|keys|] == keys;
    r := Success(ParamsOpening + "\n" + Join(params, "\n") + "\n" + "}");
  }

  /** `generateResourceKeyType()` */
  const ResourceKeyType := "export type I18nResourceKey" + " = keyof I18nResourceParams"

  /** The declaration text for a set of parameter declarations. */
  function Declarations(params: string): string {
    Trim(Join([params, ResourceKeyType], "\n\n")) + "\n"
  }

  /** The trim changes nothing: the text is the two declarations, a blank
      line between them, and exactly one newline at the end. */
  lemma DeclarationsLayout(blocks: seq<string>)
    ensures var text := Declarations(ParamsInterface(blocks));
      && text == ParamsInterface(blocks) + "\n\n" + ResourceKeyType + "\n"
      && text[|text| - 1] == '\n' && text[|text| - 2] != '\n'
  {
    var joined := Join([ParamsInterface(blocks), ResourceKeyType], "\n\n");
    assert [ParamsInterface(blocks), ResourceKeyType][1..] == [ResourceKeyType];
    assert Join([ResourceKeyType], "\n\n") == ResourceKeyType;
    assert joined == ParamsInterface(blocks) + "\n\n" + ResourceKeyType;
    assert joined[0] == 'e';
    assert joined[|joined| - 1] == 's';
    TrimNoop(joined);
  }

  /** The generated text is the lines of the interface, an empty line, the
      key type, and an empty last line after the final line break. */
  lemma DeclarationsLines(blocks: seq<string>)
    ensures SplitLines(Declarations(ParamsInterface(blocks))) == SplitLines(ParamsInterface(blocks)) + ["", ResourceKeyType, ""]
  {
    DeclarationsLayout(blocks);
    NoBreakInHeaders();
    SplitThenLastLine(ParamsInterface(blocks), ResourceKeyType);
  }

  /** The fixed lines of the declarations hold no line break. */
  lemma NoBreakInHeaders()
    ensures '\n' !in ParamsOpening && '\n' !in ResourceKeyType
  {
  }

  /** `generateTypes(i18nData, output, globalTemplateData)`: flattens the
      data, generates the blocks, and assembles the declarations. */
  method GenerateTypes(i18nData: seq<Field>, globals: Option<seq<string>>, parse: Parser)
    returns (r: Result<string, GenerateError>)
    ensures var templates := MapValues(Tableize(i18nData), Stringify);
      r == match Blocks(templates.items, templates.keys, globals, parse)
        case Failure(e) => Failure(e)
        case Success(blocks) => Success(ParamsInterface(blocks) + "\n\n" + ResourceKeyType + "\n")
  {
    var templates := PrepareI18nData(i18nData);
    var params := GenerateTemplateParams(templates, globals, parse);
    if params.Failure? {
      return Failure(params.error);
    }
    var blocks := Blocks(templates.items, templates.keys, globals, parse).value;
    DeclarationsLayout(blocks);
    r := Success(Trim(Join([params.value, ResourceKeyType], "\n\n")) + "\n");
  }

  /** A template `${f(o.p)}`: the object `o` of the member argument is a
      scalar parameter, the callee `f` a function, and the property `p` is
      no parameter at all; globals are dropped. */
  lemma CallWithMemberArgument(globals: Option<seq<string>>, f: string, o: string, p: string, tree: Node)
    requires o != ""
    requires tree == Other([Other([TemplateLiteral([Call(Identifier(f), [Member(Identifier(o), Identifier(p))])])])])
    ensures ParamsOf(globals, Visited(tree)) ==
      (if IsGlobal(globals, Some(o)) then [] else [Param(Some(o), ScalarValueTypes)])
      + (if IsGlobal(globals, Some(f)) then [] else [Param(Some(f), FunctionType)])
  {
    var member := Member(Identifier(o), Identifier(p));
    var call := Call(Identifier(f), [member]);
    CallWithMemberVisited(f, o, p, tree);
    var nodes := Visited(tree);
    assert ArgumentName(member) == Some(o);
    assert ArgumentParams(globals, [member]) == (if IsGlobal(globals, Some(o)) then [] else [Param(Some(o), ScalarValueTypes)]);
    assert nodes[1..][1..][1..] == [call];
    assert ParamsOf(globals, [call]) == NodeParams(globals, call);
    assert ParamsOf(globals, nodes[1..][1..]) == ParamsOf(globals, [call]);
    assert ParamsOf(globals, nodes[1..]) == ParamsOf(globals, nodes[1..][1..]);
  }

  /** The visiting order of the tree of `${f(o.p)}`: the call is entered
      last, and its subtree is skipped. */
  lemma CallWithMemberVisited(f: string, o: string, p: string, tree: Node)
    requires tree == Other([Other([TemplateLiteral([Call(Identifier(f), [Member(Identifier(o), Identifier(p))])])])])
    ensures Visited(tree) == [tree, tree.children[0], tree.children[0].children[0], Call(Identifier(f), [Member(Identifier(o), Identifier(p))])]
  {
    var call := Call(Identifier(f), [Member(Identifier(o), Identifier(p))]);
    var template := TemplateLiteral([call]);
    var statement := Other([template]);
    assert VisitedList([call]) == [call];
    assert VisitedList([template]) == [template, call];
    assert VisitedList([statement]) == [statement, template, call];
  }

  /** Two different entries are both kept, in order. */
  lemma UniquePair(a: string, b: string)
    requires a != b
    ensures Unique([a, b]) == [a, b]
  {
    assert [a, b][1..] == [b] && [b][1..] == [];
    assert Insert([], a) == [a];
    assert b !in [a];
    assert AddAll([], [a, b]) == AddAll([a], [b]);
    assert AddAll([a], [b]) == AddAll(Insert([a], b), []);
  }

  /** `foo(bar.baz)`: `bar` is a scalar, `foo` a function, `baz` does not
      appear; listing `foo` as global drops it. */
  lemma CallWithMemberArgumentExample(tree: Node)
    requires tree == Other([Other([TemplateLiteral([Call(Identifier("foo"), [Member(Identifier("bar"), Identifier("baz"))])])])])
    ensures TemplateParams(None, tree) == [Line(Param(Some("bar"), ScalarValueTypes)), Line(Param(Some("foo"), FunctionType))]
    ensures TemplateParams(Some(["foo"]), tree) == [Line(Param(Some("bar"), ScalarValueTypes))]
  {
    CallWithMemberArgumentDistinct("foo", "bar", "baz", tree);
  }

  /** `${f(o.p)}` with two different names: the entries of `o` then `f`;
      listing `f` as global leaves the entry of `o`. */
  lemma CallWithMemberArgumentDistinct(f: string, o: string, p: string, tree: Node)
    requires o != "" && o != f
    requires tree == Other([Other([TemplateLiteral([Call(Identifier(f), [Member(Identifier(o), Identifier(p))])])])])
    ensures TemplateParams(None, tree) == [Line(Param(Some(o), ScalarValueTypes)), Line(Param(Some(f), FunctionType))]
    ensures TemplateParams(Some([f]), tree) == [Line(Param(Some(o), ScalarValueTypes))]
  {
    var bar := Param(Some(o), ScalarValueTypes);
    var foo := Param(Some(f), FunctionType);
    CallWithMemberArgument(None, f, o, p, tree);
    assert ParamsOf(None, Visited(tree)) == [bar, foo];
    assert Lines([bar, foo]) == [Line(bar), Line(foo)];
    ScalarAndFunctionLinesDiffer(bar, foo);
    UniquePair(Line(bar), Line(foo));
    CallWithMemberArgumentGlobalCallee(f, o, p, tree);
  }

  /** The same template with `f` listed as global. */
  lemma CallWithMemberArgumentGlobalCallee(f: string, o: string, p: string, tree: Node)
    requires o != "" && o != f
    requires tree == Other([Other([TemplateLiteral([Call(Identifier(f), [Member(Identifier(o), Identifier(p))])])])])
    ensures TemplateParams(Some([f]), tree) == [Line(Param(Some(o), ScalarValueTypes))]
  {
    var bar := Param(Some(o), ScalarValueTypes);
    CallWithMemberArgument(Some([f]), f, o, p, tree);
    assert f in [f] && o !in [f];
    assert ParamsOf(Some([f]), Visited(tree)) == [bar];
    assert Lines([bar]) == [Line(bar)];
    AddAllOne([], Line(bar));
  }

  /** A scalar entry and a function entry never print alike, whatever
      their names: the character before the common ending `string | number`
      is `:` in one and `>` in the other. */
  lemma ScalarAndFunctionLinesDiffer(a: Param, b: Param)
    requires a.valueType == ScalarValueTypes && b.valueType == FunctionType
    ensures Line(a) != Line(b)
  {
    var scalarHead := "    " + PrintName(a.name) + ": ";
    var functionHead := "    " + PrintName(b.name) + ": ";
    assert Line(a) == scalarHead + ScalarValueTypes;
    assert Line(b) == functionHead + FunctionType;
    assert Line(a)[|scalarHead| - 2] == ':';
    assert FunctionType[22] == '>';
    assert Line(b)[|functionHead| + 22] == '>';
  }
}
