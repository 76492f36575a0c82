/** The part of an ESTree syntax tree that the parameter analyzers look
    at, the enter/leave walk over it, and the `skipNode` rule both
    analyzers use to stay out of member and call subtrees. */
module Estree {
  import opened Wrappers

  /** A syntax node. `Other` stands for every node type the analyzers do
      not inspect (`Program`, `ExpressionStatement`, operators, ...);
      template quasis are left out of `TemplateLiteral` because entering
      or leaving them changes nothing. */
  datatype Node =
    | Identifier(name: string)
    | Member(obj: Node, property: Node)
    | Call(callee: Node, arguments: seq<Node>)
    | TemplateLiteral(expressions: seq<Node>)
    | Literal
    | Other(children: seq<Node>)

  /** `node.name`: only identifiers have one. */
  function NameOf(n: Node): (r: Option<string>)
    ensures r.Some? <==> n.Identifier?
  {
    if n.Identifier? then Some(n.name) else None
  }

  /** A JS value used as a condition: `undefined` and `''` are false. */
  predicate Truthy(name: Option<string>) {
    name.Some? && name.value != ""
  }

  /** How a template string prints a name that may be `undefined`. */
  function PrintName(name: Option<string>): (r: string)
    ensures name.Some? ==> r == name.value
    ensures name.None? ==> r == "undefined"
  {
    match name
    case Some(s) => s
    case None => "undefined"
  }

  function Size(n: Node): nat {
    match n
    case Identifier(_) => 1
    case Member(o, p) => 1 + Size(o) + Size(p)
    case Call(c, args) => 1 + Size(c) + SizeList(args)
    case TemplateLiteral(es) => 1 + SizeList(es)
    case Literal => 1
    case Other(cs) => 1 + SizeList(cs)
  }

  function SizeList(ns: seq<Node>): nat {
    if ns == [] then 0 else Size(ns[0]) + SizeList(ns[1..])
  }

  datatype Event = Enter(node: Node) | Leave(node: Node)

  /** The callbacks `traverse` makes: enter a node, walk its children in
      ESTree order (object then property, callee then arguments), leave it. */
  function Events(n: Node): seq<Event> {
    match n
    case Identifier(_) => [Enter(n), Leave(n)]
    case Member(o, p) => [Enter(n)] + (Events(o) + Events(p)) + [Leave(n)]
    case Call(c, args) => [Enter(n)] + (Events(c) + EventsList(args)) + [Leave(n)]
    case TemplateLiteral(es) => [Enter(n)] + EventsList(es) + [Leave(n)]
    case Literal => [Enter(n), Leave(n)]
    case Other(cs) => [Enter(n)] + EventsList(cs) + [Leave(n)]
  }

  function EventsList(ns: seq<Node>): seq<Event> {
    if ns == [] then [] else Events(ns[0]) + EventsList(ns[1..])
  }

  /** The nodes the analyzers act on, in the order they act: pre-order,
      not descending into member or call expressions. */
  function Visited(n: Node): seq<Node> {
    match n
    case Member(_, _) => [n]
    case Call(_, _) => [n]
    case TemplateLiteral(es) => [n] + VisitedList(es)
    case Other(cs) => [n] + VisitedList(cs)
    case _ => [n]
  }

  function VisitedList(ns: seq<Node>): seq<Node> {
    if ns == [] then [] else Visited(ns[0]) + VisitedList(ns[1..])
  }

  /** What the walk has done so far: the nodes entered while not skipping,
      and the current `skipNode`. */
  datatype Walk = Walk(entered: seq<Node>, skip: Option<Node>)

  /** One callback. While a node is skipped nothing is entered; entering a
      member or call expression starts skipping it; leaving the node that
      is skipped stops skipping. */
  function Step(skip: Option<Node>, e: Event): (w: Walk)
    ensures skip.Some? && e.Enter? ==> w == Walk([], skip)
    ensures skip.None? && e.Enter? ==> w.entered == [e.node] && (w.skip.Some? <==> e.node.Member? || e.node.Call?)
    ensures e.Leave? ==> w.entered == [] && (w.skip.None? <==> skip.None? || skip == Some(e.node))
  {
    match e
    case Enter(n) =>
      if skip.Some? then Walk([], skip)
      else Walk([n], if n.Member? || n.Call? then Some(n) else None)
    case Leave(n) =>
      Walk([], if skip == Some(n) then None else skip)
  }

  function Run(skip: Option<Node>, events: seq<Event>): Walk
    decreases |events|
  {
    if events == [] then Walk([], skip)
    else
      var first := Step(skip, events[0]);
      var rest := Run(first.skip, events[1..]);
      Walk(first.entered + rest.entered, rest.skip)
  }

  /** Walking two stretches of callbacks one after the other. */
  lemma {:induction false} RunConcat(skip: Option<Node>, a: seq<Event>, b: seq<Event>)
    ensures Run(skip, a + b) == Walk(Run(skip, a).entered + Run(Run(skip, a).skip, b).entered, Run(Run(skip, a).skip, b).skip)
    decreases |a|
  {
    if a == [] {
      assert a + b == b;
    } else {
      var first := Step(skip, a[0]);
      assert (a + b)[0] == a[0] && (a + b)[1..] == a[1..] + b;
      RunConcat(first.skip, a[1..], b);
      var mid := Run(first.skip, a[1..]);
      assert Run(skip, a) == Walk(first.entered + mid.entered, mid.skip);
      var last := Run(mid.skip, b);
      assert Run(skip, a + b) == Walk(first.entered + (mid.entered + last.entered), last.skip);
      assert first.entered + (mid.entered + last.entered) == (first.entered + mid.entered) + last.entered;
    }
  }

  /** One more callback at the end of a walk. */
  lemma RunSnoc(skip: Option<Node>, events: seq<Event>, e: Event)
    ensures Run(skip, events + [e]) ==
      Walk(Run(skip, events).entered + Step(Run(skip, events).skip, e).entered, Step(Run(skip, events).skip, e).skip)
  {
    RunConcat(skip, events, [e]);
    assert [e][1..] == [];
  }

  /** A walk that starts with an enter callback. */
  lemma RunCons(skip: Option<Node>, e: Event, rest: seq<Event>)
    ensures Run(skip, [e] + rest) ==
      Walk(Step(skip, e).entered + Run(Step(skip, e).skip, rest).entered, Run(Step(skip, e).skip, rest).skip)
  {
    assert ([e] + rest)[0] == e && ([e] + rest)[1..] == rest;
  }

  /** The callbacks of a node seen as enter, children, leave. */
  lemma RunNode(skip: Option<Node>, n: Node, children: seq<Event>)
    ensures Run(skip, [Enter(n)] + children + [Leave(n)]) ==
      var w1 := Step(skip, Enter(n));
      var w2 := Run(w1.skip, children);
      var w3 := Step(w2.skip, Leave(n));
      Walk(w1.entered + w2.entered + w3.entered, w3.skip)
  {
    RunSnoc(skip, [Enter(n)] + children, Leave(n));
    RunCons(skip, Enter(n), children);
  }

  lemma SizeChildren(n: Node)
    ensures n.Member? ==> Size(n.obj) < Size(n) && Size(n.property) < Size(n)
    ensures n.Call? ==> Size(n.callee) < Size(n) && SizeList(n.arguments) < Size(n)
    ensures n.TemplateLiteral? ==> SizeList(n.expressions) < Size(n)
    ensures n.Other? ==> SizeList(n.children) < Size(n)
  {
  }

  /** While a larger node is skipped, walking a subtree enters nothing and
      leaves the skip in place. */
  lemma {:induction false} SkippedSubtree(m: Node, n: Node)
    requires Size(m) > Size(n)
    ensures Run(Some(m), Events(n)) == Walk([], Some(m))
    decreases n, 1
  {
    SizeChildren(n);
    match n {
      case Identifier(_) =>
        RunNode(Some(m), n, []);
      case Literal =>
        RunNode(Some(m), n, []);
      case Member(o, p) =>
        SkippedSubtree(m, o);
        SkippedSubtree(m, p);
        RunConcat(Some(m), Events(o), Events(p));
        RunNode(Some(m), n, Events(o) + Events(p));
      case Call(c, args) =>
        SkippedSubtree(m, c);
        SkippedSubtreeList(m, args);
        RunConcat(Some(m), Events(c), EventsList(args));
        RunNode(Some(m), n, Events(c) + EventsList(args));
      case TemplateLiteral(es) =>
        SkippedSubtreeList(m, es);
        RunNode(Some(m), n, EventsList(es));
      case Other(cs) =>
        SkippedSubtreeList(m, cs);
        RunNode(Some(m), n, EventsList(cs));
    }
  }

  lemma {:induction false} SkippedSubtreeList(m: Node, ns: seq<Node>)
    requires Size(m) > SizeList(ns)
    ensures Run(Some(m), EventsList(ns)) == Walk([], Some(m))
    decreases ns, 0
  {
    if ns != [] {
      SkippedSubtree(m, ns[0]);
      SkippedSubtreeList(m, ns[1..]);
      RunConcat(Some(m), Events(ns[0]), EventsList(ns[1..]));
    }
  }

  /** The walk of a whole tree, started without a skip, enters exactly
      `Visited(n)` and ends without a skip. */
  lemma {:induction false} WalkVisits(n: Node)
    ensures Run(None, Events(n)) == Walk(Visited(n), None)
    decreases n, 1
  {
    SizeChildren(n);
    match n {
      case Identifier(_) =>
        RunNode(None, n, []);
      case Literal =>
        RunNode(None, n, []);
      case Member(o, p) =>
        SkippedSubtree(n, o);
        SkippedSubtree(n, p);
        RunConcat(Some(n), Events(o), Events(p));
        RunNode(None, n, Events(o) + Events(p));
      case Call(c, args) =>
        SkippedSubtree(n, c);
        SkippedSubtreeList(n, args);
        RunConcat(Some(n), Events(c), EventsList(args));
        RunNode(None, n, Events(c) + EventsList(args));
      case TemplateLiteral(es) =>
        WalkVisitsList(es);
        RunNode(None, n, EventsList(es));
      case Other(cs) =>
        WalkVisitsList(cs);
        RunNode(None, n, EventsList(cs));
    }
  }

  lemma {:induction false} WalkVisitsList(ns: seq<Node>)
    ensures Run(None, EventsList(ns)) == Walk(VisitedList(ns), None)
    decreases ns, 0
  {
    if ns != [] {
      WalkVisits(ns[0]);
      WalkVisitsList(ns[1..]);
      RunConcat(None, Events(ns[0]), EventsList(ns[1..]));
    }
  }

  /** The walk over the template `` `${foo(bar.baz)}` ``: the call is
      acted on, and neither `bar`, `bar.baz` nor `baz` is entered on its own. */
  lemma CallInTemplateExample()
    ensures var call := Call(Identifier("foo"), [Member(Identifier("bar"), Identifier("baz"))]);
      var tree := Other([Other([TemplateLiteral([call])])]);
      Run(None, Events(tree)).entered == [tree, tree.children[0], tree.children[0].children[0], call]
  {
    var call := Call(Identifier("foo"), [Member(Identifier("bar"), Identifier("baz"))]);
    var tree := Other([Other([TemplateLiteral([call])])]);
    WalkVisits(tree);
    var template := TemplateLiteral([call]);
    assert VisitedList([call]) == [call];
    assert Visited(template) == [template, call];
    assert VisitedList([template]) == [template, call];
    assert Visited(Other([template])) == [Other([template]), template, call];
    assert VisitedList([Other([template])]) == [Other([template]), template, call];
  }
}
