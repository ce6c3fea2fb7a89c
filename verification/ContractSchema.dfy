/** Contextual constraints compiled into a JSON schema whose nodes are shared objects: `_schema_nodes_at_path`,
    `_apply_schema_constraint` and `compile_contract` of agents/contract_execution.py. */
module ContractSchema {
  import opened Options
  import opened ContractPaths

  const MAX_RESULT_SHAPE_CONSTRAINTS := 16
  const DEFS := "#/$defs/"

  /** A semantic constraint has a local validator; one that raises has failed. */
  datatype Kind =
    | ExactItems(n: nat)
    | MinItems(n: nat)
    | MaxItems(n: nat)
    | Empty
    | AllowedValues(values: seq<string>)
    | Semantic(validator: Json -> bool)

  datatype Constraint = Constraint(code: string, path: seq<Token>, kind: Kind)

  datatype JsonType = ArrayType | StringType | ObjectType | NumberType | BooleanType | NullType

  /** The keywords of a schema dictionary that constraints may set. */
  datatype Limits = Limits(minItems: Option<nat>, maxItems: Option<nat>, enumeration: Option<seq<string>>)

  /** A schema dictionary: its shape never changes, its limits do. */
  class Node {
    const typ: Option<JsonType>
    const reference: Option<string>
    const properties: map<string, Node>
    const items: Option<Node>
    const prefixItems: nat
    var limits: Limits

    constructor (typ: Option<JsonType>, reference: Option<string>, properties: map<string, Node>, items: Option<Node>,
                 prefixItems: nat, limits: Limits)
      ensures this.typ == typ && this.reference == reference && this.properties == properties && this.items == items
      ensures this.prefixItems == prefixItems && this.limits == limits
    {
      this.typ, this.reference, this.properties, this.items := typ, reference, properties, items;
      this.prefixItems, this.limits := prefixItems, limits;
    }
  }

  datatype Schema = Schema(root: Node, defs: map<string, Node>)

  /** The nodes a schema is made of. */
  ghost predicate Closed(schema: Schema, nodes: set<Node>) {
    && schema.root in nodes
    && (forall name :: name in schema.defs ==> schema.defs[name] in nodes)
    && (forall node :: node in nodes ==>
          && (forall name :: name in node.properties ==> node.properties[name] in nodes)
          && (node.items.Some? ==> node.items.value in nodes))
  }

  // ---------------------------------------------------------------- finding nodes

  /** `_resolve_schema_node`: one level. */
  function Resolve(schema: Schema, node: Node): Node {
    if node.reference.None? || !(DEFS <= node.reference.value) then node
    else
      var name := node.reference.value[|DEFS|..];
      if name in schema.defs then schema.defs[name] else node
  }

  function Child(node: Node, token: Token): Option<Node> {
    match token
    case Name(text) => if text in node.properties then Some(node.properties[text]) else None
    case _ => node.items
  }

  /** The node one token further on. */
  function Next(schema: Schema, node: Node, token: Token): Option<Node> {
    match Child(Resolve(schema, node), token)
    case None => None
    case Some(child) => Some(Resolve(schema, child))
  }

  /** The node at a path, if the schema represents the path. */
  function NodeAt(schema: Schema, path: seq<Token>): Option<Node> {
    if path == [] then Some(schema.root)
    else
      match NodeAt(schema, path[..|path| - 1])
      case None => None
      case Some(node) => Next(schema, node, path[|path| - 1])
  }

  /** The reference of a node names a definition. */
  predicate PointsTo(schema: Schema, node: Node, name: string) {
    node.reference == Some(DEFS + name) && name in schema.defs
  }

  /** Where a reference leads: one level, and nowhere if it names no definition. */
  ghost predicate IsTarget(schema: Schema, node: Node, target: Node) {
    if exists name :: PointsTo(schema, node, name) then
      exists name :: PointsTo(schema, node, name) && target == schema.defs[name]
    else target == node
  }

  lemma ResolvesToTarget(schema: Schema, node: Node, target: Node)
    ensures Resolve(schema, node) == target <==> IsTarget(schema, node, target)
  {
    if node.reference.Some? && DEFS <= node.reference.value {
      var name := node.reference.value[|DEFS|..];
      assert node.reference.value == DEFS + name;
      forall other: string | node.reference.value == DEFS + other
        ensures other == name
      {
        assert (DEFS + other)[|DEFS|..] == other;
      }
      assert name in schema.defs ==> PointsTo(schema, node, name);
    } else {
      forall name: string
        ensures DEFS <= DEFS + name
      {
      }
    }
  }

  /** One token further: through the reference of a node to a property or the items, and on through the reference found
      there. */
  datatype Hop = Hop(from: Node, child: Node, next: Node)

  ghost predicate IsHop(schema: Schema, node: Node, token: Token, hop: Hop) {
    && IsTarget(schema, node, hop.from)
    && (if token.Name? then token.text in hop.from.properties && hop.child == hop.from.properties[token.text]
        else hop.from.items == Some(hop.child))
    && IsTarget(schema, hop.child, hop.next)
  }

  lemma NextIsHop(schema: Schema, node: Node, token: Token, next: Node)
    ensures Next(schema, node, token) == Some(next) <==>
      exists hop :: IsHop(schema, node, token, hop) && hop.next == next
  {
    forall a, b {
      ResolvesToTarget(schema, a, b);
    }
    hide Resolve, IsTarget;
    if Next(schema, node, token) == Some(next) {
      var from := Resolve(schema, node);
      assert IsHop(schema, node, token, Hop(from, Child(from, token).value, next));
    }
  }

  function After(schema: Schema, hops: seq<Hop>): Node {
    if hops == [] then schema.root else hops[|hops| - 1].next
  }

  ghost predicate IsTrail(schema: Schema, path: seq<Token>, hops: seq<Hop>) {
    |hops| == |path| && forall i :: 0 <= i < |path| ==> IsHop(schema, After(schema, hops[..i]), path[i], hops[i])
  }

  lemma {:induction false} TrailTo(schema: Schema, path: seq<Token>, node: Node) returns (hops: seq<Hop>)
    requires NodeAt(schema, path) == Some(node)
    ensures IsTrail(schema, path, hops) && After(schema, hops) == node
  {
    hide Next, IsHop;
    hops := [];
    if path != [] {
      var n := |path| - 1;
      var before := NodeAt(schema, path[..n]).value;
      hops := TrailTo(schema, path[..n], before);
      NextIsHop(schema, before, path[n], node);
      var hop :| IsHop(schema, before, path[n], hop) && hop.next == node;
      LongerTrail(schema, path, hops, hop);
      hops := hops + [hop];
    }
  }

  lemma {:induction false} TrailLeadsTo(schema: Schema, path: seq<Token>, hops: seq<Hop>)
    requires IsTrail(schema, path, hops)
    ensures NodeAt(schema, path) == Some(After(schema, hops))
  {
    hide Next, IsHop;
    if path != [] {
      var n := |path| - 1;
      ShorterTrail(schema, path, hops);
      TrailLeadsTo(schema, path[..n], hops[..n]);
      NextIsHop(schema, After(schema, hops[..n]), path[n], hops[n].next);
    }
  }

  /** A path is represented by a node if and only if a trail of properties, items and references leads there. */
  lemma NodeAtIsTrail(schema: Schema, path: seq<Token>, node: Node)
    ensures NodeAt(schema, path) == Some(node) <==>
      exists hops :: IsTrail(schema, path, hops) && After(schema, hops) == node
  {
    hide NodeAt, IsTrail, After;
    if NodeAt(schema, path) == Some(node) {
      var hops := TrailTo(schema, path, node);
    }
    if hops :| IsTrail(schema, path, hops) && After(schema, hops) == node {
      TrailLeadsTo(schema, path, hops);
    }
  }

  lemma LongerTrail(schema: Schema, path: seq<Token>, hops: seq<Hop>, hop: Hop)
    requires path != [] && IsTrail(schema, path[..|path| - 1], hops)
    requires IsHop(schema, After(schema, hops), path[|path| - 1], hop)
    ensures IsTrail(schema, path, hops + [hop]) && After(schema, hops + [hop]) == hop.next
  {
    hide IsHop;
    var longer := hops + [hop];
    assert forall i :: 0 <= i <= |hops| ==> longer[..i] == hops[..i];
    assert hops[..|hops|] == hops;
  }

  lemma ShorterTrail(schema: Schema, path: seq<Token>, hops: seq<Hop>)
    requires path != [] && IsTrail(schema, path, hops)
    ensures IsTrail(schema, path[..|path| - 1], hops[..|path| - 1])
  {
    hide IsHop;
    var n := |path| - 1;
    assert forall i :: 0 <= i < n ==> hops[..n][..i] == hops[..i];
  }

  lemma {:induction false} NodeAtIsInside(schema: Schema, nodes: set<Node>, path: seq<Token>)
    requires Closed(schema, nodes) && NodeAt(schema, path).Some?
    ensures NodeAt(schema, path).value in nodes
  {
    if path != [] {
      NodeAtIsInside(schema, nodes, path[..|path| - 1]);
    }
  }

  lemma {:induction false} NoWayBack(schema: Schema, path: seq<Token>, i: nat)
    requires i <= |path| && NodeAt(schema, path[..i]).None?
    ensures NodeAt(schema, path).None?
  {
    if i == |path| {
      assert path[..i] == path;
    } else {
      assert path[..|path| - 1][..i] == path[..i];
      NoWayBack(schema, path[..|path| - 1], i);
    }
  }

  /** `_schema_nodes_at_path`: the list never holds more than one node. */
  method SchemaNodesAtPath(schema: Schema, path: seq<Token>) returns (found: seq<Node>)
    ensures found == match NodeAt(schema, path) case None => [] case Some(node) => [node]
  {
    found := [schema.root];
    for i := 0 to |path|
      invariant found == match NodeAt(schema, path[..i]) case None => [] case Some(node) => [node]
    {
      assert path[..i + 1][..i] == path[..i];
      var next: seq<Node> := [];
      for j := 0 to |found|
        invariant |found| <= 1 && found == match NodeAt(schema, path[..i]) case None => [] case Some(node) => [node]
        invariant next ==
          if j == 0 then []
          else match Next(schema, found[0], path[i]) case None => [] case Some(node) => [node]
      {
        var child := Child(Resolve(schema, found[j]), path[i]);
        if child.Some? {
          next := next + [Resolve(schema, child.value)];
        }
      }
      found := next;
    }
    assert path[..|path|] == path;
  }

  // ---------------------------------------------------------------- writing keywords

  datatype Keyword = MinKey | MaxKey | EnumKey

  /** The keywords a constraint sets. */
  function Keywords(kind: Kind): set<Keyword> {
    match kind
    case ExactItems(_) => {MinKey, MaxKey}
    case MinItems(_) => {MinKey}
    case MaxItems(_) => {MaxKey}
    case Empty => {MaxKey}
    case AllowedValues(_) => {EnumKey}
    case Semantic(_) => {}
  }

  /** What a constraint makes of the limits of its node. */
  function Written(limits: Limits, kind: Kind): Limits {
    match kind
    case ExactItems(n) => limits.(minItems := Some(n), maxItems := Some(n))
    case MinItems(n) => limits.(minItems := Some(n))
    case MaxItems(n) => limits.(maxItems := Some(n))
    case Empty => limits.(maxItems := Some(0))
    case AllowedValues(values) => limits.(enumeration := Some(values))
    case Semantic(_) => limits
  }

  predicate IsWritten(limits: Limits, kind: Kind) {
    Written(limits, kind) == limits
  }

  lemma StillWritten(limits: Limits, kind: Kind, later: Kind)
    requires IsWritten(limits, kind) && Keywords(kind) * Keywords(later) == {}
    ensures IsWritten(Written(limits, later), kind)
  {
    assert forall k :: k in Keywords(kind) && k in Keywords(later) ==> k in Keywords(kind) * Keywords(later);
  }

  method WriteKeywords(node: Node, kind: Kind)
    modifies node
    ensures node.limits == Written(old(node.limits), kind)
  {
    match kind {
      case ExactItems(n) =>
        node.limits := node.limits.(minItems := Some(n));
        node.limits := node.limits.(maxItems := Some(n));
      case MinItems(n) =>
        node.limits := node.limits.(minItems := Some(n));
      case MaxItems(n) =>
        node.limits := node.limits.(maxItems := Some(n));
      case Empty =>
        node.limits := node.limits.(maxItems := Some(0));
      case AllowedValues(values) =>
        node.limits := node.limits.(enumeration := Some(values));
      case Semantic(_) =>
    }
  }

  /** `_apply_schema_constraint`; false where it raises. */
  method Apply(schema: Schema, c: Constraint, ghost nodes: set<Node>) returns (ok: bool)
    requires Closed(schema, nodes)
    modifies nodes
    ensures ok <==> NodeAt(schema, c.path).Some?
    ensures forall node :: node in nodes ==>
      node.limits ==
        if NodeAt(schema, c.path) == Some(node) then Written(old(node.limits), c.kind) else old(node.limits)
  {
    var found := SchemaNodesAtPath(schema, c.path);
    if found == [] {
      return false;
    }
    NodeAtIsInside(schema, nodes, c.path);
    WriteKeywords(found[0], c.kind);
    return true;
  }

  /** Whether two constraints set a keyword of the same node. */
  predicate Collide(schema: Schema, a: Constraint, b: Constraint) {
    NodeAt(schema, a.path) == NodeAt(schema, b.path) && Keywords(a.kind) * Keywords(b.kind) != {}
  }

  /** No later constraint overwrites the `i`th. */
  predicate Survives(schema: Schema, cs: seq<Constraint>, i: nat, upTo: nat)
    requires i < upTo <= |cs|
  {
    forall j :: i < j < upTo ==> !Collide(schema, cs[i], cs[j])
  }

  /** The constraints of `compile_contract` that are applied. */
  function Bounded(cs: seq<Constraint>): (r: seq<Constraint>)
    ensures r <= cs && |r| <= 16 && (|r| < |cs| ==> |r| == 16)
  {
    if |cs| <= MAX_RESULT_SHAPE_CONSTRAINTS then cs else cs[..MAX_RESULT_SHAPE_CONSTRAINTS]
  }

  /** The limits of a node after the first `upTo` constraints. */
  function LimitsAfter(schema: Schema, cs: seq<Constraint>, upTo: nat, node: Node, limits: Limits): Limits
    requires upTo <= |cs|
  {
    if upTo == 0 then limits
    else
      var before := LimitsAfter(schema, cs, upTo - 1, node, limits);
      if NodeAt(schema, cs[upTo - 1].path) == Some(node) then Written(before, cs[upTo - 1].kind) else before
  }

  /** `compile_contract`: constraints are applied in order; false where one cannot be represented. */
  method Compile(schema: Schema, constraints: seq<Constraint>, ghost nodes: set<Node>) returns (ok: bool)
    requires Closed(schema, nodes)
    modifies nodes
    ensures ok <==> forall i :: 0 <= i < |Bounded(constraints)| ==> NodeAt(schema, Bounded(constraints)[i].path).Some?
    ensures ok ==> forall node :: node in nodes ==>
      var cs := Bounded(constraints); node.limits == LimitsAfter(schema, cs, |cs|, node, old(node.limits))
  {
    hide NodeAt, Closed, Written;
    var cs := Bounded(constraints);
    for j := 0 to |cs|
      invariant forall i :: 0 <= i < j ==> NodeAt(schema, cs[i].path).Some?
      invariant forall node :: node in nodes ==> node.limits == LimitsAfter(schema, cs, j, node, old(node.limits))
    {
      ok := Apply(schema, cs[j], nodes);
      if !ok {
        return;
      }
    }
    return true;
  }

  /** A constraint that no later one overwrites is still in the compiled schema. */
  lemma {:induction false} SurvivorIsWritten(
      schema: Schema, cs: seq<Constraint>, i: nat, upTo: nat, node: Node, limits: Limits)
    requires i < upTo <= |cs| && NodeAt(schema, cs[i].path) == Some(node) && Survives(schema, cs, i, upTo)
    ensures IsWritten(LimitsAfter(schema, cs, upTo, node, limits), cs[i].kind)
  {
    if i + 1 < upTo {
      assert !Collide(schema, cs[i], cs[upTo - 1]);
      SurvivorIsWritten(schema, cs, i, upTo - 1, node, limits);
      var before := LimitsAfter(schema, cs, upTo - 1, node, limits);
      if NodeAt(schema, cs[upTo - 1].path) == Some(node) {
        StillWritten(before, cs[i].kind, cs[upTo - 1].kind);
      }
    }
  }
}
