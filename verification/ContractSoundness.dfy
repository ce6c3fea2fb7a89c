/** What a compiled schema accepts against what the local check accepts: `validate_result_shape` of
    agents/contract_execution.py. */
module ContractSoundness {
  import opened Options
  import opened ContractPaths
  import opened ContractSchema
  import opened PathInstances

  // ---------------------------------------------------------------- what a schema accepts

  predicate HasType(v: Json, typ: JsonType) {
    match typ
    case ArrayType => v.Arr?
    case StringType => v.Str?
    case ObjectType => v.Obj?
    case NumberType => v.Num?
    case BooleanType => v.Bool?
    case NullType => v.Null?
  }

  /** What the type and the limits of a node say of a value, whatever is inside it. */
  predicate Allowed(typ: Option<JsonType>, limits: Limits, v: Json) {
    && (typ.Some? ==> HasType(v, typ.value))
    && (v.Arr? && limits.minItems.Some? ==> |v.items| >= limits.minItems.value)
    && (v.Arr? && limits.maxItems.Some? ==> |v.items| <= limits.maxItems.value)
    && (limits.enumeration.Some? ==> v.Str? && v.text in limits.enumeration.value)
  }

  /** JSON Schema validation draft 2020-12 of the keywords that matter here, to a depth. */
  ghost predicate ValidTo(n: nat, schema: Schema, nodes: set<Node>, node: Node, v: Json)
    requires Closed(schema, nodes) && node in nodes
    reads nodes
  {
    n == 0 || (
      && Allowed(node.typ, node.limits, v)
      && (v.Obj? ==> forall name :: name in node.properties && name in v.members ==>
            ValidTo(n - 1, schema, nodes, node.properties[name], v.members[name]))
      && (v.Arr? && node.items.Some? ==> forall i :: node.prefixItems <= i < |v.items| ==>
            ValidTo(n - 1, schema, nodes, node.items.value, v.items[i]))
      && (Resolve(schema, node) != node ==> ValidTo(n - 1, schema, nodes, Resolve(schema, node), v))
    )
  }

  /** The node accepts the value, to every depth. */
  ghost predicate Takes(schema: Schema, nodes: set<Node>, node: Node, v: Json)
    requires Closed(schema, nodes) && node in nodes
    reads nodes
  {
    forall n: nat :: ValidTo(n, schema, nodes, node, v)
  }

  ghost predicate Valid(schema: Schema, nodes: set<Node>, v: Json)
    requires Closed(schema, nodes)
    reads nodes
  {
    Takes(schema, nodes, schema.root, v)
  }

  lemma {:induction false} ValidToLess(n: nat, schema: Schema, nodes: set<Node>, node: Node, v: Json)
    requires Closed(schema, nodes) && node in nodes && ValidTo(n + 1, schema, nodes, node, v)
    ensures ValidTo(n, schema, nodes, node, v)
  {
    hide Allowed;
    if n > 0 {
      if v.Obj? {
        forall name | name in node.properties && name in v.members
          ensures ValidTo(n - 1, schema, nodes, node.properties[name], v.members[name])
        {
          ValidToLess(n - 1, schema, nodes, node.properties[name], v.members[name]);
        }
      }
      if v.Arr? && node.items.Some? {
        forall i | node.prefixItems <= i < |v.items|
          ensures ValidTo(n - 1, schema, nodes, node.items.value, v.items[i])
        {
          ValidToLess(n - 1, schema, nodes, node.items.value, v.items[i]);
        }
      }
      if Resolve(schema, node) != node {
        ValidToLess(n - 1, schema, nodes, Resolve(schema, node), v);
      }
    }
  }

  lemma ValidResolved(n: nat, schema: Schema, nodes: set<Node>, node: Node, v: Json)
    requires Closed(schema, nodes) && node in nodes && ValidTo(n + 1, schema, nodes, node, v)
    ensures ValidTo(n, schema, nodes, Resolve(schema, node), v)
  {
    if Resolve(schema, node) == node {
      ValidToLess(n, schema, nodes, node, v);
    }
  }

  // ---------------------------------------------------------------- what the local check accepts

  /** `_constraint_value_is_valid`. */
  predicate Passes(kind: Kind, v: Json) {
    match kind
    case AllowedValues(values) => v.Str? && v.text in values
    case ExactItems(n) => v.Arr? && |v.items| == n
    case MinItems(n) => v.Arr? && |v.items| >= n
    case MaxItems(n) => v.Arr? && |v.items| <= n
    case Empty => v.Arr? && |v.items| <= 0
    case Semantic(validator) => validator(v)
  }

  predicate Accepts(c: Constraint, payload: Json) {
    var values := ValuesAt([payload], c.path);
    values != [] && forall i :: 0 <= i < |values| ==> Passes(c.kind, values[i])
  }

  /** The failures, in order, of the constraints that are not met. */
  function Failures(cs: seq<Constraint>, payload: Json): seq<(string, seq<Token>)> {
    if cs == [] then []
    else
      var n := |cs| - 1;
      Failures(cs[..n], payload) + if Accepts(cs[n], payload) then [] else [(cs[n].code, cs[n].path)]
  }

  /** One turn of the loop over the constraints. */
  method CheckConstraint(payload: Json, c: Constraint) returns (valid: bool)
    ensures valid == Accepts(c, payload)
    ensures c.kind.Semantic? ==> var values := ValuesAt([payload], c.path);
      valid == (values != [] && forall i :: 0 <= i < |values| ==> c.kind.validator(values[i]))
  {
    var values := ValuesAtPath(payload, c.path);
    for j := 0 to |values|
      invariant forall k :: 0 <= k < j ==> Passes(c.kind, values[k])
    {
      if !Passes(c.kind, values[j]) {
        return false;
      }
    }
    return values != [];
  }

  /** `validate_result_shape`. */
  method ValidateResultShape(payload: Json, constraints: seq<Constraint>) returns (failures: seq<(string, seq<Token>)>)
    ensures failures == Failures(Bounded(constraints), payload)
  {
    hide Accepts;
    var cs := Bounded(constraints);
    failures := [];
    for i := 0 to |cs|
      invariant failures == Failures(cs[..i], payload)
    {
      assert cs[..i + 1][..i] == cs[..i];
      var valid := CheckConstraint(payload, cs[i]);
      if !valid {
        failures := failures + [(cs[i].code, cs[i].path)];
      }
    }
    assert cs[..|cs|] == cs;
  }

  lemma {:induction false} NoFailures(cs: seq<Constraint>, payload: Json)
    ensures Failures(cs, payload) == [] <==> forall i :: 0 <= i < |cs| ==> Accepts(cs[i], payload)
  {
    hide Accepts;
    if cs != [] {
      NoFailures(cs[..|cs| - 1], payload);
      assert cs == cs[..|cs| - 1] + [cs[|cs| - 1]];
    }
  }

  /** A constraint is met if and only if its path leads to a value, and every value it leads to passes. */
  lemma AcceptsIfAllPass(c: Constraint, payload: Json)
    ensures Accepts(c, payload) <==>
      && (exists steps :: IsInstance(c.path, steps) && Reach(payload, steps).Some?)
      && (forall steps :: IsInstance(c.path, steps) && Reach(payload, steps).Some? ==>
            Passes(c.kind, Reach(payload, steps).value))
  {
    hide Passes, Reach, IsInstance, ValuesAt;
    var found := ValuesAreReached(payload, c.path);
    var values := ValuesAt([payload], c.path);
    if values != [] {
      assert found[0] in found;
    }
    if steps :| IsInstance(c.path, steps) && Reach(payload, steps).Some? {
      assert steps in found;
    }
    if Accepts(c, payload) {
      forall steps | IsInstance(c.path, steps) && Reach(payload, steps).Some?
        ensures Passes(c.kind, Reach(payload, steps).value)
      {
        var k :| 0 <= k < |found| && found[k] == steps;
        assert Passes(c.kind, values[k]);
      }
    } else if k :| 0 <= k < |values| && !Passes(c.kind, values[k]) {
      assert found[k] in found;
    }
  }

  /** One element that does not pass, under whatever wildcard, is enough for the constraint to be named. */
  lemma OneElementFails(cs: seq<Constraint>, payload: Json, i: nat, steps: seq<Step>)
    requires i < |cs| && IsInstance(cs[i].path, steps) && Reach(payload, steps).Some?
    requires !Passes(cs[i].kind, Reach(payload, steps).value)
    ensures (cs[i].code, cs[i].path) in Failures(cs, payload)
  {
    hide Accepts, Passes, Reach, IsInstance, Failures;
    AcceptsIfAllPass(cs[i], payload);
    var at := FailuresAre(cs, payload);
    assert Unmet(cs, payload, i);
    var k :| 0 <= k < |at| && at[k] == i;
    assert Failures(cs, payload)[k] == (cs[i].code, cs[i].path);
  }

  predicate Unmet(cs: seq<Constraint>, payload: Json, i: nat) {
    i < |cs| && !Accepts(cs[i], payload)
  }

  /** The positions of exactly the constraints that are not met, in order. */
  ghost predicate AreUnmet(at: seq<nat>, cs: seq<Constraint>, payload: Json) {
    && (forall i: nat :: i in at <==> Unmet(cs, payload, i))
    && (forall j, k :: 0 <= j < k < |at| ==> at[j] < at[k])
  }

  /** The failures name exactly the constraints that are not met, in their order. */
  lemma {:induction false} FailuresAre(cs: seq<Constraint>, payload: Json) returns (at: seq<nat>)
    ensures AreUnmet(at, cs, payload) && |at| == |Failures(cs, payload)|
    ensures forall k :: 0 <= k < |at| ==>
      at[k] < |cs| && Failures(cs, payload)[k] == (cs[at[k]].code, cs[at[k]].path)
  {
    hide Accepts;
    at := [];
    if cs != [] {
      var n := |cs| - 1;
      var front := FailuresAre(cs[..n], payload);
      at := if Accepts(cs[n], payload) then front else front + [n];
      UnmetNext(front, cs, payload, at);
      hide Unmet, AreUnmet;
    }
  }

  lemma UnmetNext(front: seq<nat>, cs: seq<Constraint>, payload: Json, at: seq<nat>)
    requires cs != [] && AreUnmet(front, cs[..|cs| - 1], payload)
    requires at == if Accepts(cs[|cs| - 1], payload) then front else front + [|cs| - 1]
    ensures AreUnmet(at, cs, payload)
  {
    hide Accepts;
    var n := |cs| - 1;
    forall i: nat
      ensures i in at <==> Unmet(cs, payload, i)
      ensures i in front ==> i < n
    {
      assert i in front <==> Unmet(cs[..n], payload, i);
    }
    forall k | 0 <= k < |front|
      ensures front[k] < n
    {
      assert front[k] in front;
    }
    hide Unmet;
  }

  // ---------------------------------------------------------------- soundness

  /** `*` is used only on array-typed nodes, and `items` governs every element. */
  predicate StepsAreArrays(schema: Schema, path: seq<Token>) {
    forall i :: 0 <= i < |path| && !path[i].Name? && NodeAt(schema, path[..i]).Some? ==>
      var node := Resolve(schema, NodeAt(schema, path[..i]).value);
      node.prefixItems == 0 && (path[i].Wildcard? ==> node.typ == Some(ArrayType))
  }

  lemma ValidStep(n: nat, schema: Schema, nodes: set<Node>, node: Node, token: Token, u: Json, v: Json)
    requires Closed(schema, nodes) && node in nodes && ValidTo(n + 3, schema, nodes, node, u)
    requires Next(schema, node, token).Some? && v in Select(u, token)
    requires !token.Name? ==> Resolve(schema, node).prefixItems == 0
    requires token.Wildcard? ==> Resolve(schema, node).typ == Some(ArrayType)
    ensures ValidTo(n, schema, nodes, Next(schema, node, token).value, v)
  {
    ValidResolved(n + 2, schema, nodes, node, u);
    var child := Child(Resolve(schema, node), token).value;
    assert ValidTo(n + 1, schema, nodes, child, v) by {
      hide Allowed;
    }
    ValidResolved(n, schema, nodes, child, v);
  }

  /** Whatever a valid payload has at a path is valid for the node the compiler finds there. */
  lemma {:induction false} ValuesAreValid(
      n: nat, schema: Schema, nodes: set<Node>, path: seq<Token>, payload: Json, v: Json)
    requires Closed(schema, nodes) && Valid(schema, nodes, payload)
    requires NodeAt(schema, path).Some? && StepsAreArrays(schema, path) && v in ValuesAt([payload], path)
    ensures NodeAt(schema, path).value in nodes && ValidTo(n, schema, nodes, NodeAt(schema, path).value, v)
    decreases |path|
  {
    hide Next, Select, SelectAll, HasType, Resolve;
    NodeAtIsInside(schema, nodes, path);
    if path != [] {
      var front, token := path[..|path| - 1], path[|path| - 1];
      var k := SelectedFrom(ValuesAt([payload], front), token, v);
      var u := ValuesAt([payload], front)[k];
      StepsOfFront(schema, path);
      ValuesAreValid(n + 3, schema, nodes, front, payload, u);
      ValidStep(n, schema, nodes, NodeAt(schema, front).value, token, u, v);
    }
  }

  lemma StepsOfFront(schema: Schema, path: seq<Token>)
    requires StepsAreArrays(schema, path) && path != []
    ensures StepsAreArrays(schema, path[..|path| - 1])
  {
    var front := path[..|path| - 1];
    assert forall i :: 0 <= i < |front| ==> front[..i] == path[..i] && front[i] == path[i];
  }

  // ---------------------------------------------------------------- what limits guarantee

  function Least(limits: Limits): nat {
    if limits.minItems.Some? then limits.minItems.value else 0
  }

  predicate AtMost(limits: Limits, n: nat) {
    limits.maxItems.Some? && limits.maxItems.value <= n
  }

  /** The type and limits of a node imply a constraint, whoever wrote them. */
  predicate Guarantees(typ: Option<JsonType>, limits: Limits, kind: Kind) {
    match kind
    case ExactItems(n) => typ == Some(ArrayType) && Least(limits) >= n && AtMost(limits, n)
    case MinItems(n) => typ == Some(ArrayType) && Least(limits) >= n
    case MaxItems(n) => typ == Some(ArrayType) && AtMost(limits, n)
    case Empty => typ == Some(ArrayType) && AtMost(limits, 0)
    case AllowedValues(values) =>
      && limits.enumeration.Some?
      && forall k :: 0 <= k < |limits.enumeration.value| ==> limits.enumeration.value[k] in values
    case Semantic(_) => false
  }

  /** Some value has the type and keeps the limits. */
  predicate Satisfiable(typ: Option<JsonType>, limits: Limits) {
    if limits.enumeration.Some? then limits.enumeration.value != [] && typ in {None, Some(StringType)}
    else typ == Some(ArrayType) && limits.maxItems.Some? ==> Least(limits) <= limits.maxItems.value
  }

  /** The limits without what a constraint would set. */
  function Cleared(limits: Limits, kind: Kind): Limits {
    Limits(
      if MinKey in Keywords(kind) then None else limits.minItems,
      if MaxKey in Keywords(kind) then None else limits.maxItems,
      if EnumKey in Keywords(kind) then None else limits.enumeration)
  }

  /** Writing a constraint asks for exactly what the constraint asks for, besides what was asked for in other ways. */
  lemma WritesExactly(typ: Option<JsonType>, limits: Limits, kind: Kind, v: Json)
    requires !kind.Semantic? && (kind.AllowedValues? || typ == Some(ArrayType))
    ensures Allowed(typ, Written(limits, kind), v) <==> Allowed(typ, Cleared(limits, kind), v) && Passes(kind, v)
  {
  }

  /** The compiled limits of a node reject no value that the original ones allow and the node's constraints pass. */
  lemma {:induction false} CompilingAdmits(
      schema: Schema, cs: seq<Constraint>, upTo: nat, node: Node, limits: Limits, v: Json)
    requires upTo <= |cs| && Allowed(node.typ, limits, v)
    requires forall i :: 0 <= i < upTo && NodeAt(schema, cs[i].path) == Some(node) ==>
      Passes(cs[i].kind, v) && (cs[i].kind.Semantic? || EndFits(node, cs[i].kind))
    ensures Allowed(node.typ, LimitsAfter(schema, cs, upTo, node, limits), v)
  {
    hide NodeAt, Allowed, Passes;
    if upTo > 0 {
      CompilingAdmits(schema, cs, upTo - 1, node, limits, v);
      var before, kind := LimitsAfter(schema, cs, upTo - 1, node, limits), cs[upTo - 1].kind;
      if NodeAt(schema, cs[upTo - 1].path) == Some(node) && !kind.Semantic? {
        WritesExactly(node.typ, before, kind, v);
        ClearedAllows(node.typ, before, kind, v);
      }
    }
  }

  lemma ClearedAllows(typ: Option<JsonType>, limits: Limits, kind: Kind, v: Json)
    requires Allowed(typ, limits, v)
    ensures Allowed(typ, Cleared(limits, kind), v)
  {
  }

  function Repeat(x: Json, n: nat): (r: seq<Json>)
    ensures |r| == n && forall i :: 0 <= i < n ==> r[i] == x
  {
    seq(n, i => x)
  }

  /** A text longer than every listed one. */
  function Longer(values: seq<string>): string {
    if values == [] then ""
    else
      var rest := Longer(values[1..]);
      if |rest| > |values[0]| then rest else values[0] + "."
  }

  lemma {:induction false} LongerIsNew(values: seq<string>)
    ensures forall k :: 0 <= k < |values| ==> |values[k]| < |Longer(values)|
  {
    if values != [] {
      LongerIsNew(values[1..]);
      assert forall k :: 1 <= k < |values| ==> values[k] == values[1..][k - 1];
    }
  }

  function FirstOutside(listed: seq<string>, values: seq<string>): (text: string)
    requires exists k :: 0 <= k < |listed| && listed[k] !in values
    ensures text in listed && text !in values
  {
    if listed[0] !in values then listed[0] else FirstOutside(listed[1..], values)
  }

  /** A value of the type, made of `x` where it needs elements, that keeps the limits and fails the constraint. */
  function Rejected(typ: Option<JsonType>, limits: Limits, kind: Kind, x: Json): Json
    requires Satisfiable(typ, limits) && !Guarantees(typ, limits, kind) && !kind.Semantic?
  {
    if limits.enumeration.Some? then
      var listed := limits.enumeration.value;
      if kind.AllowedValues? then
        Str(FirstOutside(listed, kind.values))
      else Str(listed[0])
    else
      match typ
      case None => Null
      case Some(NullType) => Null
      case Some(BooleanType) => Bool(true)
      case Some(NumberType) => Num(0)
      case Some(ObjectType) => Obj(map[])
      case Some(StringType) => Str(if kind.AllowedValues? then Longer(kind.values) else "")
      case Some(ArrayType) => Arr(Repeat(x, RejectedSize(limits, kind)))
  }

  function RejectedSize(limits: Limits, kind: Kind): nat {
    var least := Least(limits);
    match kind
    case ExactItems(n) => if least == n then n + 1 else least
    case MaxItems(n) => if least <= n then n + 1 else least
    case Empty => if least == 0 then 1 else least
    case _ => least
  }

  lemma RejectedIsAllowed(typ: Option<JsonType>, limits: Limits, kind: Kind, x: Json)
    requires Satisfiable(typ, limits) && !Guarantees(typ, limits, kind) && !kind.Semantic?
    ensures Allowed(typ, limits, Rejected(typ, limits, kind, x)) && !Passes(kind, Rejected(typ, limits, kind, x))
  {
    if kind.AllowedValues? {
      LongerIsNew(kind.values);
    }
  }

  /** On limits that some value keeps, the guarantee is exact. */
  lemma GuaranteesIsExact(typ: Option<JsonType>, limits: Limits, kind: Kind)
    requires Satisfiable(typ, limits) && !kind.Semantic?
    ensures Guarantees(typ, limits, kind) <==> forall v :: Allowed(typ, limits, v) ==> Passes(kind, v)
  {
    if !Guarantees(typ, limits, kind) {
      RejectedIsAllowed(typ, limits, kind, Null);
    }
  }

  lemma AllowedIsSatisfiable(typ: Option<JsonType>, limits: Limits, v: Json)
    requires Allowed(typ, limits, v)
    ensures Satisfiable(typ, limits)
  {
  }

  /** A constraint the compiled limits guarantee holds of every value that a valid payload has at its path. */
  lemma GuaranteedConstraintHolds(schema: Schema, nodes: set<Node>, c: Constraint, payload: Json)
    requires Closed(schema, nodes) && Valid(schema, nodes, payload)
    requires NodeAt(schema, c.path).Some? && StepsAreArrays(schema, c.path)
    requires var node := NodeAt(schema, c.path).value; Guarantees(node.typ, node.limits, c.kind)
    ensures Accepts(c, payload) <==> ValuesAt([payload], c.path) != []
  {
    var values := ValuesAt([payload], c.path);
    forall i | 0 <= i < |values|
      ensures Passes(c.kind, values[i])
    {
      ValuesAreValid(1, schema, nodes, c.path, payload, values[i]);
    }
  }

  // ---------------------------------------------------------------- and what they do not

  /** A node that refers to a definition says nothing else, and definitions are not references again. */
  predicate RefersOnly(schema: Schema, node: Node)
    reads node
  {
    Resolve(schema, node) != node ==>
      && node.typ.None? && node.properties == map[] && node.items.None? && node.limits == Limits(None, None, None)
      && Resolve(schema, Resolve(schema, node)) == Resolve(schema, node)
  }

  ghost predicate Plain(schema: Schema, nodes: set<Node>)
    reads nodes
  {
    forall node :: node in nodes ==> RefersOnly(schema, node)
  }

  lemma TakesReferred(schema: Schema, nodes: set<Node>, node: Node, v: Json)
    requires Closed(schema, nodes) && node in nodes && RefersOnly(schema, node)
    ensures Takes(schema, nodes, node, v) <==> Takes(schema, nodes, Resolve(schema, node), v)
  {
    var target := Resolve(schema, node);
    if Takes(schema, nodes, node, v) {
      forall n: nat
        ensures ValidTo(n, schema, nodes, target, v)
      {
        ValidResolved(n, schema, nodes, node, v);
      }
    } else if target != node && Takes(schema, nodes, target, v) {
      forall n: nat
        ensures ValidTo(n, schema, nodes, node, v)
      {
        assert n > 0 ==> ValidTo(n - 1, schema, nodes, target, v);
      }
    }
  }

  /** The value with the member or one element that the token selects as `v` replaced by `w`. */
  function Replaced(u: Json, token: Token, v: Json, w: Json): Json
    requires v in Select(u, token)
  {
    match token
    case Name(text) => Obj(u.members[text := w])
    case Index(n) => Arr(u.items[n := w])
    case Wildcard => if u.Arr? then Arr(u.items[IndexOf(u.items, v) := w]) else Obj(u.members["*" := w])
  }

  function IndexOf(items: seq<Json>, v: Json): (i: nat)
    requires v in items
    ensures i < |items| && items[i] == v
  {
    if items[0] == v then 0 else 1 + IndexOf(items[1..], v)
  }

  lemma ReplacedIsSelected(u: Json, token: Token, v: Json, w: Json)
    requires v in Select(u, token) && (token.Wildcard? ==> u.Arr?)
    ensures w in Select(Replaced(u, token, v, w), token)
  {
    if token.Wildcard? {
      assert Replaced(u, token, v, w).items[IndexOf(u.items, v)] == w;
    }
  }

  /** A node without a reference that takes a value takes it with one part exchanged for another its child takes. */
  lemma TakesReplaced(schema: Schema, nodes: set<Node>, node: Node, token: Token, u: Json, v: Json, w: Json)
    requires Closed(schema, nodes) && node in nodes && Resolve(schema, node) == node
    requires Takes(schema, nodes, node, u) && v in Select(u, token)
    requires Child(node, token).Some? && Takes(schema, nodes, Child(node, token).value, w)
    requires token.Wildcard? ==> u.Arr?
    ensures Takes(schema, nodes, node, Replaced(u, token, v, w))
  {
    var t := Replaced(u, token, v, w);
    assert ValidTo(1, schema, nodes, node, u);
    forall n: nat
      ensures ValidTo(n, schema, nodes, node, t)
    {
      if n > 0 {
        assert ValidTo(n, schema, nodes, node, u) && ValidTo(n - 1, schema, nodes, Child(node, token).value, w);
      }
    }
  }

  /** One step up: the parent still takes the value around an exchanged part. */
  lemma StepUp(schema: Schema, nodes: set<Node>, node: Node, token: Token, u: Json, v: Json, w: Json)
    requires Closed(schema, nodes) && Plain(schema, nodes) && node in nodes
    requires Takes(schema, nodes, node, u) && v in Select(u, token)
    requires Next(schema, node, token).Some? && Next(schema, node, token).value in nodes
    requires Takes(schema, nodes, Next(schema, node, token).value, w)
    requires token.Wildcard? ==> u.Arr?
    ensures Takes(schema, nodes, node, Replaced(u, token, v, w))
  {
    hide Takes, Select, Replaced;
    var target := Resolve(schema, node);
    TakesReferred(schema, nodes, node, u);
    TakesReferred(schema, nodes, Child(target, token).value, w);
    TakesReplaced(schema, nodes, target, token, u, v, w);
    TakesReferred(schema, nodes, node, Replaced(u, token, v, w));
  }

  lemma {:induction false} SelectedInto(values: seq<Json>, token: Token, u: Json, v: Json)
    requires u in values && v in Select(u, token)
    ensures v in SelectAll(values, token)
  {
    var n := |values| - 1;
    if u != values[n] {
      assert u in values[..n];
      SelectedInto(values[..n], token, u, v);
    }
  }

  lemma TakesAll(schema: Schema, nodes: set<Node>, path: seq<Token>, payload: Json, v: Json)
    requires Closed(schema, nodes) && Valid(schema, nodes, payload)
    requires NodeAt(schema, path).Some? && StepsAreArrays(schema, path) && v in ValuesAt([payload], path)
    ensures NodeAt(schema, path).value in nodes && Takes(schema, nodes, NodeAt(schema, path).value, v)
  {
    NodeAtIsInside(schema, nodes, path);
    forall n: nat
      ensures ValidTo(n, schema, nodes, NodeAt(schema, path).value, v)
    {
      ValuesAreValid(n, schema, nodes, path, payload, v);
    }
  }

  /** In a valid payload a value can be exchanged for any other that the node at its path takes. */
  lemma {:induction false} Exchanged(
      schema: Schema, nodes: set<Node>, path: seq<Token>, payload: Json, v: Json, w: Json) returns (changed: Json)
    requires Closed(schema, nodes) && Plain(schema, nodes) && Valid(schema, nodes, payload)
    requires NodeAt(schema, path).Some? && StepsAreArrays(schema, path) && v in ValuesAt([payload], path)
    requires NodeAt(schema, path).value in nodes && Takes(schema, nodes, NodeAt(schema, path).value, w)
    ensures Valid(schema, nodes, changed) && w in ValuesAt([changed], path)
    decreases |path|
  {
    hide Takes, Next, Select, SelectAll, Replaced, Resolve, RefersOnly, Plain;
    if path == [] {
      changed := w;
    } else {
      var front, token := path[..|path| - 1], path[|path| - 1];
      var k := SelectedFrom(ValuesAt([payload], front), token, v);
      var u := ValuesAt([payload], front)[k];
      StepsOfFront(schema, path);
      TakesAll(schema, nodes, front, payload, u);
      WildcardOnArray(schema, nodes, path, u);
      StepUp(schema, nodes, NodeAt(schema, front).value, token, u, v, w);
      ReplacedIsSelected(u, token, v, w);
      changed := Exchanged(schema, nodes, front, payload, u, Replaced(u, token, v, w));
      SelectedInto(ValuesAt([changed], front), token, Replaced(u, token, v, w), w);
    }
  }

  lemma WildcardOnArray(schema: Schema, nodes: set<Node>, path: seq<Token>, u: Json)
    requires Closed(schema, nodes) && path != [] && StepsAreArrays(schema, path)
    requires NodeAt(schema, path[..|path| - 1]).Some? && NodeAt(schema, path[..|path| - 1]).value in nodes
    requires Takes(schema, nodes, NodeAt(schema, path[..|path| - 1]).value, u)
    ensures path[|path| - 1].Wildcard? ==> u.Arr?
  {
    var node := NodeAt(schema, path[..|path| - 1]).value;
    assert ValidTo(2, schema, nodes, node, u);
    ValidResolved(1, schema, nodes, node, u);
  }

  /** What the node takes of the values its limits allow. */
  lemma RejectedIsTaken(schema: Schema, nodes: set<Node>, node: Node, kind: Kind, x: Json)
    requires Closed(schema, nodes) && node in nodes && Resolve(schema, node) == node
    requires Satisfiable(node.typ, node.limits) && !Guarantees(node.typ, node.limits, kind) && !kind.Semantic?
    requires node.items.Some? ==> Takes(schema, nodes, node.items.value, x)
    ensures Takes(schema, nodes, node, Rejected(node.typ, node.limits, kind, x))
  {
    var w := Rejected(node.typ, node.limits, kind, x);
    RejectedIsAllowed(node.typ, node.limits, kind, x);
    hide Allowed, Guarantees, Satisfiable;
    forall n: nat
      ensures ValidTo(n, schema, nodes, node, w)
    {
      if n > 0 && node.items.Some? {
        assert ValidTo(n - 1, schema, nodes, node.items.value, x);
      }
    }
  }

  /** The nodes hold what compiling `cs` made of their `original` limits. */
  ghost predicate IsCompiled(schema: Schema, nodes: set<Node>, original: map<Node, Limits>, cs: seq<Constraint>)
    reads nodes
  {
    forall node :: node in nodes ==>
      node in original && node.limits == LimitsAfter(schema, cs, |cs|, node, original[node])
  }

  /** Constraints that a schema can express at their path. */
  predicate Expressible(schema: Schema, c: Constraint) {
    NodeAt(schema, c.path).Some? && StepsAreArrays(schema, c.path) && !c.kind.Semantic?
  }

  /** Whether the limits that compilation leaves at the path of the `i`th constraint guarantee it. */
  predicate Kept(schema: Schema, original: map<Node, Limits>, cs: seq<Constraint>, i: nat)
    requires i < |cs| && NodeAt(schema, cs[i].path).Some? && NodeAt(schema, cs[i].path).value in original
  {
    var node := NodeAt(schema, cs[i].path).value;
    Guarantees(node.typ, LimitsAfter(schema, cs, |cs|, node, original[node]), cs[i].kind)
  }

  /** The guarantee, or a payload that the schema accepts and the local check rejects. */
  lemma LostConstraintFails(schema: Schema, nodes: set<Node>, c: Constraint, payload: Json, x: Json) returns (bad: Json)
    requires Closed(schema, nodes) && Plain(schema, nodes) && Valid(schema, nodes, payload)
    requires Expressible(schema, c) && c.path != [] && ValuesAt([payload], c.path) != []
    requires var node := NodeAt(schema, c.path).value;
      node in nodes && !Guarantees(node.typ, node.limits, c.kind)
      && (node.items.Some? ==> Takes(schema, nodes, node.items.value, x))
    ensures Valid(schema, nodes, bad) && ValuesAt([bad], c.path) != [] && !Accepts(c, bad)
  {
    var node := NodeAt(schema, c.path).value;
    var v := ValuesAt([payload], c.path)[0];
    NodeAtIsResolved(schema, nodes, c.path);
    ValuesAreValid(1, schema, nodes, c.path, payload, v);
    AllowedIsSatisfiable(node.typ, node.limits, v);
    RejectedIsTaken(schema, nodes, node, c.kind, x);
    RejectedIsAllowed(node.typ, node.limits, c.kind, x);
    var w := Rejected(node.typ, node.limits, c.kind, x);
    bad := Exchanged(schema, nodes, c.path, payload, v, w);
  }

  lemma NodeAtIsResolved(schema: Schema, nodes: set<Node>, path: seq<Token>)
    requires Closed(schema, nodes) && Plain(schema, nodes) && path != [] && NodeAt(schema, path).Some?
    ensures Resolve(schema, NodeAt(schema, path).value) == NodeAt(schema, path).value
  {
    NodeAtIsInside(schema, nodes, path[..|path| - 1]);
    var parent := NodeAt(schema, path[..|path| - 1]).value;
    var child := Child(Resolve(schema, parent), path[|path| - 1]).value;
    assert child in nodes && RefersOnly(schema, child);
  }

  /**
    * Main result, exact: compiled into a plain schema, a constraint holds of all the payloads that the schema accepts
    * and that have a value at its path if and only if the limits left at its node guarantee it. `payload` shows that
    * there is a value at the path at all, `x` that the elements of a list there can be filled in.
    */
  lemma CompiledConstraintIsExact(
      schema: Schema, nodes: set<Node>, original: map<Node, Limits>, cs: seq<Constraint>, i: nat,
      payload: Json, x: Json)
    requires Closed(schema, nodes) && Plain(schema, nodes) && IsCompiled(schema, nodes, original, cs)
    requires i < |cs| && Expressible(schema, cs[i]) && cs[i].path != []
    requires Valid(schema, nodes, payload) && ValuesAt([payload], cs[i].path) != []
    requires var node := NodeAt(schema, cs[i].path).value;
      node in nodes && (node.items.Some? ==> Takes(schema, nodes, node.items.value, x))
    ensures Kept(schema, original, cs, i) <==>
      forall p :: Valid(schema, nodes, p) && ValuesAt([p], cs[i].path) != [] ==> Accepts(cs[i], p)
  {
    hide Guarantees, LimitsAfter, Plain, Valid, Accepts, StepsAreArrays;
    if Kept(schema, original, cs, i) {
      forall p | Valid(schema, nodes, p) && ValuesAt([p], cs[i].path) != []
        ensures Accepts(cs[i], p)
      {
        GuaranteedConstraintHolds(schema, nodes, cs[i], p);
      }
    } else {
      var bad := LostConstraintFails(schema, nodes, cs[i], payload, x);
    }
  }

  // ---------------------------------------------------------------- constraints nobody overwrites

  /** Items are counted on a node that the schema says is an array. */
  predicate EndFits(node: Node, kind: Kind) {
    kind.AllowedValues? || node.typ == Some(ArrayType)
  }

  /** The keywords that one constraint writes imply another, whatever else the node says. */
  predicate Implies(typ: Option<JsonType>, writer: Kind, kind: Kind) {
    Guarantees(typ, Written(Limits(None, None, None), writer), kind)
  }

  /** A constraint is kept if one for the same node that nobody overwrites implies it, whether it comes before or
      after, and whether or not it overwrites the first. */
  lemma StricterKeeps(schema: Schema, original: map<Node, Limits>, cs: seq<Constraint>, i: nat, j: nat)
    requires i < |cs| && NodeAt(schema, cs[i].path).Some? && NodeAt(schema, cs[i].path).value in original
    requires j < |cs| && NodeAt(schema, cs[j].path) == NodeAt(schema, cs[i].path) && Survives(schema, cs, j, |cs|)
    requires Implies(NodeAt(schema, cs[i].path).value.typ, cs[j].kind, cs[i].kind)
    ensures Kept(schema, original, cs, i)
  {
    var node := NodeAt(schema, cs[i].path).value;
    SurvivorIsWritten(schema, cs, j, |cs|, node, original[node]);
    hide NodeAt, Survives, LimitsAfter;
  }

  lemma SurvivorIsKept(schema: Schema, original: map<Node, Limits>, cs: seq<Constraint>, i: nat)
    requires i < |cs| && NodeAt(schema, cs[i].path).Some? && NodeAt(schema, cs[i].path).value in original
    requires EndFits(NodeAt(schema, cs[i].path).value, cs[i].kind)
    requires Survives(schema, cs, i, |cs|) && !cs[i].kind.Semantic?
    ensures Kept(schema, original, cs, i)
  {
    StricterKeeps(schema, original, cs, i, i);
  }

  /** A constraint the compilation keeps is met by a payload the schema accepts exactly when that has a value for it. */
  lemma CompiledConstraintHolds(
      schema: Schema, nodes: set<Node>, original: map<Node, Limits>, cs: seq<Constraint>, i: nat, payload: Json)
    requires Closed(schema, nodes) && IsCompiled(schema, nodes, original, cs) && Valid(schema, nodes, payload)
    requires i < |cs| && Expressible(schema, cs[i]) && NodeAt(schema, cs[i].path).value in original
    requires Kept(schema, original, cs, i)
    ensures Accepts(cs[i], payload) <==> ValuesAt([payload], cs[i].path) != []
  {
    NodeAtIsInside(schema, nodes, cs[i].path);
    GuaranteedConstraintHolds(schema, nodes, cs[i], payload);
  }

  /** If none overwrites another, the compiled schema leaves nothing for the local check to find. */
  lemma ValidPayloadsPass(
      schema: Schema, nodes: set<Node>, original: map<Node, Limits>, cs: seq<Constraint>, payload: Json)
    requires Closed(schema, nodes) && IsCompiled(schema, nodes, original, cs) && Valid(schema, nodes, payload)
    requires forall i :: 0 <= i < |cs| ==>
      && Expressible(schema, cs[i]) && EndFits(NodeAt(schema, cs[i].path).value, cs[i].kind)
      && Survives(schema, cs, i, |cs|)
    requires forall i :: 0 <= i < |cs| ==> ValuesAt([payload], cs[i].path) != []
    ensures Failures(cs, payload) == []
  {
    hide Guarantees, Survives, Accepts;
    forall i | 0 <= i < |cs|
      ensures Accepts(cs[i], payload)
    {
      NodeAtIsInside(schema, nodes, cs[i].path);
      SurvivorIsKept(schema, original, cs, i);
      CompiledConstraintHolds(schema, nodes, original, cs, i, payload);
    }
    NoFailures(cs, payload);
  }

  /** Overwriting need not lose a constraint: an exact number of items keeps what asked for at most that number, and
      sets the same keyword. */
  lemma OverwrittenIsImplied(m: nat, n: nat)
    requires m <= n
    ensures Keywords(MinItems(m)) * Keywords(ExactItems(n)) != {}
    ensures Implies(Some(ArrayType), ExactItems(n), MinItems(m))
  {
    assert MinKey in Keywords(MinItems(m)) * Keywords(ExactItems(n));
  }

  /** A laxer one that comes later loses it: two items were asked for, and one passes the compiled schema. */
  method OverwrittenConstraint() returns (schema: Schema, ghost nodes: set<Node>, cs: seq<Constraint>, payload: Json)
    ensures Closed(schema, nodes) && fresh(nodes) && |cs| == 2
    ensures Expressible(schema, cs[0]) && Expressible(schema, cs[1])
    ensures IsCompiled(schema, nodes, map node | node in nodes :: Limits(None, None, None), cs)
    ensures Valid(schema, nodes, payload) && !Accepts(cs[0], payload) && Accepts(cs[1], payload)
    ensures ValuesAt([payload], cs[0].path) != []
  {
    hide LimitsAfter, Takes, NodeAt, ValuesAt;
    var list := new Node(Some(ArrayType), None, map[], None, 0, Limits(None, None, None));
    var root := new Node(Some(ObjectType), None, map["xs" := list], None, 0, Limits(None, None, None));
    schema, nodes := Schema(root, map[]), {root, list};
    var path := [Name("xs")];
    cs := [Constraint("two", path, MinItems(2)), Constraint("one", path, MinItems(1))];
    payload := Obj(map["xs" := Arr([Null])]);
    OneStep(schema, path, payload);
    assert cs == Bounded(cs);
    var _ := Compile(schema, cs, nodes);
    TwoLimits(schema, cs, list, list);
    TwoLimits(schema, cs, list, root);
    OneItemIsValid(schema, nodes, root, list);
    assert ValuesAt([payload], path)[0] == Arr([Null]);
  }

  lemma TwoLimits(schema: Schema, cs: seq<Constraint>, list: Node, node: Node)
    requires |cs| == 2 && cs[0].kind == MinItems(2) && cs[1].kind == MinItems(1)
    requires NodeAt(schema, cs[0].path) == NodeAt(schema, cs[1].path) == Some(list)
    ensures LimitsAfter(schema, cs, 2, node, Limits(None, None, None)) ==
      Limits(if node == list then Some(1) else None, None, None)
  {
    assert LimitsAfter(schema, cs, 1, node, Limits(None, None, None)) ==
      Limits(if node == list then Some(2) else None, None, None);
    hide NodeAt;
  }

  lemma OneItemIsValid(schema: Schema, nodes: set<Node>, root: Node, list: Node)
    requires Closed(schema, nodes) && root in nodes && list in nodes && root.reference.None? && list.reference.None?
    requires root.typ == Some(ObjectType) && root.properties == map["xs" := list]
    requires root.limits == Limits(None, None, None)
    requires list.typ == Some(ArrayType) && list.items.None? && list.limits == Limits(Some(1), None, None)
    ensures Takes(schema, nodes, root, Obj(map["xs" := Arr([Null])]))
  {
    forall n: nat
      ensures ValidTo(n, schema, nodes, root, Obj(map["xs" := Arr([Null])]))
    {
      assert n > 0 ==> ValidTo(n - 1, schema, nodes, list, Arr([Null]));
    }
  }

  lemma OneStep(schema: Schema, path: seq<Token>, payload: Json)
    requires path == [Name("xs")] && payload == Obj(map["xs" := Arr([Null])])
    requires schema.root.reference.None? && "xs" in schema.root.properties
    requires schema.root.properties["xs"].reference.None?
    ensures NodeAt(schema, path) == Some(schema.root.properties["xs"])
    ensures ValuesAt([payload], path) == [Arr([Null])]
  {
    assert path[..0] == [] && [payload][..0] == [];
    assert SelectAll([payload], path[0]) == [Arr([Null])];
  }
}
