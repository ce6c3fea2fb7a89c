/** Which values a constraint path means, said without following the loop of `_values_at_path`: every step for step
    instance of the path that leads to a value of the payload, in order. */
module PathInstances {
  import opened Options
  import opened ContractPaths

  /** One step into a value. */
  datatype Step = Key(name: string) | At(i: nat)

  function Enter(v: Json, step: Step): Option<Json> {
    match step
    case Key(name) => if v.Obj? && name in v.members then Some(v.members[name]) else None
    case At(i) => if v.Arr? && i < |v.items| then Some(v.items[i]) else None
  }

  /** The value some steps lead to, if they lead to one. */
  function Reach(v: Json, steps: seq<Step>): Option<Json> {
    if steps == [] then Some(v)
    else
      match Reach(v, steps[..|steps| - 1])
      case None => None
      case Some(u) => Enter(u, steps[|steps| - 1])
  }

  /** A wildcard stands for any position of a list, and for the key "*" of an object. */
  predicate StandsFor(token: Token, step: Step) {
    match token
    case Name(text) => step == Key(text)
    case Index(n) => step == At(n)
    case Wildcard => step.At? || step == Key("*")
  }

  predicate IsInstance(tokens: seq<Token>, steps: seq<Step>) {
    |steps| == |tokens| && forall k :: 0 <= k < |tokens| ==> StandsFor(tokens[k], steps[k])
  }

  /** In payload order: the first difference is in the position in some list. */
  predicate Earlier(a: seq<Step>, b: seq<Step>) {
    exists k :: 0 <= k < |a| && k < |b| && a[..k] == b[..k] && a[k].At? && b[k].At? && a[k].i < b[k].i
  }

  // ---------------------------------------------------------------- one token

  /** The steps a token can take into a value. */
  function Steps(v: Json, token: Token): seq<Step> {
    match token
    case Name(text) => if Enter(v, Key(text)).Some? then [Key(text)] else []
    case Index(n) => if Enter(v, At(n)).Some? then [At(n)] else []
    case Wildcard =>
      if v.Obj? && "*" in v.members then [Key("*")]
      else if v.Arr? then seq(|v.items|, i requires 0 <= i < |v.items| => At(i))
      else []
  }

  lemma StepsSelect(v: Json, token: Token)
    ensures |Select(v, token)| == |Steps(v, token)|
    ensures forall j :: 0 <= j < |Steps(v, token)| ==> Enter(v, Steps(v, token)[j]) == Some(Select(v, token)[j])
  {
  }

  lemma StepsAreAll(v: Json, token: Token, step: Step)
    ensures step in Steps(v, token) <==> StandsFor(token, step) && Enter(v, step).Some?
  {
    if token.Wildcard? && v.Arr? && step.At? && step.i < |v.items| {
      assert Steps(v, token)[step.i] == step;
    }
  }

  lemma StepsAscend(v: Json, token: Token, j: nat, k: nat)
    requires j < k < |Steps(v, token)|
    ensures Steps(v, token)[j].At? && Steps(v, token)[k].At? && Steps(v, token)[j].i < Steps(v, token)[k].i
  {
  }

  // ---------------------------------------------------------------- all tokens

  /** One instance, followed by every step that the next token can take. */
  function Extend(payload: Json, steps: seq<Step>, token: Token): seq<seq<Step>> {
    match Reach(payload, steps)
    case None => []
    case Some(v) =>
      var next := Steps(v, token);
      seq(|next|, j requires 0 <= j < |next| => steps + [next[j]])
  }

  function ExtendAll(payload: Json, found: seq<seq<Step>>, token: Token): seq<seq<Step>> {
    if found == [] then []
    else ExtendAll(payload, found[..|found| - 1], token) + Extend(payload, found[|found| - 1], token)
  }

  function Instances(payload: Json, tokens: seq<Token>): seq<seq<Step>> {
    if tokens == [] then [[]]
    else ExtendAll(payload, Instances(payload, tokens[..|tokens| - 1]), tokens[|tokens| - 1])
  }

  /** The steps and the values belong together. */
  ghost predicate Match(payload: Json, found: seq<seq<Step>>, values: seq<Json>) {
    |found| == |values| && forall k :: 0 <= k < |found| ==> Reach(payload, found[k]) == Some(values[k])
  }

  lemma ReachNext(payload: Json, steps: seq<Step>, step: Step)
    ensures Reach(payload, steps + [step]) ==
      match Reach(payload, steps) case None => None case Some(v) => Enter(v, step)
  {
    assert (steps + [step])[..|steps|] == steps;
  }

  lemma ExtendMatches(payload: Json, steps: seq<Step>, v: Json, token: Token)
    requires Reach(payload, steps) == Some(v)
    ensures Match(payload, Extend(payload, steps, token), Select(v, token))
  {
    hide Reach, Enter, Steps, Select;
    StepsSelect(v, token);
    forall j | 0 <= j < |Steps(v, token)| {
      ReachNext(payload, steps, Steps(v, token)[j]);
    }
  }

  lemma {:induction false} AllMatch(payload: Json, found: seq<seq<Step>>, values: seq<Json>, token: Token)
    requires Match(payload, found, values)
    ensures Match(payload, ExtendAll(payload, found, token), SelectAll(values, token))
  {
    hide Reach, Extend, Select;
    if found != [] {
      var n := |found| - 1;
      AllMatch(payload, found[..n], values[..n], token);
      ExtendMatches(payload, found[n], values[n], token);
    }
  }

  lemma {:induction false} InstancesMatch(payload: Json, tokens: seq<Token>)
    ensures Match(payload, Instances(payload, tokens), ValuesAt([payload], tokens))
  {
    hide ExtendAll, SelectAll;
    if tokens != [] {
      var n := |tokens| - 1;
      InstancesMatch(payload, tokens[..n]);
      AllMatch(payload, Instances(payload, tokens[..n]), ValuesAt([payload], tokens[..n]), tokens[n]);
    }
  }

  lemma {:induction false} InExtendAll(payload: Json, found: seq<seq<Step>>, token: Token, steps: seq<Step>)
    ensures steps in ExtendAll(payload, found, token) <==>
      exists k :: 0 <= k < |found| && steps in Extend(payload, found[k], token)
  {
    hide Extend;
    if found != [] {
      var n := |found| - 1;
      InExtendAll(payload, found[..n], token, steps);
      assert forall k :: 0 <= k < n ==> found[..n][k] == found[k];
    }
  }

  lemma InExtend(payload: Json, before: seq<Step>, token: Token, steps: seq<Step>)
    ensures steps in Extend(payload, before, token) <==>
      && steps != [] && steps[..|steps| - 1] == before && Reach(payload, steps).Some?
      && StandsFor(token, steps[|steps| - 1])
  {
    hide Reach, Steps, StandsFor, Enter;
    if steps in Extend(payload, before, token) {
      var v := Reach(payload, before).value;
      var j :| 0 <= j < |Steps(v, token)| && steps == before + [Steps(v, token)[j]];
      StepsAreAll(v, token, Steps(v, token)[j]);
      ReachNext(payload, before, Steps(v, token)[j]);
    } else if steps != [] && steps[..|steps| - 1] == before {
      var step := steps[|steps| - 1];
      assert steps == before + [step];
      ReachNext(payload, before, step);
      if Reach(payload, steps).Some? && StandsFor(token, step) {
        StepExtends(payload, before, token, step);
      }
    }
  }

  lemma StepExtends(payload: Json, before: seq<Step>, token: Token, step: Step)
    requires Reach(payload, before).Some?
    requires StandsFor(token, step) && Enter(Reach(payload, before).value, step).Some?
    ensures before + [step] in Extend(payload, before, token)
  {
    hide Reach, Steps, StandsFor, Enter;
    var v := Reach(payload, before).value;
    StepsAreAll(v, token, step);
    var j :| 0 <= j < |Steps(v, token)| && Steps(v, token)[j] == step;
    assert Extend(payload, before, token)[j] == before + [step];
  }

  /** The instances of a path are its step for step instances that lead to a value. */
  lemma {:induction false} InstancesAreAll(payload: Json, tokens: seq<Token>, steps: seq<Step>)
    ensures steps in Instances(payload, tokens) <==> IsInstance(tokens, steps) && Reach(payload, steps).Some?
  {
    hide Extend, ExtendAll, StandsFor;
    if tokens != [] {
      var n := |tokens| - 1;
      var found := Instances(payload, tokens[..n]);
      InExtendAll(payload, found, tokens[n], steps);
      if steps != [] {
        var before := steps[..|steps| - 1];
        InstancesAreAll(payload, tokens[..n], before);
        InstanceNext(tokens, steps);
        if before in found {
          var k :| 0 <= k < |found| && found[k] == before;
          InExtend(payload, before, tokens[n], steps);
        }
      }
      forall k | 0 <= k < |found| {
        InExtend(payload, found[k], tokens[n], steps);
      }
    }
  }

  lemma InstanceNext(tokens: seq<Token>, steps: seq<Step>)
    requires tokens != [] && steps != []
    ensures IsInstance(tokens, steps) <==>
      && IsInstance(tokens[..|tokens| - 1], steps[..|steps| - 1])
      && StandsFor(tokens[|tokens| - 1], steps[|steps| - 1])
  {
  }

  // ---------------------------------------------------------------- their order

  ghost predicate Ascending(found: seq<seq<Step>>) {
    forall j, k :: 0 <= j < k < |found| ==> Earlier(found[j], found[k])
  }

  lemma ExtendAscends(payload: Json, steps: seq<Step>, token: Token)
    ensures Ascending(Extend(payload, steps, token))
  {
    var found := Extend(payload, steps, token);
    forall j, k | 0 <= j < k < |found|
      ensures Earlier(found[j], found[k])
    {
      var v := Reach(payload, steps).value;
      StepsAscend(v, token, j, k);
      assert found[j][..|steps|] == steps == found[k][..|steps|];
    }
  }

  lemma EarlierStays(a: seq<Step>, b: seq<Step>, x: Step, y: Step)
    requires Earlier(a, b)
    ensures Earlier(a + [x], b + [y])
  {
    var k :| 0 <= k < |a| && k < |b| && a[..k] == b[..k] && a[k].At? && b[k].At? && a[k].i < b[k].i;
    assert (a + [x])[..k] == a[..k] && (b + [y])[..k] == b[..k];
  }

  lemma {:induction false} AllAscend(payload: Json, found: seq<seq<Step>>, token: Token)
    requires Ascending(found)
    ensures Ascending(ExtendAll(payload, found, token))
  {
    hide Earlier, Extend;
    if found != [] {
      var n := |found| - 1;
      var front, back := ExtendAll(payload, found[..n], token), Extend(payload, found[n], token);
      AllAscend(payload, found[..n], token);
      ExtendAscends(payload, found[n], token);
      forall j, k | 0 <= j < |front| && 0 <= k < |back|
        ensures Earlier(front[j], back[k])
      {
        InExtendAll(payload, found[..n], token, front[j]);
        var m :| 0 <= m < n && front[j] in Extend(payload, found[..n][m], token);
        InExtend(payload, found[m], token, front[j]);
        InExtend(payload, found[n], token, back[k]);
        assert Earlier(found[m], found[n]);
        EarlierStays(found[m], found[n], front[j][|front[j]| - 1], back[k][|back[k]| - 1]);
        assert front[j] == found[m] + [front[j][|front[j]| - 1]] && back[k] == found[n] + [back[k][|back[k]| - 1]];
      }
    }
  }

  lemma {:induction false} InstancesAscend(payload: Json, tokens: seq<Token>)
    ensures Ascending(Instances(payload, tokens))
  {
    hide ExtendAll;
    if tokens != [] {
      InstancesAscend(payload, tokens[..|tokens| - 1]);
      AllAscend(payload, Instances(payload, tokens[..|tokens| - 1]), tokens[|tokens| - 1]);
    }
  }

  /**
    * Main result: the values at a path are the values that its instances lead to, each instance once and in payload
    * order.
    */
  lemma ValuesAreReached(payload: Json, tokens: seq<Token>) returns (found: seq<seq<Step>>)
    ensures Match(payload, found, ValuesAt([payload], tokens)) && Ascending(found)
    ensures forall steps :: steps in found <==> IsInstance(tokens, steps) && Reach(payload, steps).Some?
  {
    hide Instances, Reach, IsInstance;
    found := Instances(payload, tokens);
    InstancesMatch(payload, tokens);
    InstancesAscend(payload, tokens);
    forall steps {
      InstancesAreAll(payload, tokens, steps);
    }
  }

  /** A value is among those at a path if and only if some instance of the path leads to it. */
  lemma ValueIsReached(payload: Json, tokens: seq<Token>, v: Json)
    ensures v in ValuesAt([payload], tokens) <==>
      exists steps :: IsInstance(tokens, steps) && Reach(payload, steps) == Some(v)
  {
    hide Reach, IsInstance;
    var found := ValuesAreReached(payload, tokens);
    var values := ValuesAt([payload], tokens);
    if v in values {
      var k :| 0 <= k < |values| && values[k] == v;
      assert found[k] in found;
    }
    if steps :| IsInstance(tokens, steps) && Reach(payload, steps) == Some(v) {
      assert steps in found;
      var k :| 0 <= k < |found| && found[k] == steps;
      assert values[k] == v;
    }
  }
}
