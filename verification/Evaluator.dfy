/**
  The declarative template evaluator (internal/integrations/declarative): a recursive interpreter
  over a shared, mutated environment and a shared budget, against a pure evaluator that passes the
  environment and adds up costs.
 */
module Evaluator {
  import opened Options

  /** Omitted is the private sentinel of a false `if`; Context is what `run` stores under "__ctx". */
  datatype Value =
    | Null | Bool(b: bool) | Number(n: int) | Text(s: string)
    | List(items: seq<Value>) | Object(fields: map<string, Value>) | Omitted | Context

  type Env = map<string, Value>

  type Program = nat

  /** One charge an expression makes: its cost, and whether it looks at the deadline first. */
  datatype Charge = Charge(cost: nat, checked: bool)

  /** What a program does on an environment: its charges in order, then a value or an error. */
  datatype Running = Running(charges: seq<Charge>, result: Option<Value>)

  /** Compiled programs and the broker's asset minting, neither of which is modelled further. */
  datatype Host = Host(
    expr: (Program, Env) -> Running,
    asset: (Option<Value>, string, string, map<string, string>, string) -> Option<string>)

  datatype Template =
    | Nil
    | Literal(v: Value)
    | Expr(p: Program)
    | Array(items: seq<Template>)
    | Fields(fields: map<string, Template>)
    | Cond(cond: Program, kept: Template)
    | Each(over: Program, variable: string, item: Template)
    | Asset(slot: string, path: Template, query: map<string, Template>, transform: string)
    | Unknown

  const CTX := "__ctx"

  /** The environment as expressions see it. */
  function Visible(env: Env): Env { env - {CTX} }

  const GRANT := "__grant"

  /** envGrant: the grant asset references are minted under, itself an entry of the environment. */
  function GrantIn(env: Env): Option<Value> { if GRANT in env then Some(env[GRANT]) else None }

  lemma VisibleGrant(env: Env)
    ensures GrantIn(Visible(env)) == GrantIn(env)
  {
    assert GRANT[2] != CTX[2];
  }

  // ---------------------------------------------------------------- costs

  /** Iterations to spend, and deadline checks to pass. */
  datatype Cost = Cost(iters: nat, checks: nat)

  const FREE := Cost(0, 0)
  const NODE := Cost(1, 1)

  function Add(a: Cost, b: Cost): Cost { Cost(a.iters + b.iters, a.checks + b.checks) }

  predicate Covers(budget: Cost, c: Cost) { c.iters <= budget.iters && c.checks <= budget.checks }

  function Minus(budget: Cost, c: Cost): Cost
    requires Covers(budget, c)
  {
    Cost(budget.iters - c.iters, budget.checks - c.checks)
  }

  function ChargeCost(c: Charge): Cost { Cost(c.cost, if c.checked then 1 else 0) }

  function ChargesCost(cs: seq<Charge>): Cost {
    if cs == [] then FREE else Add(ChargesCost(cs[..|cs| - 1]), ChargeCost(cs[|cs| - 1]))
  }

  function SeqCost(cs: seq<Cost>): Cost {
    if cs == [] then FREE else Add(SeqCost(cs[..|cs| - 1]), cs[|cs| - 1])
  }

  ghost function MapCost(m: map<string, Cost>): Cost {
    if m == map[] then FREE
    else
      var k :| k in m;
      Add(MapCost(m - {k}), m[k])
  }

  /** The sum does not depend on the order keys are met in. */
  lemma {:induction false} MapCostStep(m: map<string, Cost>, k: string)
    requires k in m
    ensures MapCost(m) == Add(MapCost(m - {k}), m[k])
    decreases |m|
  {
    var j :| j in m && MapCost(m) == Add(MapCost(m - {j}), m[j]);
    if j != k {
      var both := m - {j} - {k};
      assert k in m - {j} && j in m - {k};
      assert m - {k} - {j} == both;
      MapCostStep(m - {j}, k);
      MapCostStep(m - {k}, j);
      assert MapCost(m - {j}) == Add(MapCost(both), m[k]);
      assert MapCost(m - {k}) == Add(MapCost(both), m[j]);
      assert MapCost(m) == Add(Add(MapCost(both), m[k]), m[j]);
    }
  }

  lemma {:induction false} PrefixCovered(cs: seq<Charge>, i: nat)
    requires i <= |cs|
    ensures Covers(ChargesCost(cs), ChargesCost(cs[..i]))
  {
    if i < |cs| {
      PrefixCovered(cs[..|cs| - 1], i);
      assert cs[..|cs| - 1][..i] == cs[..i];
    } else {
      assert cs[..i] == cs;
    }
  }

  lemma {:induction false} SeqPrefixCovered(cs: seq<Cost>, i: nat)
    requires i <= |cs|
    ensures Covers(SeqCost(cs), SeqCost(cs[..i]))
  {
    if i < |cs| {
      SeqPrefixCovered(cs[..|cs| - 1], i);
      assert cs[..|cs| - 1][..i] == cs[..i];
    } else {
      assert cs[..i] == cs;
    }
  }

  // ---------------------------------------------------------------- the pure evaluator

  /** A value and what it cost, or an error no budget avoids. */
  datatype Outcome = Done(value: Value, cost: Cost) | Failed

  function Plus(c: Cost, o: Outcome): Outcome {
    if o.Failed? then Failed else Done(o.value, Add(c, o.cost))
  }

  function RunOutcome(h: Host, p: Program, env: Env): Outcome {
    var r := h.expr(p, Visible(env));
    if r.result.None? then Failed else Done(r.result.value, ChargesCost(r.charges))
  }

  predicate AllDone(outs: seq<Outcome>) { forall i | 0 <= i < |outs| :: outs[i].Done? }

  function Kept(outs: seq<Outcome>): (vs: seq<Value>)
    requires AllDone(outs)
  {
    if outs == [] then []
    else
      var n := |outs| - 1;
      Kept(outs[..n]) + if outs[n].value == Omitted then [] else [outs[n].value]
  }

  function Costs(outs: seq<Outcome>): (cs: seq<Cost>)
    requires AllDone(outs)
    ensures |cs| == |outs| && forall i | 0 <= i < |outs| :: cs[i] == outs[i].cost
  {
    seq(|outs|, i requires 0 <= i < |outs| => outs[i].cost)
  }

  /** A list of the values not omitted. */
  function ListOutcome(outs: seq<Outcome>): Outcome {
    if AllDone(outs) then Done(List(Kept(outs)), SeqCost(Costs(outs))) else Failed
  }

  predicate FieldsDone(outs: map<string, Outcome>) { forall k | k in outs :: outs[k].Done? }

  function KeptFields(outs: map<string, Outcome>): map<string, Value>
    requires FieldsDone(outs)
  {
    map k | k in outs && outs[k].value != Omitted :: outs[k].value
  }

  function FieldCosts(outs: map<string, Outcome>): (cs: map<string, Cost>)
    requires FieldsDone(outs)
    ensures cs.Keys == outs.Keys && forall k | k in outs :: cs[k] == outs[k].cost
  {
    map k | k in outs :: outs[k].cost
  }

  ghost function ObjectOutcome(outs: map<string, Outcome>): Outcome {
    if FieldsDone(outs) then Done(Object(KeptFields(outs)), MapCost(FieldCosts(outs))) else Failed
  }

  /** evalString: the value must be a string, and not omitted. */
  function TextOutcome(o: Outcome): Outcome {
    if o.Done? && o.value.Text? then o else Failed
  }

  function TextOr(v: Value): string { if v.Text? then v.s else "" }

  function Texts(outs: map<string, Outcome>): map<string, string>
    requires FieldsDone(outs)
  {
    map k | k in outs :: TextOr(outs[k].value)
  }

  /** path and query have been through evalString. */
  ghost function AssetOutcome(
      h: Host, grant: Option<Value>, slot: string, path: Outcome, query: map<string, Outcome>, tr: string): Outcome
  {
    if path.Failed? || !FieldsDone(query) then Failed
    else
      var ref := h.asset(grant, slot, TextOr(path.value), Texts(query), tr);
      if ref.None? then Failed else Done(Text(ref.value), Add(path.cost, MapCost(FieldCosts(query))))
  }

  /** The environment an `each` body sees. */
  function Bind(env: Env, name: string, v: Value): Env { Visible(env[name := v]) }

  /** The evaluator that passes environments down and touches nothing. */
  ghost function Eval(h: Host, t: Template, env: Env): Outcome
    decreases t, 2
  {
    if t.Nil? then Done(Null, FREE) else Plus(NODE, Body(h, t, env))
  }

  ghost function Body(h: Host, t: Template, env: Env): Outcome
    requires !t.Nil?
    decreases t, 1
  {
    match t
    case Literal(v) => Done(v, FREE)
    case Expr(p) => RunOutcome(h, p, env)
    case Array(_) => ListOutcome(ArrayOutcomes(h, t, env))
    case Fields(_) => ObjectOutcome(FieldOutcomes(h, t, env))
    case Cond(cond, kept) =>
      var c := RunOutcome(h, cond, env);
      if c.Failed? || !c.value.Bool? then Failed
      else if !c.value.b then Done(Omitted, c.cost)
      else Plus(c.cost, Eval(h, kept, env))
    case Each(over, _, _) =>
      var c := RunOutcome(h, over, env);
      if c.Failed? || !c.value.List? then Failed
      else Plus(c.cost, ListOutcome(EachOutcomes(h, t, c.value.items, env)))
    case Asset(slot, path, _, tr) =>
      AssetOutcome(h, GrantIn(env), slot, TextOutcome(Eval(h, path, env)), TextOutcomes(h, t, env), tr)
    case Unknown => Failed
  }

  ghost function ArrayOutcomes(h: Host, t: Template, env: Env): (outs: seq<Outcome>)
    requires t.Array?
    ensures |outs| == |t.items| && forall i | 0 <= i < |t.items| :: outs[i] == Eval(h, t.items[i], env)
    decreases t, 0
  {
    seq(|t.items|, i requires 0 <= i < |t.items| => Eval(h, t.items[i], env))
  }

  ghost function EachOutcomes(h: Host, t: Template, vs: seq<Value>, env: Env): (outs: seq<Outcome>)
    requires t.Each?
    ensures |outs| == |vs| && forall i | 0 <= i < |vs| :: outs[i] == Eval(h, t.item, Bind(env, t.variable, vs[i]))
    decreases t, 0
  {
    seq(|vs|, i requires 0 <= i < |vs| => Eval(h, t.item, Bind(env, t.variable, vs[i])))
  }

  ghost function FieldOutcomes(h: Host, t: Template, env: Env): (outs: map<string, Outcome>)
    requires t.Fields?
    ensures outs.Keys == t.fields.Keys && forall k | k in outs :: outs[k] == Eval(h, t.fields[k], env)
    decreases t, 0
  {
    map k | k in t.fields :: Eval(h, t.fields[k], env)
  }

  ghost function TextOutcomes(h: Host, t: Template, env: Env): (outs: map<string, Outcome>)
    requires t.Asset?
    ensures outs.Keys == t.query.Keys && forall k | k in outs :: outs[k] == TextOutcome(Eval(h, t.query[k], env))
    decreases t, 0
  {
    map k | k in t.query :: TextOutcome(Eval(h, t.query[k], env))
  }

  // ---------------------------------------------------------------- the code

  class Budget {
    var iterations: nat
    /** Deadline checks that will still pass: the moment of cancellation, as a count. */
    var checks: nat
    /** Template nodes entered so far. */
    ghost var visited: nat

    ghost function Left(): Cost
      reads this
    {
      Cost(iterations, checks)
    }

    constructor (iterations: nat, checks: nat)
      ensures this.iterations == iterations && this.checks == checks && visited == 0
    {
      this.iterations, this.checks, this.visited := iterations, checks, 0;
    }

    method Check() returns (ok: bool)
      modifies this`checks
      ensures ok <==> old(checks) > 0
      ensures checks == if ok then old(checks) - 1 else old(checks)
    {
      if checks == 0 { return false; }
      checks := checks - 1;
      return true;
    }

    /** budget.template: one iteration per node, spent before the deadline is looked at. */
    method Template() returns (ok: bool)
      modifies this
      ensures ok <==> Covers(old(Left()), NODE)
      ensures ok ==> Left() == Minus(old(Left()), NODE)
      ensures Covers(old(Left()), Left())
      ensures visited == old(visited) + old(iterations) - iterations
    {
      if iterations < 1 { return false; }
      iterations := iterations - 1;
      visited := visited + 1;
      ok := Check();
    }

    /** budget.charge, and the unchecked charge `take` makes. */
    method Spend(c: Charge) returns (ok: bool)
      modifies this
      ensures ok <==> Covers(old(Left()), ChargeCost(c))
      ensures ok ==> Left() == Minus(old(Left()), ChargeCost(c))
      ensures Covers(old(Left()), Left()) && visited == old(visited)
    {
      if c.checked {
        var alive := Check();
        if !alive { return false; }
      }
      if c.cost > iterations { return false; }
      iterations := iterations - c.cost;
      return true;
    }
  }

  class Environment {
    var env: Env

    constructor (env: Env)
      ensures this.env == env
    {
      this.env := env;
    }
  }

  /** How an effectful result relates to the pure outcome and the budget before and after. */
  ghost predicate Refines(o: Outcome, before: Cost, r: Option<Value>, after: Cost) {
    (r.Some? <==> o.Done? && Covers(before, o.cost)) &&
    (r.Some? ==> r.value == o.value && after == Minus(before, o.cost)) &&
    Covers(before, after)
  }

  method SpendAll(charges: seq<Charge>, b: Budget) returns (ok: bool)
    modifies b
    ensures ok <==> Covers(old(b.Left()), ChargesCost(charges))
    ensures ok ==> b.Left() == Minus(old(b.Left()), ChargesCost(charges))
    ensures Covers(old(b.Left()), b.Left()) && b.visited == old(b.visited)
  {
    ghost var before := b.Left();
    for i := 0 to |charges|
      invariant b.visited == old(b.visited)
      invariant Covers(before, ChargesCost(charges[..i]))
      invariant b.Left() == Minus(before, ChargesCost(charges[..i]))
    {
      assert charges[..i + 1][..i] == charges[..i];
      PrefixCovered(charges, i + 1);
      ok := b.Spend(charges[i]);
      if !ok { return false; }
    }
    assert charges[..|charges|] == charges;
    return true;
  }

  method Run(h: Host, p: Program, e: Environment, b: Budget) returns (r: Option<Value>)
    modifies e, b
    ensures Visible(e.env) == Visible(old(e.env))
    ensures Refines(RunOutcome(h, p, old(e.env)), old(b.Left()), r, b.Left())
    ensures b.visited == old(b.visited)
  {
    e.env := e.env[CTX := Context];
    assert Visible(e.env) == Visible(old(e.env));
    var running := h.expr(p, Visible(e.env));
    var ok := SpendAll(running.charges, b);
    if !ok { return None; }
    return running.result;
  }

  // ---------------------------------------------------------------- lists, one element at a time

  ghost predicate ListSoFar(outs: seq<Outcome>, i: nat, vals: seq<Value>, start: Cost, left: Cost) {
    i <= |outs| && AllDone(outs[..i]) && vals == Kept(outs[..i]) &&
    Covers(start, SeqCost(Costs(outs[..i]))) && left == Minus(start, SeqCost(Costs(outs[..i])))
  }

  lemma {:induction false} ListStep(
      outs: seq<Outcome>, i: nat, vals: seq<Value>, start: Cost, left: Cost, r: Option<Value>, after: Cost)
    requires ListSoFar(outs, i, vals, start, left) && i < |outs| && Refines(outs[i], left, r, after)
    ensures r.Some? ==> ListSoFar(outs, i + 1, vals + (if r.value == Omitted then [] else [r.value]), start, after)
    ensures r.None? ==> !(ListOutcome(outs).Done? && Covers(start, ListOutcome(outs).cost))
  {
    var o := outs[..i + 1];
    assert o[..i] == outs[..i];
    if outs[i].Done? {
      assert AllDone(o) by {
        forall j | 0 <= j < |o| ensures o[j].Done? { if j < i { assert o[j] == outs[..i][j]; } }
      }
      assert Costs(o)[..i] == Costs(outs[..i]);
      assert SeqCost(Costs(o)) == Add(SeqCost(Costs(outs[..i])), outs[i].cost);
    }
    if r.None? && AllDone(outs) {
      SeqPrefixCovered(Costs(outs), i + 1);
      assert Costs(outs)[..i + 1] == Costs(o);
    }
  }

  lemma ListEnd(outs: seq<Outcome>, vals: seq<Value>, start: Cost, left: Cost)
    requires ListSoFar(outs, |outs|, vals, start, left)
    ensures Refines(ListOutcome(outs), start, Some(List(vals)), left)
  {
    assert outs[..|outs|] == outs;
  }

  // ---------------------------------------------------------------- objects, in any order of keys

  ghost predicate FieldsSoFar(outs: map<string, Outcome>, todo: set<string>, start: Cost, left: Cost) {
    todo <= outs.Keys && FieldsDone(outs - todo) &&
    Covers(start, MapCost(FieldCosts(outs - todo))) && left == Minus(start, MapCost(FieldCosts(outs - todo)))
  }

  lemma {:induction false} FieldsStart(outs: map<string, Outcome>, start: Cost)
    ensures FieldsSoFar(outs, outs.Keys, start, start)
  {
    assert outs - outs.Keys == map[];
    assert FieldCosts(map[]) == map[];
  }

  lemma {:induction false} FieldsStep(
      outs: map<string, Outcome>, todo: set<string>, k: string, start: Cost, left: Cost, r: Option<Value>, after: Cost)
    requires FieldsSoFar(outs, todo, start, left) && k in todo && Refines(outs[k], left, r, after)
    ensures r.Some? ==> FieldsSoFar(outs, todo - {k}, start, after)
    ensures r.None? ==> !(FieldsDone(outs) && Covers(start, MapCost(FieldCosts(outs))))
  {
    if outs[k].Done? {
      var done := outs - (todo - {k});
      assert done - {k} == outs - todo;
      forall j | j in done ensures done[j].Done? { if j != k { assert j in outs - todo; } }
      MapCostStep(FieldCosts(done), k);
      assert FieldCosts(done) - {k} == FieldCosts(outs - todo);
      if r.None? && FieldsDone(outs) {
        SubCovered(FieldCosts(outs), todo - {k});
        assert FieldCosts(outs) - (todo - {k}) == FieldCosts(done);
      }
    }
  }

  lemma {:induction false} SubCovered(m: map<string, Cost>, drop: set<string>)
    ensures Covers(MapCost(m), MapCost(m - drop))
    decreases |drop|
  {
    if drop == {} {
      assert m - drop == m;
    } else {
      var k :| k in drop;
      var rest := drop - {k};
      SubCovered(m, rest);
      if k in m {
        assert k in m - rest;
        MapCostStep(m - rest, k);
        assert m - drop == (m - rest) - {k};
      } else {
        assert m - drop == m - rest;
      }
    }
  }

  lemma FieldsEnd(outs: map<string, Outcome>, start: Cost, left: Cost)
    requires FieldsSoFar(outs, {}, start, left)
    ensures FieldsDone(outs) && Covers(start, MapCost(FieldCosts(outs))) &&
            left == Minus(start, MapCost(FieldCosts(outs)))
  {
    assert outs - {} == outs;
  }

  // ---------------------------------------------------------------- eval

  /** Whatever happens, the environment comes back, and each node entered has cost an iteration. */
  twostate predicate LeavesEnvironment(e: Environment, b: Budget)
    reads e, b
  {
    Visible(e.env) == Visible(old(e.env)) && Covers(old(b.Left()), b.Left()) &&
    b.visited + b.iterations <= old(b.visited) + old(b.iterations)
  }

  lemma Sequel(c: Cost, o: Outcome, before: Cost, r: Option<Value>, after: Cost)
    requires Covers(before, c) && Refines(o, Minus(before, c), r, after)
    ensures Refines(Plus(c, o), before, r, after)
  {
  }

  lemma VisibleTwice(env: Env)
    ensures Visible(Visible(env)) == Visible(env)
  {
  }

  /** instance.eval. */
  method EvalTemplate(h: Host, t: Template, e: Environment, b: Budget) returns (r: Option<Value>)
    modifies e, b
    ensures LeavesEnvironment(e, b)
    ensures Refines(Eval(h, t, Visible(old(e.env))), old(b.Left()), r, b.Left())
    decreases t, 3
  {
    hide Body;
    if t.Nil? { return Some(Null); }
    ghost var env, before := Visible(e.env), b.Left();
    var ok := b.Template();
    if !ok { return None; }
    r := EvalBody(h, t, e, b);
    Sequel(NODE, Body(h, t, env), before, r, b.Left());
  }

  method EvalBody(h: Host, t: Template, e: Environment, b: Budget) returns (r: Option<Value>)
    requires !t.Nil?
    modifies e, b
    ensures LeavesEnvironment(e, b)
    ensures Refines(Body(h, t, Visible(old(e.env))), old(b.Left()), r, b.Left())
    decreases t, 2
  {
    hide Eval, ListOutcome, ObjectOutcome, AssetOutcome, ArrayOutcomes, FieldOutcomes, EachOutcomes, TextOutcomes;
    VisibleTwice(e.env);
    match t
    case Literal(v) => return Some(v);
    case Expr(p) => r := Run(h, p, e, b);
    case Array(_) => r := EvalArray(h, t, e, b);
    case Fields(_) => r := EvalObject(h, t, e, b);
    case Cond(_, _) => r := EvalCond(h, t, e, b);
    case Each(_, _, _) => r := EvalEach(h, t, e, b);
    case Asset(_, _, _, _) => r := EvalAsset(h, t, e, b);
    case Unknown => return None;
  }

  method EvalCond(h: Host, t: Template, e: Environment, b: Budget) returns (r: Option<Value>)
    requires t.Cond?
    modifies e, b
    ensures LeavesEnvironment(e, b)
    ensures Refines(Body(h, t, Visible(old(e.env))), old(b.Left()), r, b.Left())
    decreases t, 1
  {
    hide Eval;
    ghost var env, before := Visible(e.env), b.Left();
    VisibleTwice(e.env);
    var c := Run(h, t.cond, e, b);
    if c.None? || !c.value.Bool? { return None; }
    if !c.value.b { return Some(Omitted); }
    r := EvalTemplate(h, t.kept, e, b);
    Sequel(RunOutcome(h, t.cond, env).cost, Eval(h, t.kept, env), before, r, b.Left());
  }

  method EvalEach(h: Host, t: Template, e: Environment, b: Budget) returns (r: Option<Value>)
    requires t.Each?
    modifies e, b
    ensures LeavesEnvironment(e, b)
    ensures Refines(Body(h, t, Visible(old(e.env))), old(b.Left()), r, b.Left())
    decreases t, 1
  {
    hide Eval, ListOutcome, EachOutcomes;
    ghost var env, before := Visible(e.env), b.Left();
    VisibleTwice(e.env);
    var c := Run(h, t.over, e, b);
    if c.None? || !c.value.List? { return None; }
    r := EvalItems(h, t, c.value.items, e, b);
    Sequel(RunOutcome(h, t.over, env).cost, ListOutcome(EachOutcomes(h, t, c.value.items, env)), before, r, b.Left());
  }

  method EvalArray(h: Host, t: Template, e: Environment, b: Budget) returns (r: Option<Value>)
    requires t.Array?
    modifies e, b
    ensures LeavesEnvironment(e, b)
    ensures Refines(ListOutcome(ArrayOutcomes(h, t, Visible(old(e.env)))), old(b.Left()), r, b.Left())
    decreases t, 1
  {
    hide Eval;
    ghost var env, start := Visible(e.env), b.Left();
    ghost var outs := ArrayOutcomes(h, t, env);
    var out: seq<Value> := [];
    for i := 0 to |t.items|
      invariant LeavesEnvironment(e, b)
      invariant ListSoFar(outs, i, out, start, b.Left())
    {
      ghost var left := b.Left();
      var v := EvalTemplate(h, t.items[i], e, b);
      ListStep(outs, i, out, start, left, v, b.Left());
      if v.None? { return None; }
      if v.value == Omitted { assert out + [] == out; continue; }
      out := out + [v.value];
    }
    ListEnd(outs, out, start, b.Left());
    return Some(List(out));
  }

  method EvalItems(h: Host, t: Template, vs: seq<Value>, e: Environment, b: Budget) returns (r: Option<Value>)
    requires t.Each?
    modifies e, b
    ensures LeavesEnvironment(e, b)
    ensures Refines(ListOutcome(EachOutcomes(h, t, vs, Visible(old(e.env)))), old(b.Left()), r, b.Left())
    decreases t, 0
  {
    hide Eval;
    ghost var env, start := Visible(e.env), b.Left();
    ghost var outs := EachOutcomes(h, t, vs, env);
    var out: seq<Value> := [];
    for n := 0 to |vs|
      invariant LeavesEnvironment(e, b)
      invariant ListSoFar(outs, n, out, start, b.Left())
    {
      ghost var left := b.Left();
      ghost var before := e.env;
      var had := t.variable in e.env;
      var shadowed := if had then e.env[t.variable] else Null;
      e.env := e.env[t.variable := vs[n]];
      assert Visible(e.env) == Bind(env, t.variable, vs[n]);
      var x := EvalTemplate(h, t.item, e, b);
      ghost var after := e.env;
      if had {
        e.env := e.env[t.variable := shadowed];
      } else {
        e.env := e.env - {t.variable};
      }
      Restored(before, after, e.env, t.variable, vs[n]);
      ListStep(outs, n, out, start, left, x, b.Left());
      if x.None? { return None; }
      if x.value == Omitted { assert out + [] == out; continue; }
      out := out + [x.value];
    }
    ListEnd(outs, out, start, b.Left());
    return Some(List(out));
  }

  /** Putting back the shadowed entry, or deleting the new one, restores what expressions see. */
  lemma Restored(before: Env, after: Env, now: Env, name: string, v: Value)
    requires Visible(after) == Visible(before[name := v])
    requires now == if name in before then after[name := before[name]] else after - {name}
    ensures Visible(now) == Visible(before)
  {
    forall k | k != CTX ensures (k in now <==> k in before) && (k in now ==> now[k] == before[k]) {
      assert k in Visible(after) <==> k in Visible(before[name := v]);
      if k in after { assert Visible(after)[k] == after[k]; }
    }
  }

  method EvalObject(h: Host, t: Template, e: Environment, b: Budget) returns (r: Option<Value>)
    requires t.Fields?
    modifies e, b
    ensures LeavesEnvironment(e, b)
    ensures Refines(ObjectOutcome(FieldOutcomes(h, t, Visible(old(e.env)))), old(b.Left()), r, b.Left())
    decreases t, 1
  {
    hide Eval, KeptFields, MapCost, FieldCosts, Visible;
    ghost var env, start := Visible(e.env), b.Left();
    ghost var outs := FieldOutcomes(h, t, env);
    var out: map<string, Value> := map[];
    var todo := t.fields.Keys;
    FieldsStart(outs, start);
    KeptStart(outs);
    while todo != {}
      invariant LeavesEnvironment(e, b)
      invariant FieldsSoFar(outs, todo, start, b.Left())
      invariant out == KeptFields(outs - todo)
      decreases |todo|
    {
      var k :| k in todo;
      ghost var left := b.Left();
      var v := EvalTemplate(h, t.fields[k], e, b);
      FieldsStep(outs, todo, k, start, left, v, b.Left());
      if v.None? { return None; }
      KeptStep(outs, todo, k);
      todo := todo - {k};
      if v.value == Omitted { continue; }
      out := out[k := v.value];
    }
    FieldsEnd(outs, start, b.Left());
    assert outs - {} == outs;
    return Some(Object(out));
  }

  lemma KeptStart(outs: map<string, Outcome>)
    ensures FieldsDone(outs - outs.Keys) && KeptFields(outs - outs.Keys) == map[]
  {
  }

  lemma KeptStep(outs: map<string, Outcome>, todo: set<string>, k: string)
    requires k in todo && todo <= outs.Keys && FieldsDone(outs - todo) && FieldsDone(outs - (todo - {k}))
    ensures k in outs - (todo - {k}) && outs[k].Done?
    ensures KeptFields(outs - (todo - {k})) ==
            if outs[k].value == Omitted then KeptFields(outs - todo)
            else KeptFields(outs - todo)[k := outs[k].value]
  {
    assert k in outs - (todo - {k});
  }

  method EvalString(h: Host, t: Template, e: Environment, b: Budget) returns (r: Option<string>)
    modifies e, b
    ensures LeavesEnvironment(e, b)
    ensures Refines(TextOutcome(Eval(h, t, Visible(old(e.env)))), old(b.Left()),
                    if r.Some? then Some(Text(r.value)) else None, b.Left())
    decreases t, 4
  {
    var v := EvalTemplate(h, t, e, b);
    if v.None? || v.value == Omitted || !v.value.Text? { return None; }
    return Some(v.value.s);
  }

  method EvalStrings(h: Host, owner: Template, e: Environment, b: Budget) returns (r: Option<map<string, string>>)
    requires owner.Asset?
    modifies e, b
    ensures LeavesEnvironment(e, b)
    ensures var outs := TextOutcomes(h, owner, Visible(old(e.env)));
            (r.Some? <==> FieldsDone(outs) && Covers(old(b.Left()), MapCost(FieldCosts(outs)))) &&
            (r.Some? ==> r.value == Texts(outs) && b.Left() == Minus(old(b.Left()), MapCost(FieldCosts(outs))))
    decreases owner, 0
  {
    hide Eval;
    ghost var env, start := Visible(e.env), b.Left();
    ghost var outs := TextOutcomes(h, owner, env);
    var out: map<string, string> := map[];
    var todo := owner.query.Keys;
    FieldsStart(outs, start);
    while todo != {}
      invariant LeavesEnvironment(e, b)
      invariant FieldsSoFar(outs, todo, start, b.Left())
      invariant out == Texts(outs - todo)
      decreases |todo|
    {
      var k :| k in todo;
      ghost var left := b.Left();
      var s := EvalString(h, owner.query[k], e, b);
      FieldsStep(outs, todo, k, start, left, if s.Some? then Some(Text(s.value)) else None, b.Left());
      if s.None? { return None; }
      TextsStep(outs, todo, k);
      todo := todo - {k};
      out := out[k := s.value];
    }
    FieldsEnd(outs, start, b.Left());
    assert outs - {} == outs;
    return Some(out);
  }

  lemma TextsStep(outs: map<string, Outcome>, todo: set<string>, k: string)
    requires k in todo && todo <= outs.Keys && FieldsDone(outs - todo) && FieldsDone(outs - (todo - {k}))
    ensures k in outs - (todo - {k}) && outs[k].Done?
    ensures Texts(outs - (todo - {k})) == Texts(outs - todo)[k := TextOr(outs[k].value)]
  {
    assert k in outs - (todo - {k});
  }

  method EvalAsset(h: Host, t: Template, e: Environment, b: Budget) returns (r: Option<Value>)
    requires t.Asset?
    modifies e, b
    ensures LeavesEnvironment(e, b)
    ensures var env := Visible(old(e.env));
            Refines(AssetOutcome(h, GrantIn(env), t.slot, TextOutcome(Eval(h, t.path, env)),
                                 TextOutcomes(h, t, env), t.transform),
                    old(b.Left()), r, b.Left())
    decreases t, 1
  {
    hide Eval, TextOutcome, TextOutcomes, Texts, MapCost, FieldCosts, Visible;
    var path := EvalString(h, t.path, e, b);
    if path.None? { return None; }
    var q := EvalStrings(h, t, e, b);
    if q.None? { return None; }
    VisibleGrant(e.env);
    var ref := h.asset(GrantIn(e.env), t.slot, path.value, q.value, t.transform);
    if ref.None? { return None; }
    return Some(Text(ref.value));
  }

  /** One evaluation of an operation's output under a fresh budget. */
  method EvaluateOutput(h: Host, t: Template, env: Env, iterations: nat, checks: nat)
    returns (r: Option<Value>, left: nat, ghost visited: nat)
    ensures var o := Eval(h, t, Visible(env));
            (r.Some? <==> o.Done? && Covers(Cost(iterations, checks), o.cost)) &&
            (r.Some? ==> r.value == o.value && left == iterations - o.cost.iters)
    ensures visited + left <= iterations
  {
    hide Eval;
    var b := new Budget(iterations, checks);
    var e := new Environment(env);
    r := EvalTemplate(h, t, e, b);
    left, visited := b.iterations, b.visited;
  }

  // ---------------------------------------------------------------- the sentinel stays out

  /** The sentinel occurs nowhere in the value. */
  predicate Clean(v: Value) {
    match v
    case Omitted => false
    case List(items) => forall i | 0 <= i < |items| :: Clean(items[i])
    case Object(fields) => forall k | k in fields :: Clean(fields[k])
    case _ => true
  }

  predicate CleanEnv(env: Env) { forall k | k in env :: Clean(env[k]) }

  /** No expression yields the sentinel, since none can name it. */
  ghost predicate CleanHost(h: Host) {
    forall p, env | CleanEnv(env) && h.expr(p, env).result.Some? :: Clean(h.expr(p, env).result.value)
  }

  predicate CleanTemplate(t: Template) {
    match t
    case Literal(v) => Clean(v)
    case Array(items) => forall i | 0 <= i < |items| :: CleanTemplate(items[i])
    case Fields(fields) => forall k | k in fields :: CleanTemplate(fields[k])
    case Cond(_, kept) => CleanTemplate(kept)
    case Each(_, _, item) => CleanTemplate(item)
    case Asset(_, path, query, _) => CleanTemplate(path) && forall k | k in query :: CleanTemplate(query[k])
    case _ => true
  }

  /** An outcome with no sentinel inside; at the top only a false `if` may leave it. */
  predicate CleanOutcome(o: Outcome) { o.Done? ==> o.value == Omitted || Clean(o.value) }

  lemma {:induction false} KeptIsClean(outs: seq<Outcome>)
    requires AllDone(outs) && forall i | 0 <= i < |outs| :: CleanOutcome(outs[i])
    ensures forall v | v in Kept(outs) :: Clean(v)
  {
    if outs != [] { KeptIsClean(outs[..|outs| - 1]); }
  }

  lemma ListIsClean(outs: seq<Outcome>)
    requires forall i | 0 <= i < |outs| :: CleanOutcome(outs[i])
    ensures ListOutcome(outs).Done? ==> Clean(ListOutcome(outs).value)
  {
    if AllDone(outs) { KeptIsClean(outs); }
  }

  /** The sentinel is never stored in an array or an object, at any depth. */
  lemma {:induction false} SentinelStaysOut(h: Host, t: Template, env: Env)
    requires CleanHost(h) && CleanTemplate(t) && CleanEnv(env)
    ensures CleanOutcome(Eval(h, t, env))
    ensures Eval(h, t, env).Done? && Eval(h, t, env).value == Omitted ==> t.Cond?
    decreases t
  {
    hide CleanHost;
    match t
    case Nil =>
    case Literal(v) =>
    case Expr(p) => RunIsClean(h, p, env);
    case Array(items) =>
      forall i | 0 <= i < |items| ensures CleanOutcome(ArrayOutcomes(h, t, env)[i]) {
        SentinelStaysOut(h, items[i], env);
      }
      ListIsClean(ArrayOutcomes(h, t, env));
    case Fields(fields) =>
      var outs := FieldOutcomes(h, t, env);
      forall k | k in fields ensures CleanOutcome(outs[k]) { SentinelStaysOut(h, fields[k], env); }
    case Cond(cond, kept) =>
      RunIsClean(h, cond, env);
      SentinelStaysOut(h, kept, env);
    case Each(over, variable, item) =>
      RunIsClean(h, over, env);
      var c := RunOutcome(h, over, env);
      if c.Done? && c.value.List? {
        var vs := c.value.items;
        forall i | 0 <= i < |vs| ensures CleanOutcome(EachOutcomes(h, t, vs, env)[i]) {
          SentinelStaysOut(h, item, Bind(env, variable, vs[i]));
        }
        ListIsClean(EachOutcomes(h, t, vs, env));
      }
    case Asset(_, _, _, _) =>
    case Unknown =>
  }

  lemma RunIsClean(h: Host, p: Program, env: Env)
    requires CleanHost(h) && CleanEnv(env)
    ensures RunOutcome(h, p, env).Done? ==> Clean(RunOutcome(h, p, env).value)
  {
    assert CleanEnv(Visible(env));
  }
}
