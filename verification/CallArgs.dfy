/**
 Evaluation of local variables and argument expressions for a contract call: memoised,
 with lazy conditionals and cycle detection, against plain evaluation without a memo.
 */
module CallArgs {
  import opened Wrappers

  datatype Yaml =
    | Null
    | Bool(value: bool)
    | Number(digits: string)
    | Str(text: string)
    | Sequence(items: seq<Yaml>)
    | Mapping(entries: seq<Entry>)

  datatype Entry = Entry(key: Yaml, value: Yaml)

  datatype Error =
    | UnknownVariable(name: string)
    | Circular(name: string)
    | CombinedKeys(key: string)
    | NameNotString
    | IfNotMapping
    | MissingKey(key: string)
    | ConditionNotBool
    | Unresolved(message: string)

  /** The variable table, and the value resolver as a function of the mapping it is given. */
  datatype Env = Env(vars: map<string, Yaml>, resolver: Yaml -> Result<Yaml, string>)

  function Find(entries: seq<Entry>, key: Yaml): (r: Option<nat>)
    ensures r.Some? ==> r.value < |entries| && entries[r.value].key == key
    ensures r.Some? ==> forall j :: 0 <= j < r.value ==> entries[j].key != key
    ensures r.None? ==> forall e :: e in entries ==> e.key != key
  {
    if entries == [] then None
    else if entries[0].key == key then Some(0)
    else
      var r := Find(entries[1..], key);
      if r.None? then None else Some(r.value + 1)
  }

  function Insert(entries: seq<Entry>, key: Yaml, value: Yaml): seq<Entry> {
    var i := Find(entries, key);
    if i.Some? then entries[i.value := Entry(key, value)] else entries + [Entry(key, value)]
  }

  /** The only value of an expression mapping; other keys beside it are an error. */
  function ExpressionValue(entries: seq<Entry>, key: string): (r: Result<Option<nat>, Error>)
    ensures r.Ok? && r.value.Some? ==> r.value.value < |entries|
  {
    var i := Find(entries, Str(key));
    if i.Some? && |entries| != 1 then Err(CombinedKeys(key)) else Ok(i)
  }

  datatype Form = Invalid(error: Error) | Variable(index: nat) | Conditional(index: nat) | Plain

  /** How a mapping is read: `var` is looked for before `if`. */
  function FormOf(entries: seq<Entry>): (r: Form)
    ensures r.Variable? || r.Conditional? ==> r.index < |entries|
  {
    var v := ExpressionValue(entries, "var");
    if v.Err? then Invalid(v.error)
    else if v.value.Some? then Variable(v.value.value)
    else
      var c := ExpressionValue(entries, "if");
      if c.Err? then Invalid(c.error)
      else if c.value.Some? then Conditional(c.value.value)
      else Plain
  }

  datatype Branches = Branches(cond: nat, yes: nat, no: nat)

  /** All three keys of a conditional are required, in this order. */
  function BranchesOf(entries: seq<Entry>): (r: Result<Branches, Error>)
    ensures r.Ok? ==> r.value.cond < |entries| && r.value.yes < |entries| && r.value.no < |entries|
  {
    var c, t, e := Find(entries, Str("cond")), Find(entries, Str("then")), Find(entries, Str("else"));
    if c.None? then Err(MissingKey("cond"))
    else if t.None? then Err(MissingKey("then"))
    else if e.None? then Err(MissingKey("else"))
    else Ok(Branches(c.value, t.value, e.value))
  }

  function Materialize(env: Env, entries: seq<Entry>): Result<Yaml, Error> {
    var r := env.resolver(Mapping(entries));
    if r.Err? then Err(Unresolved(r.error)) else Ok(r.value)
  }

  // ------------------------------------------------- evaluation without a memo

  /** A result, or nothing when `fuel` variable references deep was not enough. */
  type Answer<T> = Option<Result<T, Error>>

  ghost function RefName(env: Env, name: string, fuel: nat): Answer<Yaml>
    decreases fuel, 0
  {
    if name !in env.vars then Some(Err(UnknownVariable(name)))
    else if fuel == 0 then None
    else RefExpr(env, env.vars[name], fuel - 1)
  }

  ghost function RefExpr(env: Env, expr: Yaml, fuel: nat): Answer<Yaml>
    decreases fuel, 1, expr
  {
    match expr
    case Mapping(entries) =>
      (match FormOf(entries)
       case Invalid(e) => Some(Err(e))
       case Variable(i) =>
         if entries[i].value.Str? then RefName(env, entries[i].value.text, fuel) else Some(Err(NameNotString))
       case Conditional(i) => RefIf(env, entries[i].value, fuel)
       case Plain =>
         var r := RefEntries(env, expr, |entries|, fuel);
         if r.None? then None
         else if r.value.Err? then Some(Err(r.value.error))
         else Some(Materialize(env, r.value.value)))
    case Sequence(items) =>
      var r := RefItems(env, expr, |items|, fuel);
      if r.None? then None
      else if r.value.Err? then Some(Err(r.value.error))
      else Some(Ok(Sequence(r.value.value)))
    case _ => Some(Ok(expr))
  }

  /** The first `k` items; the first failure ends it. */
  ghost function RefItems(env: Env, expr: Yaml, k: nat, fuel: nat): (r: Answer<seq<Yaml>>)
    requires expr.Sequence? && k <= |expr.items|
    decreases fuel, 1, expr, k
  {
    if k == 0 then Some(Ok([]))
    else
      var done := RefItems(env, expr, k - 1, fuel);
      if done.None? || done.value.Err? then done
      else
        var r := RefExpr(env, expr.items[k - 1], fuel);
        if r.None? then None
        else if r.value.Err? then Some(Err(r.value.error))
        else Some(Ok(done.value.value + [r.value.value]))
  }

  ghost function RefEntries(env: Env, expr: Yaml, k: nat, fuel: nat): (r: Answer<seq<Entry>>)
    requires expr.Mapping? && k <= |expr.entries|
    decreases fuel, 1, expr, k
  {
    if k == 0 then Some(Ok([]))
    else
      var done := RefEntries(env, expr, k - 1, fuel);
      if done.None? || done.value.Err? then done
      else
        var r := RefExpr(env, expr.entries[k - 1].value, fuel);
        if r.None? then None
        else if r.value.Err? then Some(Err(r.value.error))
        else Some(Ok(Insert(done.value.value, expr.entries[k - 1].key, r.value.value)))
  }

  /** Only the branch that the condition selects is evaluated. */
  ghost function RefIf(env: Env, value: Yaml, fuel: nat): Answer<Yaml>
    decreases fuel, 1, value
  {
    if !value.Mapping? then Some(Err(IfNotMapping))
    else
      var b := BranchesOf(value.entries);
      if b.Err? then Some(Err(b.error))
      else
        var cond := RefExpr(env, value.entries[b.value.cond].value, fuel);
        if cond.None? || cond.value.Err? then cond
        else if !cond.value.value.Bool? then Some(Err(ConditionNotBool))
        else RefExpr(env, value.entries[if cond.value.value.value then b.value.yes else b.value.no].value, fuel)
  }

  // ------------------------------------------------------------ more fuel

  lemma {:induction false} MoreFuelName(env: Env, name: string, f: nat, g: nat)
    requires f <= g && RefName(env, name, f).Some?
    ensures RefName(env, name, g) == RefName(env, name, f)
    decreases f, 0
  {
    if name in env.vars {
      MoreFuel(env, env.vars[name], f - 1, g - 1);
    }
  }

  lemma {:induction false} MoreFuel(env: Env, expr: Yaml, f: nat, g: nat)
    requires f <= g && RefExpr(env, expr, f).Some?
    ensures RefExpr(env, expr, g) == RefExpr(env, expr, f)
    decreases f, 1, expr
  {
    match expr
    case Mapping(entries) =>
      match FormOf(entries) {
        case Invalid(_) =>
        case Variable(i) =>
          if entries[i].value.Str? {
            MoreFuelName(env, entries[i].value.text, f, g);
          }
        case Conditional(i) => MoreFuelIf(env, entries[i].value, f, g);
        case Plain => MoreFuelEntries(env, expr, |entries|, f, g);
      }
    case Sequence(items) => MoreFuelItems(env, expr, |items|, f, g);
    case _ =>
  }

  lemma {:induction false} MoreFuelItems(env: Env, expr: Yaml, k: nat, f: nat, g: nat)
    requires f <= g && expr.Sequence? && k <= |expr.items| && RefItems(env, expr, k, f).Some?
    ensures RefItems(env, expr, k, g) == RefItems(env, expr, k, f)
    decreases f, 1, expr, k
  {
    if k > 0 {
      MoreFuelItems(env, expr, k - 1, f, g);
      if RefItems(env, expr, k - 1, f).value.Ok? {
        MoreFuel(env, expr.items[k - 1], f, g);
      }
    }
  }

  lemma {:induction false} MoreFuelEntries(env: Env, expr: Yaml, k: nat, f: nat, g: nat)
    requires f <= g && expr.Mapping? && k <= |expr.entries| && RefEntries(env, expr, k, f).Some?
    ensures RefEntries(env, expr, k, g) == RefEntries(env, expr, k, f)
    decreases f, 1, expr, k
  {
    if k > 0 {
      MoreFuelEntries(env, expr, k - 1, f, g);
      if RefEntries(env, expr, k - 1, f).value.Ok? {
        MoreFuel(env, expr.entries[k - 1].value, f, g);
      }
    }
  }

  lemma {:induction false} MoreFuelIf(env: Env, value: Yaml, f: nat, g: nat)
    requires f <= g && RefIf(env, value, f).Some?
    ensures RefIf(env, value, g) == RefIf(env, value, f)
    decreases f, 1, value
  {
    if value.Mapping? && BranchesOf(value.entries).Ok? {
      var b := BranchesOf(value.entries).value;
      MoreFuel(env, value.entries[b.cond].value, f, g);
      var cond := RefExpr(env, value.entries[b.cond].value, f).value;
      if cond.Ok? && cond.value.Bool? {
        MoreFuel(env, value.entries[if cond.value.value then b.yes else b.no].value, f, g);
      }
    }
  }

  // --------------------------------------------------- what evaluation shows

  /** The expression evaluates to this result. */
  ghost predicate Gives(env: Env, expr: Yaml, r: Result<Yaml, Error>) {
    exists fuel: nat :: RefExpr(env, expr, fuel) == Some(r)
  }

  ghost predicate NameGives(env: Env, name: string, r: Result<Yaml, Error>) {
    exists fuel: nat :: RefName(env, name, fuel) == Some(r)
  }

  ghost predicate ItemsGive(env: Env, expr: Yaml, k: nat, r: Result<seq<Yaml>, Error>)
    requires expr.Sequence? && k <= |expr.items|
  {
    exists fuel: nat :: RefItems(env, expr, k, fuel) == Some(r)
  }

  ghost predicate EntriesGive(env: Env, expr: Yaml, k: nat, r: Result<seq<Entry>, Error>)
    requires expr.Mapping? && k <= |expr.entries|
  {
    exists fuel: nat :: RefEntries(env, expr, k, fuel) == Some(r)
  }

  ghost predicate IfGives(env: Env, value: Yaml, r: Result<Yaml, Error>) {
    exists fuel: nat :: RefIf(env, value, fuel) == Some(r)
  }

  /** No number of nested references is enough. */
  ghost predicate Diverges(env: Env, expr: Yaml) {
    forall fuel: nat :: RefExpr(env, expr, fuel).None?
  }

  ghost predicate NameDiverges(env: Env, name: string) {
    forall fuel: nat :: RefName(env, name, fuel).None?
  }

  /** Evaluating the expression must first evaluate the variable `name`. */
  ghost predicate Awaits(env: Env, expr: Yaml, name: string) {
    forall fuel: nat :: RefName(env, name, fuel).None? ==> RefExpr(env, expr, fuel).None?
  }

  ghost predicate NameAwaits(env: Env, waiting: string, name: string) {
    forall fuel: nat :: RefName(env, name, fuel).None? ==> RefName(env, waiting, fuel).None?
  }

  ghost predicate IfAwaits(env: Env, value: Yaml, name: string) {
    forall fuel: nat :: RefName(env, name, fuel).None? ==> RefIf(env, value, fuel).None?
  }

  /** The result of an evaluation is unique. */
  lemma GivesOnce(env: Env, expr: Yaml, a: Result<Yaml, Error>, b: Result<Yaml, Error>)
    requires Gives(env, expr, a) && Gives(env, expr, b)
    ensures a == b
  {
    var f: nat :| RefExpr(env, expr, f) == Some(a);
    var g: nat :| RefExpr(env, expr, g) == Some(b);
    if f <= g {
      MoreFuel(env, expr, f, g);
    } else {
      MoreFuel(env, expr, g, f);
    }
  }

  lemma NameGivesOf(env: Env, name: string, r: Result<Yaml, Error>)
    requires name in env.vars && Gives(env, env.vars[name], r)
    ensures NameGives(env, name, r)
  {
    var f: nat :| RefExpr(env, env.vars[name], f) == Some(r);
    assert RefName(env, name, f + 1) == Some(r);
  }

  lemma ItemsStep(env: Env, expr: Yaml, k: nat, done: seq<Yaml>, r: Result<Yaml, Error>)
    requires expr.Sequence? && k < |expr.items| && ItemsGive(env, expr, k, Ok(done)) && Gives(env, expr.items[k], r)
    ensures ItemsGive(env, expr, k + 1, if r.Ok? then Ok(done + [r.value]) else Err(r.error))
  {
    var f: nat :| RefItems(env, expr, k, f) == Some(Ok(done));
    var g: nat :| RefExpr(env, expr.items[k], g) == Some(r);
    var m := if f < g then g else f;
    MoreFuelItems(env, expr, k, f, m);
    MoreFuel(env, expr.items[k], g, m);
    assert RefItems(env, expr, k + 1, m).Some?;
  }

  lemma EntriesStep(env: Env, expr: Yaml, k: nat, done: seq<Entry>, r: Result<Yaml, Error>)
    requires expr.Mapping? && k < |expr.entries| && EntriesGive(env, expr, k, Ok(done)) &&
      Gives(env, expr.entries[k].value, r)
    ensures EntriesGive(env, expr, k + 1,
      if r.Ok? then Ok(Insert(done, expr.entries[k].key, r.value)) else Err(r.error))
  {
    hide Insert;
    var f: nat :| RefEntries(env, expr, k, f) == Some(Ok(done));
    var g: nat :| RefExpr(env, expr.entries[k].value, g) == Some(r);
    var m := if f < g then g else f;
    MoreFuelEntries(env, expr, k, f, m);
    MoreFuel(env, expr.entries[k].value, g, m);
    assert RefEntries(env, expr, k + 1, m).Some?;
  }

  /** A failing prefix fails the whole list with the same error. */
  lemma {:induction false} ItemsFail(env: Env, expr: Yaml, k: nat, n: nat, e: Error)
    requires expr.Sequence? && k <= n <= |expr.items| && ItemsGive(env, expr, k, Err(e))
    ensures ItemsGive(env, expr, n, Err(e))
    decreases n
  {
    if k < n {
      ItemsFail(env, expr, k, n - 1, e);
      var f: nat :| RefItems(env, expr, n - 1, f) == Some(Err(e));
      assert RefItems(env, expr, n, f) == Some(Err(e));
    }
  }

  lemma {:induction false} EntriesFail(env: Env, expr: Yaml, k: nat, n: nat, e: Error)
    requires expr.Mapping? && k <= n <= |expr.entries| && EntriesGive(env, expr, k, Err(e))
    ensures EntriesGive(env, expr, n, Err(e))
    decreases n
  {
    if k < n {
      EntriesFail(env, expr, k, n - 1, e);
      var f: nat :| RefEntries(env, expr, n - 1, f) == Some(Err(e));
      assert RefEntries(env, expr, n, f) == Some(Err(e));
    }
  }

  lemma {:induction false} ItemsAwait(env: Env, expr: Yaml, k: nat, n: nat, fuel: nat)
    requires expr.Sequence? && k < n <= |expr.items|
    requires RefItems(env, expr, k, fuel).None? ||
      (RefItems(env, expr, k, fuel).value.Ok? && RefExpr(env, expr.items[k], fuel).None?)
    ensures RefItems(env, expr, n, fuel).None?
    decreases n
  {
    if k + 1 < n {
      ItemsAwait(env, expr, k, n - 1, fuel);
    }
  }

  lemma {:induction false} EntriesAwait(env: Env, expr: Yaml, k: nat, n: nat, fuel: nat)
    requires expr.Mapping? && k < n <= |expr.entries|
    requires RefEntries(env, expr, k, fuel).None?
      || (RefEntries(env, expr, k, fuel).value.Ok? && RefExpr(env, expr.entries[k].value, fuel).None?)
    ensures RefEntries(env, expr, n, fuel).None?
    decreases n
  {
    if k + 1 < n {
      EntriesAwait(env, expr, k, n - 1, fuel);
    }
  }

  lemma ItemAwaited(env: Env, expr: Yaml, k: nat, done: seq<Yaml>, name: string)
    requires expr.Sequence? && k < |expr.items| && ItemsGive(env, expr, k, Ok(done)) && Awaits(env, expr.items[k], name)
    ensures Awaits(env, expr, name)
  {
    var f: nat :| RefItems(env, expr, k, f) == Some(Ok(done));
    forall g: nat | RefName(env, name, g).None? ensures RefExpr(env, expr, g).None? {
      if RefItems(env, expr, k, g).Some? {
        if f <= g {
          MoreFuelItems(env, expr, k, f, g);
        } else {
          MoreFuelItems(env, expr, k, g, f);
        }
      }
      assert RefExpr(env, expr.items[k], g).None?;
      ItemsAwait(env, expr, k, |expr.items|, g);
    }
  }

  lemma EntryAwaited(env: Env, expr: Yaml, k: nat, done: seq<Entry>, name: string)
    requires expr.Mapping? && FormOf(expr.entries).Plain?
    requires k < |expr.entries| && EntriesGive(env, expr, k, Ok(done)) && Awaits(env, expr.entries[k].value, name)
    ensures Awaits(env, expr, name)
  {
    var f: nat :| RefEntries(env, expr, k, f) == Some(Ok(done));
    hide FormOf;
    forall g: nat | RefName(env, name, g).None? ensures RefExpr(env, expr, g).None? {
      if RefEntries(env, expr, k, g).Some? {
        if f <= g {
          MoreFuelEntries(env, expr, k, f, g);
        } else {
          MoreFuelEntries(env, expr, k, g, f);
        }
      }
      assert RefExpr(env, expr.entries[k].value, g).None?;
      EntriesAwait(env, expr, k, |expr.entries|, g);
    }
  }

  lemma NameAwaitsOf(env: Env, waiting: string, name: string)
    requires waiting in env.vars && Awaits(env, env.vars[waiting], name)
    ensures NameAwaits(env, waiting, name)
  {
    forall f: nat | RefName(env, name, f).None? ensures RefName(env, waiting, f).None? {
      if f > 0 {
        if RefName(env, name, f - 1).Some? {
          MoreFuelName(env, name, f - 1, f);
        }
        assert RefExpr(env, env.vars[waiting], f - 1).None?;
      }
    }
  }

  /** A variable whose own expression awaits it never has a value. */
  lemma SelfAwaitDiverges(env: Env, name: string)
    requires name in env.vars && Awaits(env, env.vars[name], name)
    ensures NameDiverges(env, name)
  {
    forall fuel: nat ensures RefName(env, name, fuel).None? {
      StillNone(env, name, fuel);
    }
  }

  lemma {:induction false} StillNone(env: Env, name: string, fuel: nat)
    requires name in env.vars && Awaits(env, env.vars[name], name)
    ensures RefName(env, name, fuel).None?
  {
    if fuel > 0 {
      StillNone(env, name, fuel - 1);
    }
  }

  lemma IfStep(env: Env, value: Yaml, cond: Result<Yaml, Error>)
    requires value.Mapping? && BranchesOf(value.entries).Ok?
    requires Gives(env, value.entries[BranchesOf(value.entries).value.cond].value, cond)
    ensures cond.Err? ==> IfGives(env, value, cond)
    ensures cond.Ok? && !cond.value.Bool? ==> IfGives(env, value, Err(ConditionNotBool))
  {
    var f: nat :| RefExpr(env, value.entries[BranchesOf(value.entries).value.cond].value, f) == Some(cond);
    hide BranchesOf;
    if cond.Err? || !cond.value.Bool? {
      assert RefIf(env, value, f) == Some(if cond.Err? then cond else Err(ConditionNotBool));
    }
  }

  ghost function Taken(value: Yaml, yes: bool): Yaml
    requires value.Mapping? && BranchesOf(value.entries).Ok?
  {
    value.entries[if yes then BranchesOf(value.entries).value.yes else BranchesOf(value.entries).value.no].value
  }

  lemma BranchStep(env: Env, value: Yaml, yes: bool, r: Result<Yaml, Error>)
    requires value.Mapping? && BranchesOf(value.entries).Ok?
    requires Gives(env, value.entries[BranchesOf(value.entries).value.cond].value, Ok(Bool(yes)))
    requires Gives(env, Taken(value, yes), r)
    ensures IfGives(env, value, r)
  {
    var cond := value.entries[BranchesOf(value.entries).value.cond].value;
    var f: nat :| RefExpr(env, cond, f) == Some(Ok(Bool(yes)));
    var g: nat :| RefExpr(env, Taken(value, yes), g) == Some(r);
    var m := if f < g then g else f;
    MoreFuel(env, cond, f, m);
    MoreFuel(env, Taken(value, yes), g, m);
    hide BranchesOf;
    assert RefIf(env, value, m) == Some(r);
  }

  lemma CondAwaited(env: Env, value: Yaml, name: string)
    requires value.Mapping? && BranchesOf(value.entries).Ok?
    requires Awaits(env, value.entries[BranchesOf(value.entries).value.cond].value, name)
    ensures IfAwaits(env, value, name)
  {
    hide BranchesOf;
  }

  lemma BranchAwaited(env: Env, value: Yaml, yes: bool, name: string)
    requires value.Mapping? && BranchesOf(value.entries).Ok?
    requires Gives(env, value.entries[BranchesOf(value.entries).value.cond].value, Ok(Bool(yes)))
    requires Awaits(env, Taken(value, yes), name)
    ensures IfAwaits(env, value, name)
  {
    var cond := value.entries[BranchesOf(value.entries).value.cond].value;
    forall g: nat | RefName(env, name, g).None? ensures RefIf(env, value, g).None? {
      if RefExpr(env, cond, g).Some? {
        assert Gives(env, cond, RefExpr(env, cond, g).value);
        GivesOnce(env, cond, RefExpr(env, cond, g).value, Ok(Bool(yes)));
      }
      assert RefExpr(env, Taken(value, yes), g).None?;
      hide BranchesOf;
    }
  }

  // ------------------------------------------------------------ the evaluator

  type Memo = map<string, Yaml>

  /** Memoised values are right, and the variables started so far are those done or under way. */
  ghost predicate Consistent(env: Env, resolved: Memo, resolving: set<string>, log: seq<string>) {
    && (forall n :: n in resolved ==> n in env.vars && NameGives(env, n, Ok(resolved[n])))
    && resolving <= env.vars.Keys && resolving !! resolved.Keys
    && NoDuplicates(log) && forall n :: n in log <==> n in resolved || n in resolving
  }

  /** What an evaluation leaves behind: the same nesting and a larger memo, or an error for good. */
  ghost predicate Leaves(env: Env, resolved: Memo, resolving: set<string>, ok: bool, resolved': Memo,
                         resolving': set<string>, log': seq<string>) {
    && NoDuplicates(log')
    && (ok ==>
          Consistent(env, resolved', resolving', log') && resolving' == resolving && resolved.Keys <= resolved'.Keys)
  }

  /** The result agrees with plain evaluation; a circular error names a variable under way or one without a value. */
  ghost predicate Agrees(env: Env, expr: Yaml, resolving: set<string>, r: Result<Yaml, Error>) {
    if r.Err? && r.error.Circular?
    then Awaits(env, expr, r.error.name) && (r.error.name in resolving || NameDiverges(env, r.error.name))
    else Gives(env, expr, r)
  }

  ghost predicate NameAgrees(env: Env, name: string, resolving: set<string>, r: Result<Yaml, Error>) {
    if r.Err? && r.error.Circular?
    then NameAwaits(env, name, r.error.name) && (r.error.name in resolving || NameDiverges(env, r.error.name))
    else NameGives(env, name, r)
  }

  ghost predicate IfAgrees(env: Env, value: Yaml, resolving: set<string>, r: Result<Yaml, Error>) {
    if r.Err? && r.error.Circular?
    then IfAwaits(env, value, r.error.name) && (r.error.name in resolving || NameDiverges(env, r.error.name))
    else IfGives(env, value, r)
  }

  method ResolveVar(env: Env, name: string, resolved: Memo, resolving: set<string>, ghost log: seq<string>)
    returns (r: Result<Yaml, Error>, resolved': Memo, resolving': set<string>, ghost log': seq<string>)
    requires Consistent(env, resolved, resolving, log)
    ensures NameAgrees(env, name, resolving, r)
    ensures Leaves(env, resolved, resolving, r.Ok?, resolved', resolving', log')
    ensures r.Ok? ==> name in resolved' && resolved'[name] == r.value
    decreases |env.vars.Keys - resolving|, 0
  {
    resolved', resolving', log' := resolved, resolving, log;
    if name in resolved {
      return Ok(resolved[name]), resolved', resolving', log';
    }
    if name !in env.vars {
      assert RefName(env, name, 0) == Some(Err(UnknownVariable(name)));
      return Err(UnknownVariable(name)), resolved', resolving', log';
    }
    if name in resolving {
      return Err(Circular(name)), resolved', resolving', log';
    }
    assert |env.vars.Keys - (resolving + {name})| < |env.vars.Keys - resolving| by {
      assert env.vars.Keys - (resolving + {name}) == (env.vars.Keys - resolving) - {name};
    }
    StartName(env, name, resolved, resolving, log);
    r, resolved', resolving', log' := EvalExpr(env, env.vars[name], resolved, resolving + {name}, log + [name]);
    NamedResult(env, name, resolving, r);
    if r.Ok? {
      FinishName(env, name, r.value, resolved, resolving, resolved', resolving', log');
      resolving' := resolving' - {name};
      resolved' := resolved'[name := r.value];
    }
  }

  lemma StartName(env: Env, name: string, resolved: Memo, resolving: set<string>, log: seq<string>)
    requires Consistent(env, resolved, resolving, log)
    requires name in env.vars && name !in resolved && name !in resolving
    ensures Consistent(env, resolved, resolving + {name}, log + [name])
  {
    hide NameGives;
  }

  /** A variable's result from its expression's, a cycle through itself included. */
  lemma NamedResult(env: Env, name: string, resolving: set<string>, r: Result<Yaml, Error>)
    requires name in env.vars && Agrees(env, env.vars[name], resolving + {name}, r)
    ensures NameAgrees(env, name, resolving, r)
  {
    hide NameDiverges, Awaits, NameAwaits, Gives, NameGives;
    if r.Err? && r.error.Circular? {
      NameAwaitsOf(env, name, r.error.name);
      if r.error.name == name {
        SelfAwaitDiverges(env, name);
      }
    } else {
      NameGivesOf(env, name, r);
    }
  }

  lemma FinishName(env: Env, name: string, v: Yaml, resolved: Memo, resolving: set<string>,
                   resolved': Memo, resolving': set<string>, log': seq<string>)
    requires name in env.vars && name !in resolving && NameGives(env, name, Ok(v))
    requires Leaves(env, resolved, resolving + {name}, true, resolved', resolving', log')
    ensures Leaves(env, resolved, resolving, true, resolved'[name := v], resolving' - {name}, log')
  {
    hide NameGives;
    assert resolving' - {name} == resolving;
  }

  method EvalExpr(env: Env, expr: Yaml, resolved: Memo, resolving: set<string>, ghost log: seq<string>)
    returns (r: Result<Yaml, Error>, resolved': Memo, resolving': set<string>, ghost log': seq<string>)
    requires Consistent(env, resolved, resolving, log)
    ensures Agrees(env, expr, resolving, r)
    ensures Leaves(env, resolved, resolving, r.Ok?, resolved', resolving', log')
    decreases |env.vars.Keys - resolving|, 1, expr
  {
    hide FormOf, Consistent, Materialize;
    assert NoDuplicates(log) by { ConsistentOnce(env, resolved, resolving, log); }
    resolved', resolving', log' := resolved, resolving, log;
    match expr
    case Mapping(entries) =>
      match FormOf(entries) {
        case Invalid(e) =>
          assert RefExpr(env, expr, 0) == Some(Err(e));
          NotCircular(entries);
          return Err(e), resolved', resolving', log';
        case Variable(i) =>
          var value := entries[i].value;
          if !value.Str? {
            assert RefExpr(env, expr, 0) == Some(Err(NameNotString));
            return Err(NameNotString), resolved', resolving', log';
          }
          r, resolved', resolving', log' := ResolveVar(env, value.text, resolved, resolving, log);
          VariableAgrees(env, expr, i, resolving, r);
        case Conditional(i) =>
          r, resolved', resolving', log' := EvalIf(env, entries[i].value, resolved, resolving, log);
          ConditionalAgrees(env, expr, i, resolving, r);
        case Plain =>
          r, resolved', resolving', log' := EvalMapping(env, expr, resolved, resolving, log);
      }
    case Sequence(items) =>
      r, resolved', resolving', log' := EvalSequence(env, expr, resolved, resolving, log);
    case _ =>
      assert RefExpr(env, expr, 0) == Some(Ok(expr));
      r := Ok(expr);
  }

  lemma ConsistentOnce(env: Env, resolved: Memo, resolving: set<string>, log: seq<string>)
    requires Consistent(env, resolved, resolving, log)
    ensures NoDuplicates(log)
  {
    hide NameGives, NoDuplicates;
  }

  lemma NotCircular(entries: seq<Entry>)
    ensures FormOf(entries).Invalid? ==> !FormOf(entries).error.Circular?
  {
  }

  lemma VariableAgrees(env: Env, expr: Yaml, i: nat, resolving: set<string>, r: Result<Yaml, Error>)
    requires expr.Mapping? && FormOf(expr.entries) == Variable(i) && expr.entries[i].value.Str?
    requires NameAgrees(env, expr.entries[i].value.text, resolving, r)
    ensures Agrees(env, expr, resolving, r)
  {
    hide FormOf, RefName, NameDiverges;
    assert forall fuel: nat :: RefExpr(env, expr, fuel) == RefName(env, expr.entries[i].value.text, fuel);
    if !(r.Err? && r.error.Circular?) {
      var fuel: nat :| RefName(env, expr.entries[i].value.text, fuel) == Some(r);
      assert RefExpr(env, expr, fuel) == Some(r);
    }
  }

  lemma ConditionalAgrees(env: Env, expr: Yaml, i: nat, resolving: set<string>, r: Result<Yaml, Error>)
    requires expr.Mapping? && FormOf(expr.entries) == Conditional(i)
    requires IfAgrees(env, expr.entries[i].value, resolving, r)
    ensures Agrees(env, expr, resolving, r)
  {
    hide FormOf, RefName, NameDiverges, RefIf;
    assert forall fuel: nat :: RefExpr(env, expr, fuel) == RefIf(env, expr.entries[i].value, fuel);
    if !(r.Err? && r.error.Circular?) {
      var fuel: nat :| RefIf(env, expr.entries[i].value, fuel) == Some(r);
      assert RefExpr(env, expr, fuel) == Some(r);
    }
  }

  method EvalSequence(env: Env, expr: Yaml, resolved: Memo, resolving: set<string>, ghost log: seq<string>)
    returns (r: Result<Yaml, Error>, resolved': Memo, resolving': set<string>, ghost log': seq<string>)
    requires expr.Sequence? && Consistent(env, resolved, resolving, log)
    ensures Agrees(env, expr, resolving, r)
    ensures Leaves(env, resolved, resolving, r.Ok?, resolved', resolving', log')
    decreases |env.vars.Keys - resolving|, 1, expr, 0
  {
    hide RefExpr, RefName, Consistent, NoDuplicates;
    ConsistentOnce(env, resolved, resolving, log);
    resolved', resolving', log' := resolved, resolving, log;
    var values: seq<Yaml> := [];
    assert RefItems(env, expr, 0, 0) == Some(Ok(values));
    hide RefItems;
    for i := 0 to |expr.items|
      invariant ItemsGive(env, expr, i, Ok(values))
      invariant Leaves(env, resolved, resolving, true, resolved', resolving', log')
    {
      var value;
      value, resolved', resolving', log' := EvalExpr(env, expr.items[i], resolved', resolving', log');
      SequenceStep(env, expr, i, values, resolving, value);
      if value.Err? {
        return value, resolved', resolving', log';
      }
      values := values + [value.value];
    }
    SequenceDone(env, expr, values);
    r := Ok(Sequence(values));
  }

  lemma SequenceStep(env: Env, expr: Yaml, i: nat, values: seq<Yaml>, resolving: set<string>,
                     value: Result<Yaml, Error>)
    requires expr.Sequence? && i < |expr.items| && ItemsGive(env, expr, i, Ok(values))
    requires Agrees(env, expr.items[i], resolving, value)
    ensures value.Ok? ==> ItemsGive(env, expr, i + 1, Ok(values + [value.value]))
    ensures value.Err? ==> Agrees(env, expr, resolving, value)
  {
    hide Gives, Awaits, NameDiverges, RefName;
    if value.Err? && value.error.Circular? {
      ItemAwaited(env, expr, i, values, value.error.name);
    } else {
      ItemsStep(env, expr, i, values, value);
      if value.Err? {
        ItemsFail(env, expr, i + 1, |expr.items|, value.error);
        var fuel: nat :| RefItems(env, expr, |expr.items|, fuel) == Some(Err(value.error));
        assert RefExpr(env, expr, fuel) == Some(value);
        assert Gives(env, expr, value) by { SequenceFailed(env, expr, fuel, value); }
      }
    }
  }

  lemma SequenceFailed(env: Env, expr: Yaml, fuel: nat, value: Result<Yaml, Error>)
    requires RefExpr(env, expr, fuel) == Some(value)
    ensures Gives(env, expr, value)
  {
  }

  lemma SequenceDone(env: Env, expr: Yaml, values: seq<Yaml>)
    requires expr.Sequence? && ItemsGive(env, expr, |expr.items|, Ok(values))
    ensures Gives(env, expr, Ok(Sequence(values)))
  {
    var fuel: nat :| RefItems(env, expr, |expr.items|, fuel) == Some(Ok(values));
    assert RefExpr(env, expr, fuel) == Some(Ok(Sequence(values)));
  }

  method EvalMapping(env: Env, expr: Yaml, resolved: Memo, resolving: set<string>, ghost log: seq<string>)
    returns (r: Result<Yaml, Error>, resolved': Memo, resolving': set<string>, ghost log': seq<string>)
    requires expr.Mapping? && FormOf(expr.entries).Plain? && Consistent(env, resolved, resolving, log)
    ensures Agrees(env, expr, resolving, r)
    ensures Leaves(env, resolved, resolving, r.Ok?, resolved', resolving', log')
    decreases |env.vars.Keys - resolving|, 1, expr, 0
  {
    hide RefExpr, RefName, Consistent, NoDuplicates, FormOf, Insert;
    ConsistentOnce(env, resolved, resolving, log);
    resolved', resolving', log' := resolved, resolving, log;
    var evaluated: seq<Entry> := [];
    assert RefEntries(env, expr, 0, 0) == Some(Ok(evaluated));
    hide RefEntries;
    for i := 0 to |expr.entries|
      invariant EntriesGive(env, expr, i, Ok(evaluated))
      invariant Leaves(env, resolved, resolving, true, resolved', resolving', log')
    {
      var value;
      value, resolved', resolving', log' := EvalExpr(env, expr.entries[i].value, resolved', resolving', log');
      MappingStep(env, expr, i, evaluated, resolving, value);
      if value.Err? {
        return value, resolved', resolving', log';
      }
      evaluated := Insert(evaluated, expr.entries[i].key, value.value);
    }
    MappingDone(env, expr, evaluated);
    r := Materialize(env, evaluated);
  }

  lemma MappingStep(env: Env, expr: Yaml, i: nat, evaluated: seq<Entry>, resolving: set<string>,
                    value: Result<Yaml, Error>)
    requires expr.Mapping? && FormOf(expr.entries).Plain?
    requires i < |expr.entries| && EntriesGive(env, expr, i, Ok(evaluated))
    requires Agrees(env, expr.entries[i].value, resolving, value)
    ensures value.Ok? ==> EntriesGive(env, expr, i + 1, Ok(Insert(evaluated, expr.entries[i].key, value.value)))
    ensures value.Err? ==> Agrees(env, expr, resolving, value)
  {
    hide Gives, Awaits, NameDiverges, RefName, FormOf, Insert;
    if value.Err? && value.error.Circular? {
      EntryAwaited(env, expr, i, evaluated, value.error.name);
    } else {
      EntriesStep(env, expr, i, evaluated, value);
      if value.Err? {
        EntriesFail(env, expr, i + 1, |expr.entries|, value.error);
        var fuel: nat :| RefEntries(env, expr, |expr.entries|, fuel) == Some(Err(value.error));
        assert RefExpr(env, expr, fuel) == Some(value);
        assert Gives(env, expr, value) by { SequenceFailed(env, expr, fuel, value); }
      }
    }
  }

  lemma MappingDone(env: Env, expr: Yaml, evaluated: seq<Entry>)
    requires expr.Mapping? && FormOf(expr.entries).Plain? && EntriesGive(env, expr, |expr.entries|, Ok(evaluated))
    ensures Agrees(env, expr, {}, Materialize(env, evaluated)) && Gives(env, expr, Materialize(env, evaluated))
    ensures var r := Materialize(env, evaluated); r.Ok? || !r.error.Circular?
  {
    hide FormOf;
    var fuel: nat :| RefEntries(env, expr, |expr.entries|, fuel) == Some(Ok(evaluated));
    assert RefExpr(env, expr, fuel) == Some(Materialize(env, evaluated));
  }

  method EvalIf(env: Env, value: Yaml, resolved: Memo, resolving: set<string>, ghost log: seq<string>)
    returns (r: Result<Yaml, Error>, resolved': Memo, resolving': set<string>, ghost log': seq<string>)
    requires Consistent(env, resolved, resolving, log)
    ensures IfAgrees(env, value, resolving, r)
    ensures Leaves(env, resolved, resolving, r.Ok?, resolved', resolving', log')
    decreases |env.vars.Keys - resolving|, 1, value
  {
    hide RefExpr, RefName, Consistent, NoDuplicates, BranchesOf;
    ConsistentOnce(env, resolved, resolving, log);
    resolved', resolving', log' := resolved, resolving, log;
    if !value.Mapping? {
      assert RefIf(env, value, 0) == Some(Err(IfNotMapping));
      return Err(IfNotMapping), resolved', resolving', log';
    }
    var b := BranchesOf(value.entries);
    if b.Err? {
      assert RefIf(env, value, 0) == Some(Err(b.error));
      MissingIsNotCircular(value.entries);
      return Err(b.error), resolved', resolving', log';
    }
    hide RefIf;
    var cond;
    cond, resolved', resolving', log' := EvalExpr(env, value.entries[b.value.cond].value, resolved, resolving, log);
    CondAgrees(env, value, resolving, cond);
    if cond.Err? {
      return cond, resolved', resolving', log';
    }
    if !cond.value.Bool? {
      return Err(ConditionNotBool), resolved', resolving', log';
    }
    var yes := cond.value.value;
    assert cond == Ok(Bool(yes));
    ghost var mid := resolved';
    r, resolved', resolving', log' :=
      EvalExpr(env, value.entries[if yes then b.value.yes else b.value.no].value, resolved', resolving', log');
    BranchAgrees(env, value, yes, resolving, r);
  }

  lemma MissingIsNotCircular(entries: seq<Entry>)
    ensures BranchesOf(entries).Err? ==> !BranchesOf(entries).error.Circular?
  {
  }

  lemma CondAgrees(env: Env, value: Yaml, resolving: set<string>, cond: Result<Yaml, Error>)
    requires value.Mapping? && BranchesOf(value.entries).Ok?
    requires Agrees(env, value.entries[BranchesOf(value.entries).value.cond].value, resolving, cond)
    ensures cond.Err? ==> IfAgrees(env, value, resolving, cond)
    ensures cond.Ok? && !cond.value.Bool? ==> IfAgrees(env, value, resolving, Err(ConditionNotBool))
    ensures cond.Ok? ==> Gives(env, value.entries[BranchesOf(value.entries).value.cond].value, cond)
  {
    hide Gives, IfGives, Awaits, IfAwaits, NameDiverges, BranchesOf;
    if cond.Err? && cond.error.Circular? {
      CondAwaited(env, value, cond.error.name);
    } else {
      IfStep(env, value, cond);
    }
  }

  lemma BranchAgrees(env: Env, value: Yaml, yes: bool, resolving: set<string>, r: Result<Yaml, Error>)
    requires value.Mapping? && BranchesOf(value.entries).Ok?
    requires Gives(env, value.entries[BranchesOf(value.entries).value.cond].value, Ok(Bool(yes)))
    requires Agrees(env, Taken(value, yes), resolving, r)
    ensures IfAgrees(env, value, resolving, r)
  {
    hide Gives, IfGives, Awaits, IfAwaits, NameDiverges, BranchesOf, Taken;
    if r.Err? && r.error.Circular? {
      BranchAwaited(env, value, yes, r.error.name);
    } else {
      BranchStep(env, value, yes, r);
    }
  }

  // --------------------------------------------------------------- the call

  datatype Item = Var(name: string) | Arg(expr: Yaml)

  /** Every variable in order, then every argument. */
  function Items(names: seq<string>, values: seq<Yaml>): seq<Item> {
    seq(|names| + |values|, i requires 0 <= i < |names| + |values| =>
      if i < |names| then Var(names[i]) else Arg(values[i - |names|]))
  }

  ghost predicate ItemGives(env: Env, item: Item, r: Result<Yaml, Error>) {
    match item case Var(n) => NameGives(env, n, r) case Arg(e) => Gives(env, e, r)
  }

  ghost predicate ItemDiverges(env: Env, item: Item) {
    match item case Var(n) => NameDiverges(env, n) case Arg(e) => Diverges(env, e)
  }

  ghost predicate Succeeds(env: Env, item: Item) {
    exists v :: ItemGives(env, item, Ok(v))
  }

  /** The outcome of plain evaluation: all values, or the failure of the first item that has none. */
  ghost predicate IsOutcome(env: Env, names: seq<string>, values: seq<Yaml>, r: Result<seq<Yaml>, Error>) {
    var items := Items(names, values);
    match r
    case Ok(vs) =>
      && |vs| == |values| && (forall i :: 0 <= i < |items| ==> Succeeds(env, items[i]))
      && forall i :: 0 <= i < |vs| ==> Gives(env, values[i], Ok(vs[i]))
    case Err(e) => exists k: nat :: FailsFirst(env, items, k, e)
  }

  /** Item `k` is the first without a value: it fails with `e`, or diverges and `e` names a variable that does. */
  ghost predicate FailsFirst(env: Env, items: seq<Item>, k: nat, e: Error) {
    && k < |items| && (forall i :: 0 <= i < k ==> Succeeds(env, items[i]))
    && Fails(env, items[k], e)
  }

  ghost predicate Fails(env: Env, item: Item, e: Error) {
    if e.Circular? then ItemDiverges(env, item) && NameDiverges(env, e.name) else ItemGives(env, item, Err(e))
  }

  /**
   Resolve a call's arguments; `names` lists the variables in the table's order.
   No variable's expression is ever started twice.
   */
  method Resolve(env: Env, names: seq<string>, values: seq<Yaml>)
    returns (r: Result<seq<Yaml>, Error>, ghost started: seq<string>)
    requires NoDuplicates(names) && forall n :: n in names <==> n in env.vars
    ensures IsOutcome(env, names, values, r)
    ensures NoDuplicates(started) && (r.Ok? ==> forall n :: n in started <==> n in env.vars)
  {
    hide Gives, NameGives, Awaits, NameAwaits, NameDiverges, RefExpr, RefName, Diverges;
    var resolved: Memo, resolving: set<string> := map[], {};
    started := [];
    for i := 0 to |names|
      invariant Consistent(env, resolved, resolving, started) && resolving == {}
      invariant forall k :: 0 <= k < i ==> names[k] in resolved
      invariant forall k :: 0 <= k < i ==> Succeeds(env, Items(names, values)[k])
    {
      var value;
      value, resolved, resolving, started := ResolveVar(env, names[i], resolved, resolving, started);
      assert Items(names, values)[i] == Var(names[i]);
      if value.Err? {
        VarFailed(env, names[i], value.error);
        assert FailsFirst(env, Items(names, values), i, value.error);
        return Err(value.error), started;
      }
      assert ItemGives(env, Var(names[i]), Ok(value.value));
    }
    var out: seq<Yaml> := [];
    for i := 0 to |values|
      invariant Consistent(env, resolved, resolving, started) && resolving == {}
      invariant forall k :: 0 <= k < |names| ==> names[k] in resolved
      invariant forall k :: 0 <= k < |names| + i ==> Succeeds(env, Items(names, values)[k])
      invariant |out| == i && forall k :: 0 <= k < i ==> Gives(env, values[k], Ok(out[k]))
    {
      var value;
      value, resolved, resolving, started := EvalExpr(env, values[i], resolved, resolving, started);
      assert Items(names, values)[|names| + i] == Arg(values[i]);
      if value.Err? {
        ArgFailed(env, values[i], value.error);
        assert FailsFirst(env, Items(names, values), |names| + i, value.error);
        return Err(value.error), started;
      }
      assert ItemGives(env, Arg(values[i]), Ok(value.value));
      out := out + [value.value];
    }
    return Ok(out), started;
  }

  lemma VarFailed(env: Env, name: string, e: Error)
    requires NameAgrees(env, name, {}, Err(e))
    ensures Fails(env, Var(name), e)
  {
    hide RefName;
  }

  lemma ArgFailed(env: Env, expr: Yaml, e: Error)
    requires Agrees(env, expr, {}, Err(e))
    ensures Fails(env, Arg(expr), e)
  {
    hide RefName, RefExpr;
  }

  // ---------------------------------------------------------------- theorems

  lemma ItemGivesOnce(env: Env, item: Item, a: Result<Yaml, Error>, b: Result<Yaml, Error>)
    requires ItemGives(env, item, a) && ItemGives(env, item, b)
    ensures a == b
  {
    if item.Arg? {
      GivesOnce(env, item.expr, a, b);
    } else {
      var f: nat :| RefName(env, item.name, f) == Some(a);
      var g: nat :| RefName(env, item.name, g) == Some(b);
      if f <= g {
        MoreFuelName(env, item.name, f, g);
      } else {
        MoreFuelName(env, item.name, g, f);
      }
    }
  }

  /** Plain evaluation fixes the outcome, but for which variable of a cycle is named. */
  lemma OutcomeIsUnique(env: Env, names: seq<string>, values: seq<Yaml>, a: Result<seq<Yaml>, Error>,
                        b: Result<seq<Yaml>, Error>)
    requires IsOutcome(env, names, values, a) && IsOutcome(env, names, values, b)
    ensures a.Ok? ==> a == b
    ensures a.Err? ==> b.Err? && (a.error == b.error || (a.error.Circular? && b.error.Circular?))
  {
    hide RefExpr, RefName;
    var items := Items(names, values);
    if a.Ok? && b.Ok? {
      forall i | 0 <= i < |values| ensures a.value[i] == b.value[i] {
        GivesOnce(env, values[i], Ok(a.value[i]), Ok(b.value[i]));
      }
      assert a.value == b.value;
    } else {
      if a.Err? {
        FailureIsFirst(env, items, a.error);
      }
      if b.Err? {
        FailureIsFirst(env, items, b.error);
      }
      if a.Err? && b.Err? {
        SameFailure(env, items, a.error, b.error);
      }
    }
  }

  lemma FailureIsFirst(env: Env, items: seq<Item>, e: Error)
    requires exists k: nat :: FailsFirst(env, items, k, e)
    ensures exists k: nat :: k < |items| && !Succeeds(env, items[k])
  {
    var k: nat :| FailsFirst(env, items, k, e);
    FailedItem(env, items[k], e);
  }

  lemma GivenDoesNotDiverge(env: Env, item: Item, r: Result<Yaml, Error>)
    requires ItemGives(env, item, r)
    ensures !ItemDiverges(env, item)
  {
    hide RefExpr, RefName;
  }

  lemma FailedItem(env: Env, item: Item, e: Error)
    requires Fails(env, item, e)
    ensures !Succeeds(env, item)
  {
    hide ItemGives, ItemDiverges;
    if v :| ItemGives(env, item, Ok(v)) {
      GivenDoesNotDiverge(env, item, Ok(v));
      if !e.Circular? {
        ItemGivesOnce(env, item, Ok(v), Err(e));
      }
    }
  }

  lemma SameFailure(env: Env, items: seq<Item>, a: Error, b: Error)
    requires exists k: nat :: FailsFirst(env, items, k, a)
    requires exists k: nat :: FailsFirst(env, items, k, b)
    ensures a == b || (a.Circular? && b.Circular?)
  {
    var k: nat :| FailsFirst(env, items, k, a);
    var m: nat :| FailsFirst(env, items, m, b);
    FailedItem(env, items[k], a);
    FailedItem(env, items[m], b);
    assert k == m;
    hide ItemGives, ItemDiverges, Succeeds;
    if !a.Circular? {
      GivenDoesNotDiverge(env, items[k], Err(a));
      if !b.Circular? {
        ItemGivesOnce(env, items[k], Err(a), Err(b));
      }
    } else if !b.Circular? {
      GivenDoesNotDiverge(env, items[k], Err(b));
    }
  }

  /**
   The call resolves exactly when plain evaluation of every variable and argument does, and
   reports a cycle exactly when the first item without a value is one that never finishes.
   */
  lemma OutcomeMeaning(env: Env, names: seq<string>, values: seq<Yaml>, r: Result<seq<Yaml>, Error>)
    requires IsOutcome(env, names, values, r)
    ensures var items := Items(names, values);
      && (r.Ok? <==> forall i :: 0 <= i < |items| ==> Succeeds(env, items[i]))
      && (r.Err? && r.error.Circular? <==>
            exists k: nat :: k < |items| && (forall i :: 0 <= i < k ==> Succeeds(env, items[i])) &&
              ItemDiverges(env, items[k]))
  {
    var items := Items(names, values);
    if r.Err? {
      FailureIsFirst(env, items, r.error);
    }
    if k: nat :| k < |items| && (forall i :: 0 <= i < k ==> Succeeds(env, items[i])) && ItemDiverges(env, items[k]) {
      DivergentIsCircular(env, items, k, r);
    }
  }

  lemma DivergentIsCircular(env: Env, items: seq<Item>, k: nat, r: Result<seq<Yaml>, Error>)
    requires k < |items| && (forall i :: 0 <= i < k ==> Succeeds(env, items[i])) && ItemDiverges(env, items[k])
    requires if r.Err? then exists m: nat :: FailsFirst(env, items, m, r.error)
             else forall i :: 0 <= i < |items| ==> Succeeds(env, items[i])
    ensures r.Err? && r.error.Circular?
  {
    hide ItemGives, ItemDiverges;
    if v :| ItemGives(env, items[k], Ok(v)) {
      GivenDoesNotDiverge(env, items[k], Ok(v));
    }
    if r.Err? {
      var m: nat :| FailsFirst(env, items, m, r.error);
      FailedItem(env, items[m], r.error);
      assert m == k;
      if !r.error.Circular? {
        GivenDoesNotDiverge(env, items[k], Err(r.error));
      }
    }
  }
}
