/**
 What the expression language means, in terms of the entries that a call file writes:
 one law for each kind of expression. Together they fix plain evaluation, so an
 evaluator that agrees with it follows them.
 */
module CallLaws {
  import opened Wrappers
  import opened CallArgs

  /** The value under a key: that of the first entry that carries it. */
  ghost predicate At(entries: seq<Entry>, key: string, value: Yaml) {
    exists i :: 0 <= i < |entries| && entries[i] == Entry(Str(key), value) &&
                forall j :: 0 <= j < i ==> entries[j].key != Str(key)
  }

  ghost predicate Lacks(entries: seq<Entry>, key: string) {
    forall e :: e in entries ==> e.key != Str(key)
  }

  function Var(value: Yaml): Yaml {
    Mapping([Entry(Str("var"), value)])
  }

  function If(value: Yaml): Yaml {
    Mapping([Entry(Str("if"), value)])
  }

  lemma GivesNow(env: Env, expr: Yaml, r: Result<Yaml, Error>)
    requires RefExpr(env, expr, 0) == Some(r)
    ensures Gives(env, expr, r)
  {
  }

  /** Numbers, strings, truth values and null stand for themselves. */
  lemma ScalarLaw(env: Env, expr: Yaml)
    requires !expr.Sequence? && !expr.Mapping?
    ensures Gives(env, expr, Ok(expr))
  {
    GivesNow(env, expr, Ok(expr));
  }

  // ------------------------------------------------------------- variables

  lemma VarForm(value: Yaml)
    ensures FormOf(Var(value).entries) == Variable(0)
    ensures Var(value).entries[0].value == value
  {
  }

  /** A reference gives what the expression of the variable gives; an unknown name is an error. */
  lemma VarLaw(env: Env, name: string, r: Result<Yaml, Error>)
    ensures Gives(env, Var(Str(name)), r) <==>
      if name in env.vars then Gives(env, env.vars[name], r) else r == Err(UnknownVariable(name))
  {
    var e := Var(Str(name));
    VarForm(Str(name));
    hide FormOf;
    assert forall f: nat :: RefExpr(env, e, f) == RefName(env, name, f);
    if name in env.vars {
      if f: nat :| RefExpr(env, e, f) == Some(r) {
        assert RefExpr(env, env.vars[name], f - 1) == Some(r);
      }
      if f: nat :| RefExpr(env, env.vars[name], f) == Some(r) {
        assert RefExpr(env, e, f + 1) == Some(r);
      }
    } else {
      assert RefExpr(env, e, 0) == Some(Err(UnknownVariable(name)));
    }
  }

  lemma VarNameLaw(env: Env, value: Yaml)
    requires !value.Str?
    ensures Gives(env, Var(value), Err(NameNotString))
  {
    VarForm(value);
    GivesNow(env, Var(value), Err(NameNotString));
  }

  /** Neither `var` nor `if` may have company; `var` is looked for first. */
  lemma CompanyLaw(env: Env, entries: seq<Entry>)
    requires |entries| != 1
    ensures !Lacks(entries, "var") ==> Gives(env, Mapping(entries), Err(CombinedKeys("var")))
    ensures Lacks(entries, "var") && !Lacks(entries, "if") ==> Gives(env, Mapping(entries), Err(CombinedKeys("if")))
  {
    if !Lacks(entries, "var") {
      GivesNow(env, Mapping(entries), Err(CombinedKeys("var")));
    } else if !Lacks(entries, "if") {
      GivesNow(env, Mapping(entries), Err(CombinedKeys("if")));
    }
  }

  // ----------------------------------------------------------- conditionals

  lemma IfForm(env: Env, value: Yaml)
    ensures forall f: nat :: RefExpr(env, If(value), f) == RefIf(env, value, f)
  {
    assert FormOf(If(value).entries) == Conditional(0);
    hide FormOf;
  }

  /** An `if` needs a mapping with the three keys; the first one missing is named. */
  lemma IfKeysLaw(env: Env, value: Yaml)
    ensures !value.Mapping? ==> Gives(env, If(value), Err(IfNotMapping))
    ensures value.Mapping? && Lacks(value.entries, "cond") ==> Gives(env, If(value), Err(MissingKey("cond")))
    ensures value.Mapping? && !Lacks(value.entries, "cond") && Lacks(value.entries, "then") ==>
      Gives(env, If(value), Err(MissingKey("then")))
    ensures value.Mapping? && !Lacks(value.entries, "cond") && !Lacks(value.entries, "then") ==>
      Lacks(value.entries, "else") ==> Gives(env, If(value), Err(MissingKey("else")))
  {
    IfForm(env, value);
    assert RefExpr(env, If(value), 0) == RefIf(env, value, 0);
    if !value.Mapping? {
      GivesNow(env, If(value), Err(IfNotMapping));
    } else if BranchesOf(value.entries).Err? {
      GivesNow(env, If(value), Err(BranchesOf(value.entries).error));
    }
  }

  lemma FoundAt(entries: seq<Entry>, key: string, value: Yaml)
    requires At(entries, key, value)
    ensures Find(entries, Str(key)).Some? && entries[Find(entries, Str(key)).value].value == value
  {
    var i :| 0 <= i < |entries| && entries[i] == Entry(Str(key), value) &&
      forall j :: 0 <= j < i ==> entries[j].key != Str(key);
    assert entries[i] in entries;
  }

  lemma BranchesAt(entries: seq<Entry>, cond: Yaml, yes: Yaml, no: Yaml)
    requires At(entries, "cond", cond) && At(entries, "then", yes) && At(entries, "else", no)
    ensures BranchesOf(entries).Ok?
    ensures var b := BranchesOf(entries).value;
      entries[b.cond].value == cond && entries[b.yes].value == yes && entries[b.no].value == no
  {
    FoundAt(entries, "cond", cond);
    FoundAt(entries, "then", yes);
    FoundAt(entries, "else", no);
    hide At, Find;
  }

  lemma IfUnfolds(env: Env, branches: seq<Entry>, cond: Yaml, yes: Yaml, no: Yaml, f: nat)
    requires At(branches, "cond", cond) && At(branches, "then", yes) && At(branches, "else", no)
    ensures var c := RefExpr(env, cond, f);
      RefExpr(env, If(Mapping(branches)), f) ==
        if c.None? || c.value.Err? then c
        else if !c.value.value.Bool? then Some(Err(ConditionNotBool))
        else RefExpr(env, if c.value.value.value then yes else no, f)
  {
    IfForm(env, Mapping(branches));
    BranchesAt(branches, cond, yes, no);
    hide At, BranchesOf, RefExpr;
    assert Mapping(branches).entries == branches;
  }

  /** A true condition makes it what the value under `then` is. */
  lemma ThenLaw(env: Env, branches: seq<Entry>, cond: Yaml, yes: Yaml, no: Yaml, r: Result<Yaml, Error>)
    requires At(branches, "cond", cond) && At(branches, "then", yes) && At(branches, "else", no)
    requires Gives(env, cond, Ok(Bool(true)))
    ensures Gives(env, If(Mapping(branches)), r) <==> Gives(env, yes, r)
  {
    Selected(env, branches, cond, yes, no, true, r);
  }

  /** A false one makes it what the value under `else` is. */
  lemma ElseLaw(env: Env, branches: seq<Entry>, cond: Yaml, yes: Yaml, no: Yaml, r: Result<Yaml, Error>)
    requires At(branches, "cond", cond) && At(branches, "then", yes) && At(branches, "else", no)
    requires Gives(env, cond, Ok(Bool(false)))
    ensures Gives(env, If(Mapping(branches)), r) <==> Gives(env, no, r)
  {
    Selected(env, branches, cond, yes, no, false, r);
  }

  lemma Selected(env: Env, branches: seq<Entry>, cond: Yaml, yes: Yaml, no: Yaml, truth: bool, r: Result<Yaml, Error>)
    requires At(branches, "cond", cond) && At(branches, "then", yes) && At(branches, "else", no)
    requires Gives(env, cond, Ok(Bool(truth)))
    ensures Gives(env, If(Mapping(branches)), r) <==> Gives(env, if truth then yes else no, r)
  {
    var taken := if truth then yes else no;
    var g: nat :| RefExpr(env, cond, g) == Some(Ok(Bool(truth)));
    forall f: nat ensures RefExpr(env, cond, f).None? || RefExpr(env, cond, f) == Some(Ok(Bool(truth))) {
      if f <= g && RefExpr(env, cond, f).Some? {
        MoreFuel(env, cond, f, g);
      } else if g <= f {
        MoreFuel(env, cond, g, f);
      }
    }
    hide RefExpr;
    if f: nat :| RefExpr(env, If(Mapping(branches)), f) == Some(r) {
      IfUnfolds(env, branches, cond, yes, no, f);
      assert RefExpr(env, taken, f) == Some(r);
    }
    if f: nat :| RefExpr(env, taken, f) == Some(r) {
      var m := if f < g then g else f;
      MoreFuel(env, taken, f, m);
      MoreFuel(env, cond, g, m);
      IfUnfolds(env, branches, cond, yes, no, m);
      assert RefExpr(env, If(Mapping(branches)), m) == Some(r);
    }
  }

  /** A condition that fails, never finishes, or is no truth value: neither branch counts. */
  lemma ConditionLaw(env: Env, branches: seq<Entry>, cond: Yaml, yes: Yaml, no: Yaml)
    requires At(branches, "cond", cond) && At(branches, "then", yes) && At(branches, "else", no)
    ensures forall e :: Gives(env, cond, Err(e)) ==> Gives(env, If(Mapping(branches)), Err(e))
    ensures forall v: Yaml ::
      !v.Bool? && Gives(env, cond, Ok(v)) ==> Gives(env, If(Mapping(branches)), Err(ConditionNotBool))
    ensures Diverges(env, cond) ==> Diverges(env, If(Mapping(branches)))
  {
    hide RefExpr;
    forall f: nat ensures var c := RefExpr(env, cond, f);
      RefExpr(env, If(Mapping(branches)), f) ==
        if c.None? || c.value.Err? then c
        else if !c.value.value.Bool? then Some(Err(ConditionNotBool))
        else RefExpr(env, if c.value.value.value then yes else no, f)
    {
      IfUnfolds(env, branches, cond, yes, no, f);
    }
    forall e | Gives(env, cond, Err(e)) ensures Gives(env, If(Mapping(branches)), Err(e)) {
      var f: nat :| RefExpr(env, cond, f) == Some(Err(e));
      assert RefExpr(env, If(Mapping(branches)), f) == Some(Err(e));
    }
    forall v: Yaml | !v.Bool? && Gives(env, cond, Ok(v))
      ensures Gives(env, If(Mapping(branches)), Err(ConditionNotBool))
    {
      var f: nat :| RefExpr(env, cond, f) == Some(Ok(v));
      assert RefExpr(env, If(Mapping(branches)), f) == Some(Err(ConditionNotBool));
    }
  }

  // ------------------------------------------------- sequences and mappings

  lemma {:induction false} ItemsOk(env: Env, expr: Yaml, vs: seq<Yaml>, k: nat)
    requires expr.Sequence? && k <= |expr.items| && k <= |vs|
    requires forall i :: 0 <= i < k ==> Gives(env, expr.items[i], Ok(vs[i]))
    ensures ItemsGive(env, expr, k, Ok(vs[..k]))
  {
    if k == 0 {
      assert RefItems(env, expr, 0, 0) == Some(Ok([]));
    } else {
      ItemsOk(env, expr, vs, k - 1);
      ItemsStep(env, expr, k - 1, vs[..k - 1], Ok(vs[k - 1]));
      assert vs[..k - 1] + [vs[k - 1]] == vs[..k];
    }
  }

  lemma ItemsWhole(env: Env, items: seq<Yaml>, r: Result<seq<Yaml>, Error>)
    requires ItemsGive(env, Sequence(items), |items|, r)
    ensures Gives(env, Sequence(items), if r.Ok? then Ok(Sequence(r.value)) else Err(r.error))
  {
    var f: nat :| RefItems(env, Sequence(items), |items|, f) == Some(r);
    assert RefExpr(env, Sequence(items), f) == Some(if r.Ok? then Ok(Sequence(r.value)) else Err(r.error));
  }

  /** A sequence is evaluated item by item, in place. */
  lemma SequenceLaw(env: Env, items: seq<Yaml>, vs: seq<Yaml>)
    requires |vs| == |items| && forall i :: 0 <= i < |items| ==> Gives(env, items[i], Ok(vs[i]))
    ensures Gives(env, Sequence(items), Ok(Sequence(vs)))
  {
    ItemsOk(env, Sequence(items), vs, |items|);
    assert vs[..|items|] == vs;
    ItemsWhole(env, items, Ok(vs));
  }

  /** The first item that fails decides the error. */
  lemma SequenceErrorLaw(env: Env, items: seq<Yaml>, vs: seq<Yaml>, k: nat, e: Error)
    requires k < |items| && k <= |vs| && forall i :: 0 <= i < k ==> Gives(env, items[i], Ok(vs[i]))
    requires Gives(env, items[k], Err(e))
    ensures Gives(env, Sequence(items), Err(e))
  {
    ItemsOk(env, Sequence(items), vs, k);
    ItemsStep(env, Sequence(items), k, vs[..k], Err(e));
    ItemsFail(env, Sequence(items), k + 1, |items|, e);
    ItemsWhole(env, items, Err(e));
  }

  ghost predicate DistinctKeys(entries: seq<Entry>) {
    forall i, j :: 0 <= i < j < |entries| ==> entries[i].key != entries[j].key
  }

  /** The entries with their values replaced. */
  function Filled(entries: seq<Entry>, vs: seq<Yaml>): (r: seq<Entry>)
    requires |vs| <= |entries|
    ensures |r| == |vs| && forall i :: 0 <= i < |vs| ==> r[i] == Entry(entries[i].key, vs[i])
  {
    seq(|vs|, i requires 0 <= i < |vs| => Entry(entries[i].key, vs[i]))
  }

  lemma KeyIsNew(entries: seq<Entry>, k: nat)
    requires DistinctKeys(entries) && k < |entries|
    ensures forall i :: 0 <= i < k ==> entries[i].key != entries[k].key
  {
  }

  lemma NoEntries(env: Env, expr: Yaml)
    requires expr.Mapping?
    ensures EntriesGive(env, expr, 0, Ok([]))
  {
    assert RefEntries(env, expr, 0, 0) == Some(Ok([]));
  }

  lemma {:induction false} EntriesOk(env: Env, expr: Yaml, vs: seq<Yaml>, k: nat)
    requires expr.Mapping? && k <= |expr.entries| && k <= |vs| && DistinctKeys(expr.entries)
    requires forall i :: 0 <= i < k ==> Gives(env, expr.entries[i].value, Ok(vs[i]))
    ensures EntriesGive(env, expr, k, Ok(Filled(expr.entries, vs[..k])))
  {
    hide Gives, EntriesGive, DistinctKeys;
    if k == 0 {
      NoEntries(env, expr);
      assert Filled(expr.entries, vs[..0]) == [];
    } else {
      KeyIsNew(expr.entries, k - 1);
      EntriesOk(env, expr, vs, k - 1);
      var done := Filled(expr.entries, vs[..k - 1]);
      EntriesStep(env, expr, k - 1, done, Ok(vs[k - 1]));
      assert forall e :: e in done ==> e.key != expr.entries[k - 1].key;
      assert done + [Entry(expr.entries[k - 1].key, vs[k - 1])] == Filled(expr.entries, vs[..k]);
    }
  }

  lemma EntriesWhole(env: Env, entries: seq<Entry>, r: Result<seq<Entry>, Error>)
    requires Lacks(entries, "var") && Lacks(entries, "if") && EntriesGive(env, Mapping(entries), |entries|, r)
    ensures Gives(env, Mapping(entries), if r.Ok? then Materialize(env, r.value) else Err(r.error))
  {
    assert FormOf(entries).Plain?;
    hide FormOf, Lacks;
    var f: nat :| RefEntries(env, Mapping(entries), |entries|, f) == Some(r);
    assert RefExpr(env, Mapping(entries), f) ==
      Some(if r.Ok? then Materialize(env, r.value) else Err(r.error));
  }

  /** Any other mapping is handed to the value resolver with its values evaluated, keys and order kept. */
  lemma MappingLaw(env: Env, entries: seq<Entry>, vs: seq<Yaml>)
    requires Lacks(entries, "var") && Lacks(entries, "if") && DistinctKeys(entries) && |vs| == |entries|
    requires forall i :: 0 <= i < |entries| ==> Gives(env, entries[i].value, Ok(vs[i]))
    ensures var resolved := env.resolver(Mapping(Filled(entries, vs)));
      Gives(env, Mapping(entries), if resolved.Ok? then Ok(resolved.value) else Err(Unresolved(resolved.error)))
  {
    EntriesOk(env, Mapping(entries), vs, |entries|);
    assert vs[..|entries|] == vs;
    EntriesWhole(env, entries, Ok(Filled(entries, vs)));
  }

  lemma MappingErrorLaw(env: Env, entries: seq<Entry>, vs: seq<Yaml>, k: nat, e: Error)
    requires Lacks(entries, "var") && Lacks(entries, "if") && DistinctKeys(entries)
    requires k < |entries| && k <= |vs| && forall i :: 0 <= i < k ==> Gives(env, entries[i].value, Ok(vs[i]))
    requires Gives(env, entries[k].value, Err(e))
    ensures Gives(env, Mapping(entries), Err(e))
  {
    EntriesOk(env, Mapping(entries), vs, k);
    EntriesStep(env, Mapping(entries), k, Filled(entries, vs[..k]), Err(e));
    EntriesFail(env, Mapping(entries), k + 1, |entries|, e);
    EntriesWhole(env, entries, Err(e));
  }
}
