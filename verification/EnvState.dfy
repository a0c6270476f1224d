/** The environment as two lists, its operations, and what export and import do
    to it. */
module EnvState {
  import opened Bytes
  import opened EnvList
  import opened EnvText

  /** Variables and flags. */
  datatype State = State(ekv: seq<Kv>, fkv: seq<Kv>)

  const EMPTY: State := State([], [])

  /** ".flags" */
  const FLAGS: CStr := [46, 102, 108, 97, 103, 115]

  /** What every operation keeps. */
  ghost predicate Good(s: State) {
    Distinct(s.ekv) && Distinct(s.fkv) && LegalKeys(s.ekv) && LegalKeys(s.fkv)
  }

  /** env_set with a legal name; None is NULL. */
  function SetVar(s: State, name: CStr, value: Option<CStr>): State {
    s.(ekv := if value.None? then Delete(s.ekv, name) else Insert(s.ekv, name, value.value))
  }

  /** env_set_flag with a legal name. */
  function SetFlag(s: State, name: CStr, attr: Option<CStr>): State {
    var f := if attr.None? then Delete(s.fkv, name) else Insert(s.fkv, name, attr.value);
    if |f| == 0 then SetVar(s.(fkv := f), FLAGS, None)
    else
      var g := Sort(f);
      SortLength(f);
      SetVar(s.(fkv := g), FLAGS, Some(Join(g)))
  }

  lemma {:induction false} SortLength(kvs: seq<Kv>)
    ensures |Sort(kvs)| == |kvs|
  {
    if |kvs| > 0 {
      SortLength(kvs[..|kvs| - 1]);
      InsertSortedElements(kvs[|kvs| - 1], Sort(kvs[..|kvs| - 1]));
      assert |multiset(InsertSorted(kvs[|kvs| - 1], Sort(kvs[..|kvs| - 1])))| == |kvs|;
    }
  }

  // ---- invariants of single operations ----

  lemma {:induction false} LegalAfterInsert(kvs: seq<Kv>, name: CStr, value: CStr)
    requires LegalKeys(kvs) && Legal(name)
    ensures LegalKeys(Insert(kvs, name, value))
  {}

  lemma {:induction false} LegalAfterSort(kvs: seq<Kv>)
    requires LegalKeys(kvs) && Distinct(kvs)
    ensures LegalKeys(Sort(kvs))
  {
    SortCorrect(kvs);
    forall i | 0 <= i < |Sort(kvs)|
      ensures Legal(Sort(kvs)[i].key)
    {
      assert Sort(kvs)[i] in multiset(kvs);
      var j :| 0 <= j < |kvs| && kvs[j] == Sort(kvs)[i];
    }
  }

  lemma {:induction false} FlagsLegal()
    ensures Legal(FLAGS)
  {}

  lemma {:induction false} SetVarGood(s: State, name: CStr, value: Option<CStr>)
    requires Good(s) && Legal(name)
    ensures Good(SetVar(s, name, value))
    ensures MapOf(SetVar(s, name, value).ekv) ==
            if value.None? then MapOf(s.ekv) - {name} else MapOf(s.ekv)[name := value.value]
  {
    if value.None? {
      DeleteMap(s.ekv, name);
      LegalAfterDelete(s.ekv, name);
    } else {
      InsertMap(s.ekv, name, value.value);
      LegalAfterInsert(s.ekv, name, value.value);
    }
  }

  /** The flag map after one call. */
  function FlagsAfter(m: map<CStr, CStr>, name: CStr, attr: Option<CStr>): map<CStr, CStr> {
    if attr.None? then m - {name} else m[name := attr.value]
  }

  lemma {:induction false} ListAfter(f: seq<Kv>, name: CStr, attr: Option<CStr>)
    requires Distinct(f) && LegalKeys(f) && Legal(name)
    ensures var g := if attr.None? then Delete(f, name) else Insert(f, name, attr.value);
            Distinct(g) && LegalKeys(g) && MapOf(g) == FlagsAfter(MapOf(f), name, attr)
  {
    if attr.None? {
      DeleteMap(f, name);
      LegalAfterDelete(f, name);
    } else {
      InsertMap(f, name, attr.value);
      LegalAfterInsert(f, name, attr.value);
    }
  }

  lemma {:induction false} LegalAfterDelete(kvs: seq<Kv>, name: CStr)
    requires LegalKeys(kvs)
    ensures LegalKeys(Delete(kvs, name))
  {
    var i := Find(kvs, name);
    if i < |kvs| {
      var r := Delete(kvs, name);
      forall j | 0 <= j < |r|
        ensures Legal(r[j].key)
      {
        assert r[j] == if j < i then kvs[j] else kvs[j + 1];
      }
    }
  }

  /** The text of the flag variable is the sorted list, joined; no flags, no
      variable. */
  ghost predicate Derived(s: State) {
    && Good(s)
    && (if |s.fkv| == 0 then FLAGS !in MapOf(s.ekv)
        else SortedText(s.fkv) && Maps(MapOf(s.ekv), FLAGS, Join(Sort(s.fkv))))
  }

  predicate SortedText(f: seq<Kv>) { |Sort(f)| > 0 }

  lemma {:induction false} WithoutKey(m: map<CStr, CStr>, k: CStr, v: Option<CStr>)
    ensures FlagsAfter(m, k, v) - {k} == m - {k}
  {}

  lemma {:induction false} OtherKey(m: map<CStr, CStr>, k: CStr, n: CStr, v: Option<CStr>)
    requires n != k
    ensures FlagsAfter(m, n, v) - {k} == FlagsAfter(m - {k}, n, v)
  {}

  /** Writing the text of a non-empty flag list. */
  lemma {:induction false} TextWritten(s: State, f: seq<Kv>)
    requires Good(s) && Distinct(f) && LegalKeys(f) && |f| > 0 && |Sort(f)| > 0
    ensures var r := SetVar(s.(fkv := Sort(f)), FLAGS, Some(Join(Sort(f))));
            Derived(r) && MapOf(r.fkv) == MapOf(f) && MapOf(r.ekv) - {FLAGS} == MapOf(s.ekv) - {FLAGS}
  {
    var g := Sort(f);
    MapOfSort(f);
    LegalAfterSort(f);
    SortCorrect(f);
    SortOfSorted(g);
    FlagsLegal();
    SetVarGood(s.(fkv := g), FLAGS, Some(Join(g)));
    WithoutKey(MapOf(s.ekv), FLAGS, Some(Join(g)));
  }

  /** Setting a flag leaves the derived variable in step with the flags,
      whatever it was before. */
  lemma {:induction false} SetFlagDerived(s: State, name: CStr, attr: Option<CStr>)
    requires Good(s) && Legal(name)
    ensures var r := SetFlag(s, name, attr);
            && Derived(r) && MapOf(r.fkv) == FlagsAfter(MapOf(s.fkv), name, attr)
            && MapOf(r.ekv) - {FLAGS} == MapOf(s.ekv) - {FLAGS}
  {
    var f := if attr.None? then Delete(s.fkv, name) else Insert(s.fkv, name, attr.value);
    ListAfter(s.fkv, name, attr);
    if |f| == 0 {
      FlagsLegal();
      SetVarGood(s.(fkv := f), FLAGS, None);
      WithoutKey(MapOf(s.ekv), FLAGS, None);
    } else {
      SortLength(f);
      TextWritten(s, f);
    }
  }

  lemma {:induction false} SetVarDerived(s: State, name: CStr, value: Option<CStr>)
    requires Derived(s) && Legal(name) && name != FLAGS
    ensures Derived(SetVar(s, name, value))
  {
    SetVarGood(s, name, value);
  }

  // ---- runs ----

  datatype Op = Var(name: CStr, value: Option<CStr>) | Flag(name: CStr, value: Option<CStr>)

  function Step(s: State, op: Op): State {
    if !Legal(op.name) then s
    else match op case Var(n, v) => SetVar(s, n, v) case Flag(n, a) => SetFlag(s, n, a)
  }

  function Run(s: State, ops: seq<Op>): State {
    if |ops| == 0 then s else Step(Run(s, ops[..|ops| - 1]), ops[|ops| - 1])
  }

  /** Two plain maps: variables and flags. */
  datatype Plain = Plain(vars: map<CStr, CStr>, flags: map<CStr, CStr>)

  function PlainStep(p: Plain, op: Op): Plain {
    if !Legal(op.name) then p
    else match op
      case Var(n, v) => p.(vars := FlagsAfter(p.vars, n, v))
      case Flag(n, a) => p.(flags := FlagsAfter(p.flags, n, a))
  }

  function PlainRun(p: Plain, ops: seq<Op>): Plain {
    if |ops| == 0 then p else PlainStep(PlainRun(p, ops[..|ops| - 1]), ops[|ops| - 1])
  }

  /** Over every run the lists are the plain maps, and the flag variable is the
      flag map. */
  lemma {:induction false} RunAgrees(s: State, ops: seq<Op>)
    requires Derived(s) && forall i | 0 <= i < |ops| :: ops[i].Var? ==> ops[i].name != FLAGS
    ensures var r, p := Run(s, ops), PlainRun(Plain(MapOf(s.ekv) - {FLAGS}, MapOf(s.fkv)), ops);
            Derived(r) && MapOf(r.ekv) - {FLAGS} == p.vars && MapOf(r.fkv) == p.flags
  {
    if |ops| > 0 {
      var init, op := ops[..|ops| - 1], ops[|ops| - 1];
      RunAgrees(s, init);
      StepAgrees(Run(s, init), op);
    }
  }

  lemma {:induction false} StepAgrees(s: State, op: Op)
    requires Derived(s) && (op.Var? ==> op.name != FLAGS)
    ensures var r, p := Step(s, op), PlainStep(Plain(MapOf(s.ekv) - {FLAGS}, MapOf(s.fkv)), op);
            Derived(r) && MapOf(r.ekv) - {FLAGS} == p.vars && MapOf(r.fkv) == p.flags
  {
    if Legal(op.name) {
      if op.Var? {
        SetVarDerived(s, op.name, op.value);
        SetVarGood(s, op.name, op.value);
        OtherKey(MapOf(s.ekv), FLAGS, op.name, op.value);
      } else {
        SetFlagDerived(s, op.name, op.value);
      }
    }
  }

  /** With direct writes to the flag variable too, keys stay distinct and legal. */
  lemma {:induction false} RunGood(s: State, ops: seq<Op>)
    requires Good(s)
    ensures Good(Run(s, ops))
  {
    if |ops| > 0 {
      var op, t := ops[|ops| - 1], Run(s, ops[..|ops| - 1]);
      RunGood(s, ops[..|ops| - 1]);
      if Legal(op.name) {
        if op.Var? { SetVarGood(t, op.name, op.value); } else { SetFlagDerived(t, op.name, op.value); }
      }
    }
  }

  /** The derived text depends on the flag map alone. */
  lemma {:induction false} TextOfMap(s: State, f: seq<Kv>)
    requires Derived(s) && Distinct(f) && MapOf(f) == MapOf(s.fkv) && |s.fkv| > 0
    ensures |Sort(f)| > 0 && Maps(MapOf(s.ekv), FLAGS, Join(Sort(f)))
  {
    SortOfMap(f, s.fkv);
  }
}
