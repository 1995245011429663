/** fireflower/tasks.py: the metaclass that wraps every task class's `run` with the
    Sentry wrapper, the identity `SignatureTask` gives its instances, and the date mixins. */
module Tasks {
  import opened Common
  import opened Dates
  import Values
  import Utils

  // ----- FireflowerLuigiMeta.__call__ (tasks.py:22-34) ------------------------------------

  /** A `run` method: the one defined in the body of class `cls`, or a wrapper around
      another `run` (`luigi_run_with_sentry(run)`). */
  datatype Run = Defined(cls: nat) | Wrapped(inner: Run)

  /** How many times a `run` has been wrapped. */
  function Depth(r: Run): nat
  {
    match r
    case Defined(_) => 0
    case Wrapped(inner) => 1 + Depth(inner)
  }

  /** A task class, as its own `__dict__` sees `run` and `_is_run_method_wrapped_by_fireflower`
      (None where the attribute is inherited), and the index of its base class. */
  datatype TaskClass = TaskClass(parent: nat, ownRun: Option<Run>, ownFlag: Option<bool>)

  /** The classes derived from `FireflowerTask`, which is class 0 and owns both attributes;
      every other class comes after its base. A class owns a flag only together with a
      `run`: the metaclass sets both at once. */
  predicate WellFormed(cs: seq<TaskClass>)
  {
    && |cs| > 0 && cs[0].ownRun.Some? && cs[0].ownFlag.Some?
    && (forall i :: 0 < i < |cs| ==> cs[i].parent < i)
    && (forall i :: 0 <= i < |cs| && cs[i].ownFlag.Some? ==> cs[i].ownRun.Some?)
  }

  /** `cls.run`: the attribute looked up along the base classes. */
  function RunOf(cs: seq<TaskClass>, i: nat): Run
    requires WellFormed(cs) && i < |cs|
    decreases i
  {
    if cs[i].ownRun.Some? then cs[i].ownRun.value else RunOf(cs, cs[i].parent)
  }

  /** `cls._is_run_method_wrapped_by_fireflower`, looked up the same way. */
  function FlagOf(cs: seq<TaskClass>, i: nat): bool
    requires WellFormed(cs) && i < |cs|
    decreases i
  {
    if cs[i].ownFlag.Some? then cs[i].ownFlag.value else FlagOf(cs, cs[i].parent)
  }

  /** Whether looking `run` up from class `j` passes through class `i`. */
  predicate ReachesRun(cs: seq<TaskClass>, j: nat, i: nat)
    requires WellFormed(cs) && j < |cs|
    decreases j
  {
    j == i || (cs[j].ownRun.None? && ReachesRun(cs, cs[j].parent, i))
  }

  /** Whether looking the flag up from class `j` passes through class `i`. */
  predicate ReachesFlag(cs: seq<TaskClass>, j: nat, i: nat)
    requires WellFormed(cs) && j < |cs|
    decreases j
  {
    j == i || (cs[j].ownFlag.None? && ReachesFlag(cs, cs[j].parent, i))
  }

  /** A class statement `class C(Base)`: it defines its own `run` or inherits it, and never
      sets the flag itself. */
  function Define(cs: seq<TaskClass>, parent: nat, overridesRun: bool): (r: seq<TaskClass>)
    requires WellFormed(cs) && parent < |cs|
    ensures WellFormed(r) && |r| == |cs| + 1 && r[..|cs|] == cs
    ensures overridesRun ==> RunOf(r, |cs|) == Defined(|cs|)
    ensures !overridesRun ==> RunOf(r, |cs|) == RunOf(cs, parent)
    ensures FlagOf(r, |cs|) == FlagOf(cs, parent)
  {
    var r := cs + [TaskClass(parent, if overridesRun then Some(Defined(|cs|)) else None, None)];
    LookupAppend(cs, r, parent);
    r
  }

  /** `__call__` as written: the flag is read through the base classes, so a class whose
      base was instantiated first finds `True` and its own `run` is never wrapped. */
  function CallAsWritten(cs: seq<TaskClass>, i: nat): (r: seq<TaskClass>)
    requires WellFormed(cs) && i < |cs|
    ensures WellFormed(r) && |r| == |cs|
    ensures FlagOf(r, i)
    ensures FlagOf(cs, i) ==> r == cs
    ensures !FlagOf(cs, i) ==> RunOf(r, i) == Wrapped(RunOf(cs, i))
  {
    if FlagOf(cs, i) then cs
    else
      var r := cs[i := cs[i].(ownRun := Some(Wrapped(RunOf(cs, i))), ownFlag := Some(true))];
      RunAfterUpdate(cs, r, i, Wrapped(RunOf(cs, i)), i);
      r
  }

  /** `__call__` as intended: a class's `run` is wrapped exactly when the `run` it would
      execute is not wrapped yet. */
  function Call(cs: seq<TaskClass>, i: nat): (r: seq<TaskClass>)
    requires WellFormed(cs) && i < |cs|
    ensures WellFormed(r) && |r| == |cs|
    ensures RunOf(r, i).Wrapped?
    ensures RunOf(cs, i).Wrapped? ==> r == cs
    ensures !RunOf(cs, i).Wrapped? ==> RunOf(r, i) == Wrapped(RunOf(cs, i))
  {
    if RunOf(cs, i).Wrapped? then cs
    else
      var r := cs[i := cs[i].(ownRun := Some(Wrapped(RunOf(cs, i))))];
      RunAfterUpdate(cs, r, i, Wrapped(RunOf(cs, i)), i);
      r
  }

  /** Appending a class changes no lookup from the classes already there. */
  lemma {:induction false} LookupAppend(cs: seq<TaskClass>, r: seq<TaskClass>, j: nat)
    requires WellFormed(cs) && WellFormed(r) && |cs| <= |r| && r[..|cs|] == cs && j < |cs|
    ensures RunOf(r, j) == RunOf(cs, j) && FlagOf(r, j) == FlagOf(cs, j)
    decreases j
  {
    assert r[j] == cs[j];
    if cs[j].ownRun.None? || cs[j].ownFlag.None? {
      LookupAppend(cs, r, cs[j].parent);
    }
  }

  /** Giving class `i` its own `run` changes exactly the lookups that passed through `i`. */
  lemma {:induction false} RunAfterUpdate(cs: seq<TaskClass>, cs': seq<TaskClass>, i: nat, run: Run, j: nat)
    requires WellFormed(cs) && WellFormed(cs') && |cs'| == |cs| && i < |cs| && j < |cs|
    requires forall k :: 0 <= k < |cs| && k != i ==> cs'[k] == cs[k]
    requires cs'[i].parent == cs[i].parent && cs'[i].ownRun == Some(run)
    ensures RunOf(cs', j) == if ReachesRun(cs, j, i) then run else RunOf(cs, j)
    decreases j
  {
    if j != i && cs[j].ownRun.None? {
      RunAfterUpdate(cs, cs', i, run, cs[j].parent);
    }
  }

  /** Giving class `i` its own flag changes exactly the flag lookups that passed through `i`. */
  lemma {:induction false} FlagAfterUpdate(cs: seq<TaskClass>, cs': seq<TaskClass>, i: nat, flag: bool, j: nat)
    requires WellFormed(cs) && WellFormed(cs') && |cs'| == |cs| && i < |cs| && j < |cs|
    requires forall k :: 0 <= k < |cs| && k != i ==> cs'[k] == cs[k]
    requires cs'[i].parent == cs[i].parent && cs'[i].ownFlag == Some(flag)
    ensures FlagOf(cs', j) == if ReachesFlag(cs, j, i) then flag else FlagOf(cs, j)
    decreases j
  {
    if j != i && cs[j].ownFlag.None? {
      FlagAfterUpdate(cs, cs', i, flag, cs[j].parent);
    }
  }

  /** A `run` lookup that passes through a class also passes through it looking for the
      flag, since a class that owns the flag owns a `run`. */
  lemma {:induction false} ReachesRunFlag(cs: seq<TaskClass>, j: nat, i: nat)
    requires WellFormed(cs) && j < |cs| && ReachesRun(cs, j, i)
    ensures ReachesFlag(cs, j, i)
    decreases j
  {
    if j != i {
      ReachesRunFlag(cs, cs[j].parent, i);
    }
  }

  /** No class would execute a `run` wrapped more than once. */
  predicate AtMostOnce(cs: seq<TaskClass>)
  {
    WellFormed(cs) && forall j :: 0 <= j < |cs| ==> Depth(RunOf(cs, j)) <= 1
  }

  /** What the flag is meant to record, as far as the code as written keeps it: a class
      that reads the flag as False executes an unwrapped `run`. */
  predicate FlagSound(cs: seq<TaskClass>)
  {
    AtMostOnce(cs) && forall j :: 0 <= j < |cs| && !FlagOf(cs, j) ==> Depth(RunOf(cs, j)) == 0
  }

  /** The classes as defined in the source, before any instantiation: every `run` is the
      one written in a class body, and only `FireflowerTask` sets the flag, to False. */
  predicate Initial(cs: seq<TaskClass>)
  {
    && WellFormed(cs) && cs[0].ownFlag == Some(false)
    && (forall i :: 0 <= i < |cs| ==> cs[i].ownRun.None? || cs[i].ownRun.value.Defined?)
    && (forall i :: 0 < i < |cs| ==> cs[i].ownFlag.None?)
  }

  lemma {:induction false} InitialLookups(cs: seq<TaskClass>, j: nat)
    requires Initial(cs) && j < |cs|
    ensures RunOf(cs, j).Defined? && !FlagOf(cs, j)
    decreases j
  {
    if cs[j].ownRun.None? || cs[j].ownFlag.None? {
      InitialLookups(cs, cs[j].parent);
    }
  }

  /** Before any instantiation, the flag tells the truth. */
  lemma InitialFlagSound(cs: seq<TaskClass>)
    requires Initial(cs)
    ensures FlagSound(cs)
  {
    forall j | 0 <= j < |cs| ensures Depth(RunOf(cs, j)) == 0 && !FlagOf(cs, j) {
      InitialLookups(cs, j);
    }
  }

  /** Defining a class keeps the flag sound. */
  lemma DefineFlagSound(cs: seq<TaskClass>, parent: nat, overridesRun: bool)
    requires FlagSound(cs) && parent < |cs|
    ensures FlagSound(Define(cs, parent, overridesRun))
  {
    var r := Define(cs, parent, overridesRun);
    forall j | 0 <= j < |cs| ensures RunOf(r, j) == RunOf(cs, j) && FlagOf(r, j) == FlagOf(cs, j) {
      LookupAppend(cs, r, j);
    }
  }

  /** As written, a class's `run` is still wrapped at most once, and the flag stays sound. */
  lemma CallAsWrittenFlagSound(cs: seq<TaskClass>, i: nat)
    requires FlagSound(cs) && i < |cs|
    ensures FlagSound(CallAsWritten(cs, i))
  {
    if !FlagOf(cs, i) {
      var run := Wrapped(RunOf(cs, i));
      var r := CallAsWritten(cs, i);
      forall j | 0 <= j < |cs|
        ensures Depth(RunOf(r, j)) <= 1 && (!FlagOf(r, j) ==> Depth(RunOf(r, j)) == 0)
      {
        RunAfterUpdate(cs, r, i, run, j);
        FlagAfterUpdate(cs, r, i, true, j);
        if ReachesRun(cs, j, i) {
          ReachesRunFlag(cs, j, i);
        }
      }
    }
  }

  /** Instantiating again does nothing more. */
  lemma CallAsWrittenIdempotent(cs: seq<TaskClass>, i: nat)
    requires WellFormed(cs) && i < |cs|
    ensures CallAsWritten(CallAsWritten(cs, i), i) == CallAsWritten(cs, i)
  {
  }

  /** As written, a class that overrides `run` and is instantiated after its base never has
      its `run` wrapped: `FireflowerTask`, `A(FireflowerTask)` and `B(A)`, both overriding,
      with `A` instantiated before `B`. As intended, `B`'s `run` is wrapped. */
  lemma AsWrittenMissesSubclass()
    ensures var cs := Define(Define([TaskClass(0, Some(Defined(0)), Some(false))], 0, true), 1, true);
      && Depth(RunOf(CallAsWritten(cs, 1), 1)) == 1
      && Depth(RunOf(CallAsWritten(CallAsWritten(cs, 1), 2), 2)) == 0
      && Depth(RunOf(Call(Call(cs, 1), 2), 2)) == 1
  {
    var root := [TaskClass(0, Some(Defined(0)), Some(false))];
    var cs := Define(Define(root, 0, true), 1, true);
    assert cs == root + [TaskClass(0, Some(Defined(1)), None), TaskClass(1, Some(Defined(2)), None)];
    var first := CallAsWritten(cs, 1);
    assert FlagOf(first, 1) && first[2] == cs[2];
    assert FlagOf(first, 2);
    assert CallAsWritten(first, 2) == first;
    assert RunOf(first, 2) == Defined(2);
  }

  /** As intended, a `run` wrapped by one class is never wrapped again. */
  lemma CallAtMostOnce(cs: seq<TaskClass>, i: nat)
    requires AtMostOnce(cs) && i < |cs|
    ensures AtMostOnce(Call(cs, i))
    ensures Depth(RunOf(Call(cs, i), i)) == 1
  {
    var r := Call(cs, i);
    if !RunOf(cs, i).Wrapped? {
      var run := Wrapped(RunOf(cs, i));
      forall j | 0 <= j < |cs| ensures Depth(RunOf(r, j)) <= 1 {
        RunAfterUpdate(cs, r, i, run, j);
      }
      RunAfterUpdate(cs, r, i, run, i);
    }
  }

  /** Defining a class keeps every `run` wrapped at most once. */
  lemma DefineAtMostOnce(cs: seq<TaskClass>, parent: nat, overridesRun: bool)
    requires AtMostOnce(cs) && parent < |cs|
    ensures AtMostOnce(Define(cs, parent, overridesRun))
  {
    var r := Define(cs, parent, overridesRun);
    forall j | 0 <= j < |cs| ensures RunOf(r, j) == RunOf(cs, j) {
      LookupAppend(cs, r, j);
    }
  }

  /** The task classes of a program, as the metaclass changes them. */
  class TaskRegistry {
    var classes: seq<TaskClass>

    constructor (classes: seq<TaskClass>)
      requires Initial(classes)
      ensures this.classes == classes && AtMostOnce(this.classes)
    {
      this.classes := classes;
      InitialFlagSound(classes);
    }

    /** A class statement deriving from class `parent`. */
    method DefineClass(parent: nat, overridesRun: bool) returns (index: nat)
      requires AtMostOnce(classes) && parent < |classes|
      modifies this
      ensures classes == Define(old(classes), parent, overridesRun) && index == |old(classes)|
      ensures AtMostOnce(classes)
    {
      DefineAtMostOnce(classes, parent, overridesRun);
      index := |classes|;
      classes := Define(classes, parent, overridesRun);
    }

    /** `cls(*args, **kwargs)`: wraps `run` if it is not wrapped yet, then luigi builds the
        instance. */
    method Instantiate(i: nat)
      requires AtMostOnce(classes) && i < |classes|
      modifies this
      ensures classes == Call(old(classes), i)
      ensures AtMostOnce(classes) && Depth(RunOf(classes, i)) == 1
    {
      CallAtMostOnce(classes, i);
      classes := Call(classes, i);
    }
  }

  // ----- SignatureTask.__init__ (tasks.py:94-111) -----------------------------------------

  /** A parameter object: a `SignatureParameter`, or another parameter with its `serialize`. */
  datatype ParamKind = SignatureParam | OtherParam(serialize: Values.Value -> string)

  /** An entry of `get_params()`: a name and its parameter object. */
  datatype Param = Param(name: string, significant: bool, kind: ParamKind)

  /** The value a significant parameter contributes under the ordering `ord` that
      `deep_sorted` uses: `Values.PythonOrder` is the source's, `Values.TotalOrder` the
      intended one. `digest(v)` is the MD5 hex digest of `str(v)`. */
  function PartValue(ord: Values.Order, kind: ParamKind, v: Values.Value, digest: Values.Value -> string): string
  {
    match kind
    case SignatureParam => digest(Values.DeepSortedBy(ord, v))
    case OtherParam(serialize) => serialize(v)
  }

  /** The ordering matters only for signature parameters whose value holds a bool:
      otherwise the part as written is the part as intended. */
  lemma PartValueAgree(kind: ParamKind, v: Values.Value, digest: Values.Value -> string)
    requires kind.OtherParam? || Values.BoolFree(v)
    ensures PartValue(Values.PythonOrder, kind, v, digest) == PartValue(Values.TotalOrder, kind, v, digest)
  {
    if kind.SignatureParam? {
      Values.DeepSortedAgree(v);
    }
  }

  predicate Named(ps: seq<Param>, values: map<string, Values.Value>)
  {
    forall k :: 0 <= k < |ps| ==> ps[k].name in values
  }

  /** `task_id_parts`: one `'name=value'` per significant parameter, in order. */
  function Parts(ord: Values.Order, ps: seq<Param>, values: map<string, Values.Value>,
                 digest: Values.Value -> string): (r: seq<string>)
    requires Named(ps, values)
    ensures |r| <= |ps|
    ensures r == [] <==> forall k :: 0 <= k < |ps| ==> !ps[k].significant
  {
    if ps == [] then []
    else
      var p := ps[|ps| - 1];
      assert forall k :: 0 <= k < |ps| - 1 ==> ps[..|ps| - 1][k] == ps[k];
      Parts(ord, ps[..|ps| - 1], values, digest)
      + (if p.significant then [p.name + "=" + PartValue(ord, p.kind, values[p.name], digest)] else [])
  }

  /** The significant parameters, in order. */
  function Significant(ps: seq<Param>): (r: seq<Param>)
    ensures forall q :: q in r ==> q in ps && q.significant
    ensures forall p :: p in ps && p.significant ==> p in r
  {
    if ps == [] then []
    else Significant(ps[..|ps| - 1]) + (if ps[|ps| - 1].significant then [ps[|ps| - 1]] else [])
  }

  /** Exactly the significant parameters contribute a part, in `get_params` order, each
      written `name=value`. */
  lemma {:induction false} PartsOfSignificant(ord: Values.Order, ps: seq<Param>,
                                              values: map<string, Values.Value>, digest: Values.Value -> string)
    requires Named(ps, values)
    ensures var sig := Significant(ps);
      |Parts(ord, ps, values, digest)| == |sig| &&
      forall k :: 0 <= k < |sig| ==>
        sig[k].name in values &&
        Parts(ord, ps, values, digest)[k]
          == sig[k].name + "=" + PartValue(ord, sig[k].kind, values[sig[k].name], digest)
  {
    if ps != [] {
      PartsOfSignificant(ord, ps[..|ps| - 1], values, digest);
    }
  }

  /** `sep.join(xs)`: the strings in order with `sep` between neighbours. */
  function Join(sep: string, xs: seq<string>): (r: string)
    ensures |r| == TotalLength(xs) + (if xs == [] then 0 else |sep| * (|xs| - 1))
  {
    if xs == [] then "" else if |xs| == 1 then xs[0]
    else Join(sep, xs[..|xs| - 1]) + sep + xs[|xs| - 1]
  }

  /** The joined string starts with the first part and ends with the last. */
  lemma {:induction false} JoinEnds(sep: string, xs: seq<string>)
    requires xs != []
    ensures xs[0] <= Join(sep, xs)
    ensures |xs[|xs| - 1]| <= |Join(sep, xs)|
    ensures Join(sep, xs)[|Join(sep, xs)| - |xs[|xs| - 1]|..] == xs[|xs| - 1]
  {
    if |xs| > 1 {
      var init := Join(sep, xs[..|xs| - 1]);
      JoinEnds(sep, xs[..|xs| - 1]);
      assert xs[..|xs| - 1][0] == xs[0];
      assert (init + sep + xs[|xs| - 1])[..|init|] == init;
    }
  }

  function TotalLength(xs: seq<string>): nat
  {
    if xs == [] then 0 else TotalLength(xs[..|xs| - 1]) + |xs[|xs| - 1]|
  }

  /** The `task_id` of a `SignatureTask`, `task_family(name=value, ...)`, with the parts
      of signature parameters hashed from `deep_sorted` under `ord`. */
  method SignatureTaskId(ord: Values.Order, family: string, params: seq<Param>,
                         values: map<string, Values.Value>, digest: Values.Value -> string)
    returns (id: string)
    requires Named(params, values)
    ensures id == family + "(" + Join(", ", Parts(ord, params, values, digest)) + ")"
  {
    var parts: seq<string> := [];
    var i := 0;
    while i < |params|
      invariant 0 <= i <= |params|
      invariant parts == Parts(ord, params[..i], values, digest)
    {
      var p := params[i];
      if p.significant {
        var value: string;
        match p.kind {
          case SignatureParam => value := digest(Values.DeepSortedBy(ord, values[p.name]));
          case OtherParam(serialize) => value := serialize(values[p.name]);
        }
        parts := parts + [p.name + "=" + value];
      }
      assert params[..i + 1][..i] == params[..i];
      i := i + 1;
    }
    assert params[..i] == params;
    id := family + "(" + Join(", ", parts) + ")";
  }

  /** Parameter values that agree up to `deep_sorted` on signature parameters, and exactly
      on the others, give the same parts. */
  lemma {:induction false} PartsAgree(ord: Values.Order, ps: seq<Param>, values: map<string, Values.Value>,
                                      values': map<string, Values.Value>, digest: Values.Value -> string)
    requires Named(ps, values) && Named(ps, values')
    requires forall k :: 0 <= k < |ps| && ps[k].significant ==>
      if ps[k].kind.SignatureParam?
      then Values.DeepSortedBy(ord, values[ps[k].name]) == Values.DeepSortedBy(ord, values'[ps[k].name])
      else values[ps[k].name] == values'[ps[k].name]
    ensures Parts(ord, ps, values, digest) == Parts(ord, ps, values', digest)
  {
    if ps != [] {
      PartsAgree(ord, ps[..|ps| - 1], values, values', digest);
    }
  }

  /** As intended, reordering the elements of a list given to a signature parameter
      leaves the `task_id` unchanged. */
  lemma SignatureIgnoresListOrder(params: seq<Param>, values: map<string, Values.Value>,
                                  digest: Values.Value -> string, name: string, p: seq<Values.Value>,
                                  q: seq<Values.Value>)
    requires Named(params, values) && name in values && values[name] == Values.List(p)
    requires multiset(p) == multiset(q)
    requires forall k :: 0 <= k < |params| && params[k].name == name ==> params[k].kind.SignatureParam?
    ensures Parts(Values.TotalOrder, params, values, digest)
         == Parts(Values.TotalOrder, params, values[name := Values.List(q)], digest)
  {
    Values.DeepSortedListPermutation(p, q);
    PartsAgree(Values.TotalOrder, params, values, values[name := Values.List(q)], digest);
  }

  /** As intended, reordering the items of a dict given to a signature parameter leaves
      the `task_id` unchanged. */
  lemma SignatureIgnoresDictOrder(params: seq<Param>, values: map<string, Values.Value>,
                                  digest: Values.Value -> string, name: string, d: seq<Values.Entry>,
                                  e: seq<Values.Entry>)
    requires Named(params, values) && name in values && values[name] == Values.Dict(d)
    requires multiset(d) == multiset(e)
    requires forall k :: 0 <= k < |params| && params[k].name == name ==> params[k].kind.SignatureParam?
    ensures Parts(Values.TotalOrder, params, values, digest)
         == Parts(Values.TotalOrder, params, values[name := Values.Dict(e)], digest)
  {
    Values.DeepSortedDictPermutation(d, e);
    PartsAgree(Values.TotalOrder, params, values, values[name := Values.Dict(e)], digest);
  }

  /** As written, reordering a list without bools given to a signature parameter leaves
      the `task_id` unchanged. */
  lemma AsWrittenIgnoresListOrder(params: seq<Param>, values: map<string, Values.Value>,
                                  digest: Values.Value -> string, name: string, p: seq<Values.Value>,
                                  q: seq<Values.Value>)
    requires Named(params, values) && name in values && values[name] == Values.List(p)
    requires multiset(p) == multiset(q) && Values.AllBoolFree(p)
    requires forall k :: 0 <= k < |params| && params[k].name == name ==> params[k].kind.SignatureParam?
    ensures Parts(Values.PythonOrder, params, values, digest)
         == Parts(Values.PythonOrder, params, values[name := Values.List(q)], digest)
  {
    Values.AsWrittenListPermutation(p, q);
    PartsAgree(Values.PythonOrder, params, values, values[name := Values.List(q)], digest);
  }

  /** As written too, reordering the items of a dict leaves the `task_id` unchanged: its
      keys are distinct, so no two of its pairs tie. */
  lemma AsWrittenIgnoresDictOrder(params: seq<Param>, values: map<string, Values.Value>,
                                  digest: Values.Value -> string, name: string, d: seq<Values.Entry>,
                                  e: seq<Values.Entry>)
    requires Named(params, values) && name in values && values[name] == Values.Dict(d)
    requires multiset(d) == multiset(e) && Values.DistinctKeys(d)
    requires forall k :: 0 <= k < |params| && params[k].name == name ==> params[k].kind.SignatureParam?
    ensures Parts(Values.PythonOrder, params, values, digest)
         == Parts(Values.PythonOrder, params, values[name := Values.Dict(e)], digest)
  {
    Values.AsWrittenDictPermutation(d, e);
    PartsAgree(Values.PythonOrder, params, values, values[name := Values.Dict(e)], digest);
  }

  /** The parts of a single parameter. */
  lemma PartsOfOne(ord: Values.Order, p: Param, values: map<string, Values.Value>, digest: Values.Value -> string)
    requires p.name in values
    ensures Parts(ord, [p], values, digest)
         == if p.significant then [p.name + "=" + PartValue(ord, p.kind, values[p.name], digest)] else []
  {
    assert [p][..0] == [];
  }

  /** As written, a signature parameter given `[1, True]` and one given `[True, 1]` make
      different task ids, since `str` of the two `deep_sorted` results differ and so do
      their MD5 digests; as intended, the two ids are equal. */
  lemma AsWrittenSignatureOrderSensitive(name: string, digest: Values.Value -> string)
    requires digest(Values.List([Values.Int(1), Values.Bool(true)]))
          != digest(Values.List([Values.Bool(true), Values.Int(1)]))
    ensures var ps := [Param(name, true, SignatureParam)];
      var a := map[name := Values.List([Values.Int(1), Values.Bool(true)])];
      var b := map[name := Values.List([Values.Bool(true), Values.Int(1)])];
      Parts(Values.PythonOrder, ps, a, digest) != Parts(Values.PythonOrder, ps, b, digest) &&
      Parts(Values.TotalOrder, ps, a, digest) == Parts(Values.TotalOrder, ps, b, digest)
  {
    var p := Param(name, true, SignatureParam);
    var x := Values.List([Values.Int(1), Values.Bool(true)]);
    var y := Values.List([Values.Bool(true), Values.Int(1)]);
    var a, b := map[name := x], map[name := y];
    Values.AsWrittenOrderSensitive();
    assert Values.DeepSortedBy(Values.PythonOrder, x) == x;
    assert Values.DeepSortedBy(Values.PythonOrder, y) == y;
    assert Values.DeepSortedBy(Values.TotalOrder, x) == Values.DeepSortedBy(Values.TotalOrder, y);
    PartsOfOne(Values.PythonOrder, p, a, digest);
    PartsOfOne(Values.PythonOrder, p, b, digest);
    PartsOfOne(Values.TotalOrder, p, a, digest);
    PartsOfOne(Values.TotalOrder, p, b, digest);
    DistinctSuffixes(name + "=", digest(x), digest(y));
  }

  lemma DistinctSuffixes(prefix: string, s: string, t: string)
    requires s != t
    ensures [prefix + s] != [prefix + t]
  {
    assert (prefix + s)[|prefix|..] == s && (prefix + t)[|prefix|..] == t;
  }

  /** `SignatureTask`: a task whose id is computed from its significant parameters with
      Python's own ordering in `deep_sorted`. */
  class SignatureTask {
    const family: string
    const params: seq<Param>
    const values: map<string, Values.Value>
    var taskId: string

    constructor (family: string, params: seq<Param>, values: map<string, Values.Value>,
                 digest: Values.Value -> string)
      requires Named(params, values)
      ensures this.family == family && this.params == params && this.values == values
      ensures taskId == family + "(" + Join(", ", Parts(Values.PythonOrder, params, values, digest)) + ")"
    {
      this.family := family;
      this.params := params;
      this.values := values;
      var id := SignatureTaskId(Values.PythonOrder, family, params, values, digest);
      taskId := id;
    }
  }

  // ----- DateParameterTask / DateHourParameterTask (tasks.py:46-91) -----------------------

  /** `kwargs.get(name)`. */
  function Get(kwargs: map<string, Utils.PyObject>, name: string): Utils.PyObject
  {
    if name in kwargs then kwargs[name] else Utils.PNone
  }

  /** `to_date(obj, raise_=True)` as a `date`: with `raise_` set, any value it returns is a
      date. */
  function RequireDate(obj: Utils.PyObject, arrowGet: Utils.PyObject -> Outcome<DateTime>): (r: Outcome<Date>)
    ensures Utils.IsDate(obj) ==> r == Returned(obj.d)
    ensures Utils.IsDateTime(obj) ==> r == Returned(obj.t.date)
    ensures obj.PNone? ==> r.Raised? && r.exc.kind == "TypeError"
    ensures r.Raised? <==> Utils.ToDate(obj, Utils.PNone, true, arrowGet).Raised?
    ensures r.Returned? ==> Utils.ToDate(obj, Utils.PNone, true, arrowGet) == Returned(Utils.PDate(r.value))
    ensures r.Raised? ==> Utils.ToDate(obj, Utils.PNone, true, arrowGet) == Raised(r.exc)
  {
    match Utils.ToDate(obj, Utils.PNone, true, arrowGet)
    case Raised(e) => Raised(e)
    case Returned(o) => if o.PDate? then Returned(o.d) else assert false; Raised(Exc("TypeError", ""))
  }

  /** `to_datetime(obj, raise_=True)` as a `datetime`. */
  function RequireDateTime(obj: Utils.PyObject, arrowGet: Utils.PyObject -> Outcome<DateTime>): (r: Outcome<DateTime>)
    ensures Utils.IsDateTime(obj) ==> r == Returned(obj.t)
    ensures Utils.IsDate(obj) ==> r == Returned(Midnight(obj.d))
    ensures obj.PNone? ==> r.Raised? && r.exc.kind == "TypeError"
    ensures r.Raised? <==> Utils.ToDateTime(obj, Utils.PNone, true, arrowGet).Raised?
    ensures r.Returned? ==> Utils.ToDateTime(obj, Utils.PNone, true, arrowGet) == Returned(Utils.PDateTime(r.value))
    ensures r.Raised? ==> Utils.ToDateTime(obj, Utils.PNone, true, arrowGet) == Raised(r.exc)
  {
    match Utils.ToDateTime(obj, Utils.PNone, true, arrowGet)
    case Raised(e) => Raised(e)
    case Returned(o) => if o.PDateTime? then Returned(o.t) else assert false; Raised(Exc("TypeError", ""))
  }

  /** The `start` and `end` a date mixin keeps. */
  datatype DateRange = DateRange(start: Date, end: Date)

  /** `DateParameterTask.__init__`: both dates converted, or the construction fails; an
      argument that is missing or cannot be converted raises TypeError. */
  function NewDateParameterTask(kwargs: map<string, Utils.PyObject>, arrowGet: Utils.PyObject -> Outcome<DateTime>)
    : (r: Outcome<DateRange>)
    ensures r.Returned? <==> RequireDate(Get(kwargs, "start_date"), arrowGet).Returned?
                             && RequireDate(Get(kwargs, "end_date"), arrowGet).Returned?
    ensures r.Returned? ==> r.value.start == RequireDate(Get(kwargs, "start_date"), arrowGet).value
                            && r.value.end == RequireDate(Get(kwargs, "end_date"), arrowGet).value
    ensures "start_date" !in kwargs ==> r.Raised? && r.exc.kind == "TypeError"
    ensures "start_date" in kwargs && "end_date" !in kwargs && RequireDate(kwargs["start_date"], arrowGet).Returned?
            ==> r.Raised? && r.exc.kind == "TypeError"
  {
    match RequireDate(Get(kwargs, "start_date"), arrowGet)
    case Raised(e) => Raised(e)
    case Returned(s) =>
      match RequireDate(Get(kwargs, "end_date"), arrowGet)
      case Raised(e) => Raised(e)
      case Returned(t) => Returned(DateRange(s, t))
  }

  /** `start_date_str`: `'%Y-%m-%d'`, which reads back as the start date. */
  function StartDateStr(task: DateRange): (s: string)
    requires ValidDate(task.start)
    ensures |s| == 10 && ParseDate(s) == Some(task.start)
  {
    FormatDateRoundTrip(task.start);
    FormatDate(task.start)
  }

  /** `end_date_str`. */
  function EndDateStr(task: DateRange): (s: string)
    requires ValidDate(task.end)
    ensures |s| == 10 && ParseDate(s) == Some(task.end)
  {
    FormatDateRoundTrip(task.end);
    FormatDate(task.end)
  }

  /** `DateHourParameterTask.__init__` as written: `start_datetime` and `end_datetime` go
      through `to_date`, so the hour is dropped. */
  function NewDateHourTaskAsWritten(kwargs: map<string, Utils.PyObject>, arrowGet: Utils.PyObject -> Outcome<DateTime>)
    : (r: Outcome<DateRange>)
    ensures Utils.IsDateTime(Get(kwargs, "start_datetime")) && Utils.IsDateTime(Get(kwargs, "end_datetime"))
            ==> r == Returned(DateRange(kwargs["start_datetime"].t.date, kwargs["end_datetime"].t.date))
  {
    match RequireDate(Get(kwargs, "start_datetime"), arrowGet)
    case Raised(e) => Raised(e)
    case Returned(s) =>
      match RequireDate(Get(kwargs, "end_datetime"), arrowGet)
      case Raised(e) => Raised(e)
      case Returned(t) => Returned(DateRange(s, t))
  }

  /** `start_datetime_str` as written: `%H` of a `date` is always `00`. */
  function StartDateTimeStrAsWritten(task: DateRange): (s: string)
    requires ValidDate(task.start)
    ensures s == FormatDate(task.start) + " 00:00"
  {
    FormatDateHourOfDate(task.start)
  }

  /** `end_datetime_str` as written. */
  function EndDateTimeStrAsWritten(task: DateRange): (s: string)
    requires ValidDate(task.end)
    ensures s == FormatDate(task.end) + " 00:00"
  {
    FormatDateHourOfDate(task.end)
  }

  /** The `start` and `end` a date-hour task keeps, as intended: datetimes. */
  datatype DateTimeRange = DateTimeRange(start: DateTime, end: DateTime)

  /** `DateHourParameterTask.__init__` as intended: both values go through `to_datetime`. */
  function NewDateHourTask(kwargs: map<string, Utils.PyObject>, arrowGet: Utils.PyObject -> Outcome<DateTime>)
    : (r: Outcome<DateTimeRange>)
    ensures r.Returned? <==> RequireDateTime(Get(kwargs, "start_datetime"), arrowGet).Returned?
                             && RequireDateTime(Get(kwargs, "end_datetime"), arrowGet).Returned?
    ensures r.Returned? ==> r.value.start == RequireDateTime(Get(kwargs, "start_datetime"), arrowGet).value
                            && r.value.end == RequireDateTime(Get(kwargs, "end_datetime"), arrowGet).value
    ensures "start_datetime" !in kwargs ==> r.Raised? && r.exc.kind == "TypeError"
  {
    match RequireDateTime(Get(kwargs, "start_datetime"), arrowGet)
    case Raised(e) => Raised(e)
    case Returned(s) =>
      match RequireDateTime(Get(kwargs, "end_datetime"), arrowGet)
      case Raised(e) => Raised(e)
      case Returned(t) => Returned(DateTimeRange(s, t))
  }

  /** `start_date_str` of a date-hour task. */
  function StartDayStr(task: DateTimeRange): (s: string)
    requires ValidDateTime(task.start)
    ensures ParseDate(s) == Some(task.start.date)
  {
    FormatDateRoundTrip(task.start.date);
    FormatDate(task.start.date)
  }

  /** `end_date_str` of a date-hour task. */
  function EndDayStr(task: DateTimeRange): (s: string)
    requires ValidDateTime(task.end)
    ensures ParseDate(s) == Some(task.end.date)
  {
    FormatDateRoundTrip(task.end.date);
    FormatDate(task.end.date)
  }

  /** `start_datetime_str`: `'%Y-%m-%d %H:00'`, which reads back as the start's date and hour. */
  function StartDateTimeStr(task: DateTimeRange): (s: string)
    requires ValidDateTime(task.start)
    ensures ParseDateHour(s) == Some((task.start.date, task.start.hour))
  {
    FormatDateHourRoundTrip(task.start);
    FormatDateHour(task.start)
  }

  /** `end_datetime_str`. */
  function EndDateTimeStr(task: DateTimeRange): (s: string)
    requires ValidDateTime(task.end)
    ensures ParseDateHour(s) == Some((task.end.date, task.end.hour))
  {
    FormatDateHourRoundTrip(task.end);
    FormatDateHour(task.end)
  }

  /** With a start at 13:00, the string as written says 00:00; as intended it keeps 13. */
  lemma DateHourLosesHour(arrowGet: Utils.PyObject -> Outcome<DateTime>)
    ensures var start := DateTime(Date(2020, 1, 2), 13, 0, 0, 0);
      var kwargs := map["start_datetime" := Utils.PDateTime(start), "end_datetime" := Utils.PDateTime(start)];
      && NewDateHourTaskAsWritten(kwargs, arrowGet).Returned?
      && NewDateHourTask(kwargs, arrowGet).Returned?
      && ParseDateHour(StartDateTimeStrAsWritten(NewDateHourTaskAsWritten(kwargs, arrowGet).value))
         == Some((Date(2020, 1, 2), 0))
      && ParseDateHour(StartDateTimeStr(NewDateHourTask(kwargs, arrowGet).value))
         == Some((Date(2020, 1, 2), 13))
  {
    var start := DateTime(Date(2020, 1, 2), 13, 0, 0, 0);
    assert ValidDateTime(start);
    FormatDateHourRoundTrip(Midnight(start.date));
    assert FormatDateHour(Midnight(start.date)) == FormatDateHourOfDate(start.date);
  }
}
