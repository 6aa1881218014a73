/** Properties of the resolver that relate several steps or several calls. */
module ResolutionFacts {
  import opened Reflection
  import opened RegistryBuilder
  import opened Resolution

  /** The registry maps `t` to an interface key. */
  ghost predicate IsInterfaceKey(u: Universe, reg: Registry, t: TypeName) {
    t in reg && t in u && u[t].isInterface
  }

  /**
   * Field `f` of object `o` holds an instance of the class the registry maps
   * the field's type to, and, when that type is a self-registered class,
   * exactly its cached singleton.
   */
  ghost predicate FieldHolds(u: Universe, reg: Registry, st: State, o: ObjId, f: FieldInfo)
    requires o < |st.heap|
  {
    && f.name in st.heap[o].slots
    && var d := st.heap[o].slots[f.name];
    && d < |st.heap| && f.fieldType in reg && st.heap[d].cls == reg[f.fieldType]
    && (IsSelfKey(u, reg, f.fieldType) ==> f.fieldType in st.cache && st.cache[f.fieldType] == d)
  }

  ghost predicate DistinctNames(fields: seq<FieldInfo>) {
    forall j, k :: 0 <= j < k < |fields| ==> fields[j].name != fields[k].name
  }

  /** A request for a registered type that misses the cache builds the class the registry maps it to. */
  lemma ResolveBuilds(u: Universe, reg: Registry, st: State, t: TypeName, fuel: nat)
    requires RegistryOk(u, reg) && StateOk(u, st) && t in reg && t !in st.cache
    ensures reg[t] in u && Resolve(u, reg, st, t, fuel) == CreateServiceFromClass(u, reg, st, reg[t], fuel)
  {
    assert EntryOk(u, t, reg[t]);
    assert Resolve(u, reg, st, t, fuel) == CreateService(u, reg, st, t, fuel);
    if u[t].isInterface {
      assert CreateService(u, reg, st, t, fuel) == CreateServiceFromInterface(u, reg, st, t, fuel);
    } else {
      assert CreateService(u, reg, st, t, fuel) == CreateServiceFromClass(u, reg, st, t, fuel);
    }
  }

  /** Building a constructible class is injecting into its freshly cached bare instance. */
  lemma BuildInjects(u: Universe, reg: Registry, st: State, c: TypeName, fuel: nat)
    requires RegistryOk(u, reg) && StateOk(u, st) && c in u && Constructible(u, c)
    ensures var inj := InjectDependencies(u, reg, Allocate(st, c), |st.heap|, u[c].fields, 0, fuel);
      var s := CreateServiceFromClass(u, reg, st, c, fuel);
      && s.st == inj.st
      && (inj.out.Pass? ==> s.out == Ok(|st.heap|))
      && (inj.out == Fail(StackExhausted) ==> s.out == Err(StackExhausted))
      && (inj.out.Fail? && inj.out.error != StackExhausted ==> s.out == Err(CouldNotInstantiate(c, inj.out.error)))
  {
  }

  /** One iteration of the injection loop at an annotated field, with stack to spare. */
  lemma InjectStep(u: Universe, reg: Registry, st: State, o: ObjId, fields: seq<FieldInfo>, i: nat, fuel: nat)
    requires RegistryOk(u, reg) && StateOk(u, st) && o < |st.heap| && i < |fields|
    requires fields[i].annotated && fuel > 0
    ensures var f := fields[i];
      var r := Resolve(u, reg, st, f.fieldType, fuel - 1);
      var s := InjectDependencies(u, reg, st, o, fields, i, fuel);
      && (r.out.Err? ==> s == Step(Fail(r.out.error), r.st))
      && (r.out.Ok? && !f.writable ==> s == Step(Fail(CouldNotSetField(f.name, r.st.heap[o].cls)), r.st))
      && (r.out.Ok? && f.writable ==> s == InjectDependencies(u, reg, SetField(r.st, o, f.name, r.out.value), o, fields, i + 1, fuel))
  {
  }

  /** `InjectStep` with the outcome `r` of the field's request given by name. */
  lemma InjectAt(u: Universe, reg: Registry, st: State, o: ObjId, fields: seq<FieldInfo>, i: nat, fuel: nat, r: Step<Result>)
    requires RegistryOk(u, reg) && StateOk(u, st) && o < |st.heap| && i < |fields|
    requires fields[i].annotated && fuel > 0
    requires r == Resolve(u, reg, st, fields[i].fieldType, fuel - 1)
    ensures o < |r.st.heap| && StateOk(u, r.st)
    ensures r.out.Err? ==> InjectDependencies(u, reg, st, o, fields, i, fuel) == Step(Fail(r.out.error), r.st)
    ensures r.out.Ok? && !fields[i].writable ==>
      InjectDependencies(u, reg, st, o, fields, i, fuel) == Step(Fail(CouldNotSetField(fields[i].name, r.st.heap[o].cls)), r.st)
    ensures r.out.Ok? && fields[i].writable ==>
      && r.out.value < |r.st.heap|
      && InjectDependencies(u, reg, st, o, fields, i, fuel) ==
           InjectDependencies(u, reg, SetField(r.st, o, fields[i].name, r.out.value), o, fields, i + 1, fuel)
  {
  }

  /**
   * A successful injection from the `i`-th field on assigns every annotated
   * field from there on and leaves the object's other fields alone.
   */
  lemma {:induction false} InjectFillsFields(u: Universe, reg: Registry, st: State, o: ObjId, fields: seq<FieldInfo>, i: nat, fuel: nat)
    requires RegistryOk(u, reg) && StateOk(u, st) && o < |st.heap| && i <= |fields|
    requires DistinctNames(fields)
    requires InjectDependencies(u, reg, st, o, fields, i, fuel).out.Pass?
    ensures var s := InjectDependencies(u, reg, st, o, fields, i, fuel);
      && (forall k :: i <= k < |fields| && fields[k].annotated ==> FieldHolds(u, reg, s.st, o, fields[k]))
      && (forall n :: n in st.heap[o].slots && (forall k :: i <= k < |fields| ==> fields[k].name != n) ==>
            n in s.st.heap[o].slots && s.st.heap[o].slots[n] == st.heap[o].slots[n])
    decreases |fields| - i, 1
  {
    if i < |fields| {
      if !fields[i].annotated {
        InjectFillsFields(u, reg, st, o, fields, i + 1, fuel);
      } else {
        InjectFieldFills(u, reg, st, o, fields, i, fuel);
      }
    }
  }

  /** The annotated-field turn of `InjectFillsFields`. */
  lemma {:induction false} InjectFieldFills(u: Universe, reg: Registry, st: State, o: ObjId, fields: seq<FieldInfo>, i: nat, fuel: nat)
    requires RegistryOk(u, reg) && StateOk(u, st) && o < |st.heap| && i < |fields| && fields[i].annotated
    requires DistinctNames(fields)
    requires InjectDependencies(u, reg, st, o, fields, i, fuel).out.Pass?
    ensures var s := InjectDependencies(u, reg, st, o, fields, i, fuel);
      && (forall k :: i <= k < |fields| && fields[k].annotated ==> FieldHolds(u, reg, s.st, o, fields[k]))
      && (forall n :: n in st.heap[o].slots && (forall k :: i <= k < |fields| ==> fields[k].name != n) ==>
            n in s.st.heap[o].slots && s.st.heap[o].slots[n] == st.heap[o].slots[n])
    decreases |fields| - i, 0
  {
    var f := fields[i];
    var r := Resolve(u, reg, st, f.fieldType, fuel - 1);
    InjectAt(u, reg, st, o, fields, i, fuel, r);
    var d := r.out.value;
    var st2 := SetField(r.st, o, f.name, d);
    InjectFillsFields(u, reg, st2, o, fields, i + 1, fuel);
    var s := InjectDependencies(u, reg, st2, o, fields, i + 1, fuel);
    assert forall k :: i + 1 <= k < |fields| ==> fields[k].name != f.name;
    assert s.st.heap[o].slots[f.name] == d;
    assert FieldHolds(u, reg, s.st, o, f);
  }

  /**
   * After `resolve(t)` constructs a new instance (no cache hit) and succeeds,
   * every annotated (`Resolve`) field declared by the instance's class holds a resolved
   * instance of the field's type.
   */
  lemma ResolveInjectsAllFields(u: Universe, reg: Registry, st: State, t: TypeName, fuel: nat)
    requires Wf(u) && RegistryOk(u, reg) && StateOk(u, st)
    requires t in reg && t !in st.cache
    requires Resolve(u, reg, st, t, fuel).out.Ok?
    ensures var s := Resolve(u, reg, st, t, fuel);
      var c := reg[t];
      && c in u && s.out.value == |st.heap| && s.st.heap[s.out.value].cls == c
      && forall k :: 0 <= k < |u[c].fields| && u[c].fields[k].annotated ==>
           FieldHolds(u, reg, s.st, s.out.value, u[c].fields[k])
  {
    var c := reg[t];
    assert EntryOk(u, t, c);
    ResolveBuilds(u, reg, st, t, fuel);
    BuildInjects(u, reg, st, c, fuel);
    InjectFillsFields(u, reg, Allocate(st, c), |st.heap|, u[c].fields, 0, fuel);
  }

  /** Resolving a self-registered class a second time returns the identical instance and changes nothing. */
  lemma RepeatedResolveReturnsSingleton(u: Universe, reg: Registry, st: State, t: TypeName, fuel1: nat, fuel2: nat)
    requires RegistryOk(u, reg) && StateOk(u, st) && IsSelfKey(u, reg, t)
    requires Resolve(u, reg, st, t, fuel1).out.Ok?
    ensures var s1 := Resolve(u, reg, st, t, fuel1);
      Resolve(u, reg, s1.st, t, fuel2) == s1
  {
  }

  /**
   * An interface is never a cache key, so each request for it constructs a
   * fresh instance: two successful requests in a row return different objects.
   */
  lemma InterfaceRequestsNeverHitCache(u: Universe, reg: Registry, st: State, t: TypeName, fuel1: nat, fuel2: nat)
    requires RegistryOk(u, reg) && StateOk(u, st) && IsInterfaceKey(u, reg, t)
    ensures var s1 := Resolve(u, reg, st, t, fuel1);
      var s2 := Resolve(u, reg, s1.st, t, fuel2);
      && t !in s1.st.cache
      && (s1.out.Ok? ==> s1.out.value == |st.heap|)
      && (s1.out.Ok? && s2.out.Ok? ==> s2.out.value != s1.out.value)
  {
  }

  // ---------------------------------------------------------------------------
  // Termination

  /** The number of self-registered classes that have no cached instance yet. */
  ghost function Uncached(u: Universe, reg: Registry, st: State): nat {
    |set k | k in reg && IsSelfKey(u, reg, k) && k !in st.cache|
  }

  /** No annotated (`Resolve`) field of a registered implementation has an interface key as its type. */
  ghost predicate NoInterfaceInjection(u: Universe, reg: Registry) {
    forall k, j :: k in reg && reg[k] in u && 0 <= j < |u[reg[k]].fields| && u[reg[k]].fields[j].annotated ==>
      !IsInterfaceKey(u, reg, u[reg[k]].fields[j].fieldType)
  }

  lemma UncachedShrinks(u: Universe, reg: Registry, st: State, st': State)
    requires st.cache.Keys <= st'.cache.Keys
    ensures Uncached(u, reg, st') <= Uncached(u, reg, st)
  {
    var a := set k | k in reg && IsSelfKey(u, reg, k) && k !in st'.cache;
    var b := set k | k in reg && IsSelfKey(u, reg, k) && k !in st.cache;
    assert a <= b;
    SubsetCard(a, b);
  }

  lemma {:induction false} SubsetCard<T>(a: set<T>, b: set<T>)
    requires a <= b
    ensures |a| <= |b|
    decreases |b|
  {
    if a != {} {
      var x :| x in a;
      SubsetCard(a - {x}, b - {x});
    }
  }

  lemma CachingShrinks(u: Universe, reg: Registry, st: State, st': State, t: TypeName)
    requires IsSelfKey(u, reg, t) && t !in st.cache && st'.cache.Keys == st.cache.Keys + {t}
    ensures Uncached(u, reg, st') == Uncached(u, reg, st) - 1
  {
    var a := set k | k in reg && IsSelfKey(u, reg, k) && k !in st'.cache;
    var b := set k | k in reg && IsSelfKey(u, reg, k) && k !in st.cache;
    assert a == b - {t};
  }

  /**
   * A request for a class (not an interface key) never overflows the stack
   * when no registered implementation injects an interface and the depth
   * bound covers the self-registered classes still to be built: cycles among
   * such classes are broken by the cache.
   */
  lemma {:induction false} ResolveDoesNotExhaust(u: Universe, reg: Registry, st: State, t: TypeName, fuel: nat)
    requires RegistryOk(u, reg) && StateOk(u, st) && NoInterfaceInjection(u, reg)
    requires !IsInterfaceKey(u, reg, t)
    requires fuel >= Uncached(u, reg, st)
    ensures Resolve(u, reg, st, t, fuel).out != Err(StackExhausted)
    decreases fuel, 1, 0
  {
    if t in reg && t !in st.cache {
      assert EntryOk(u, t, reg[t]);
      ResolveBuilds(u, reg, st, t, fuel);
      if Constructible(u, t) {
        BuildDoesNotExhaust(u, reg, st, t, fuel);
      }
    }
  }

  /** The building step of `ResolveDoesNotExhaust`: caching `t` first pays for its fields' requests. */
  lemma {:induction false} BuildDoesNotExhaust(u: Universe, reg: Registry, st: State, t: TypeName, fuel: nat)
    requires RegistryOk(u, reg) && StateOk(u, st) && NoInterfaceInjection(u, reg)
    requires IsSelfKey(u, reg, t) && reg[t] == t && t !in st.cache && Constructible(u, t)
    requires fuel >= Uncached(u, reg, st)
    ensures CreateServiceFromClass(u, reg, st, t, fuel).out != Err(StackExhausted)
    decreases fuel, 0, |u[t].fields| + 1
  {
    BuildInjects(u, reg, st, t, fuel);
    var next := Allocate(st, t);
    AllocateKeepsOk(u, st, t);
    CachingShrinks(u, reg, st, next, t);
    NoInterfaceFields(u, reg, t, t);
    InjectDoesNotExhaust(u, reg, next, |st.heap|, u[t].fields, 0, fuel);
  }

  /** `NoInterfaceInjection` for the fields of one implementation `c` of key `k`. */
  lemma NoInterfaceFields(u: Universe, reg: Registry, k: TypeName, c: TypeName)
    requires NoInterfaceInjection(u, reg) && k in reg && reg[k] == c && c in u
    ensures forall j :: 0 <= j < |u[c].fields| && u[c].fields[j].annotated ==> !IsInterfaceKey(u, reg, u[c].fields[j].fieldType)
  {
  }

  lemma {:induction false} InjectDoesNotExhaust(u: Universe, reg: Registry, st: State, o: ObjId, fields: seq<FieldInfo>, i: nat, fuel: nat)
    requires RegistryOk(u, reg) && StateOk(u, st) && NoInterfaceInjection(u, reg)
    requires o < |st.heap| && i <= |fields|
    requires forall j :: i <= j < |fields| && fields[j].annotated ==> !IsInterfaceKey(u, reg, fields[j].fieldType)
    requires fuel >= Uncached(u, reg, st) + 1
    ensures InjectDependencies(u, reg, st, o, fields, i, fuel).out != Fail(StackExhausted)
    decreases fuel, 0, |fields| - i, 1
  {
    if i < |fields| {
      if !fields[i].annotated {
        InjectDoesNotExhaust(u, reg, st, o, fields, i + 1, fuel);
      } else {
        InjectFieldDoesNotExhaust(u, reg, st, o, fields, i, fuel);
      }
    }
  }

  /** The annotated-field turn of `InjectDoesNotExhaust`. */
  lemma {:induction false} InjectFieldDoesNotExhaust(u: Universe, reg: Registry, st: State, o: ObjId, fields: seq<FieldInfo>, i: nat, fuel: nat)
    requires RegistryOk(u, reg) && StateOk(u, st) && NoInterfaceInjection(u, reg)
    requires o < |st.heap| && i < |fields| && fields[i].annotated
    requires forall j :: i <= j < |fields| && fields[j].annotated ==> !IsInterfaceKey(u, reg, fields[j].fieldType)
    requires fuel >= Uncached(u, reg, st) + 1
    ensures InjectDependencies(u, reg, st, o, fields, i, fuel).out != Fail(StackExhausted)
    decreases fuel, 0, |fields| - i, 0
  {
    var f := fields[i];
    var r := Resolve(u, reg, st, f.fieldType, fuel - 1);
    InjectAt(u, reg, st, o, fields, i, fuel, r);
    assert r.out != Err(StackExhausted) by {
      ResolveDoesNotExhaust(u, reg, st, f.fieldType, fuel - 1);
    }
    if r.out.Ok? && f.writable {
      var st2 := SetField(r.st, o, f.name, r.out.value);
      assert InjectDependencies(u, reg, st2, o, fields, i + 1, fuel).out != Fail(StackExhausted) by {
        UncachedShrinks(u, reg, st, st2);
        SetFieldKeepsOk(u, r.st, o, f.name, r.out.value);
        InjectDoesNotExhaust(u, reg, st2, o, fields, i + 1, fuel);
      }
    }
  }

  /**
   * Without interface-typed injection, a depth bound one above the number of
   * uncached self-registered classes suffices for every request: resolution
   * terminates (with an instance or an ordinary error).
   */
  lemma ResolveTerminates(u: Universe, reg: Registry, st: State, t: TypeName, fuel: nat)
    requires RegistryOk(u, reg) && StateOk(u, st) && NoInterfaceInjection(u, reg)
    requires fuel > Uncached(u, reg, st)
    ensures Resolve(u, reg, st, t, fuel).out != Err(StackExhausted)
  {
    if IsInterfaceKey(u, reg, t) {
      var c := reg[t];
      assert EntryOk(u, t, c);
      ResolveBuilds(u, reg, st, t, fuel);
      if Constructible(u, c) {
        BuildInjects(u, reg, st, c, fuel);
        UncachedShrinks(u, reg, st, Allocate(st, c));
        InjectDoesNotExhaust(u, reg, Allocate(st, c), |st.heap|, u[c].fields, 0, fuel);
      }
    } else {
      ResolveDoesNotExhaust(u, reg, st, t, fuel);
    }
  }

  /**
   * An interface whose implementation injects the interface itself recurses
   * without end: whatever the depth bound, the request overflows the stack.
   */
  lemma {:induction false} InterfaceCycleDiverges(u: Universe, reg: Registry, st: State, t: TypeName, fuel: nat)
    requires RegistryOk(u, reg) && StateOk(u, st) && InjectsOwnInterface(u, reg, t)
    ensures Resolve(u, reg, st, t, fuel).out == Err(StackExhausted)
    decreases fuel
  {
    var next := Allocate(st, reg[t]);
    AllocateKeepsOk(u, st, reg[t]);
    if fuel > 0 {
      var f: nat := fuel - 1;
      InterfaceCycleDiverges(u, reg, next, t, f);
      InterfaceCycleStep(u, reg, st, t, fuel, next, f);
    } else {
      InterfaceCycleStep(u, reg, st, t, fuel, next, 0);
    }
  }

  /**
   * `t` is a registered interface whose implementation can be constructed and
   * whose first field is an annotated (`Resolve`) field of type `t` itself.
   */
  ghost predicate InjectsOwnInterface(u: Universe, reg: Registry, t: TypeName) {
    && IsInterfaceKey(u, reg, t) && reg[t] in u && !u[reg[t]].constructionFails
    && |u[reg[t]].fields| > 0 && u[reg[t]].fields[0].annotated && u[reg[t]].fields[0].fieldType == t
  }

  /**
   * One unfolding of the cycle: the request overflows if the nested request
   * for the same interface, made on state `next` with depth `f`, does.
   */
  lemma InterfaceCycleStep(u: Universe, reg: Registry, st: State, t: TypeName, fuel: nat, next: State, f: nat)
    requires RegistryOk(u, reg) && StateOk(u, st) && InjectsOwnInterface(u, reg, t)
    requires next == Allocate(st, reg[t]) && StateOk(u, next)
    requires fuel > 0 ==> f == fuel - 1 && Resolve(u, reg, next, t, f).out == Err(StackExhausted)
    ensures Resolve(u, reg, st, t, fuel).out == Err(StackExhausted)
  {
    assert EntryOk(u, t, reg[t]);
    if fuel > 0 {
      NestedOverflow(u, reg, st, t, fuel, next, f);
    }
    FirstFieldDecides(u, reg, st, t, fuel);
  }

  /** The nested request's overflow, restated on the allocated state and the depth left. */
  lemma NestedOverflow(u: Universe, reg: Registry, st: State, t: TypeName, fuel: nat, next: State, f: nat)
    requires RegistryOk(u, reg) && t in reg && fuel > 0 && f == fuel - 1
    requires next == Allocate(st, reg[t]) && StateOk(u, next)
    requires Resolve(u, reg, next, t, f).out == Err(StackExhausted)
    ensures StateOk(u, Allocate(st, reg[t])) && Resolve(u, reg, Allocate(st, reg[t]), t, fuel - 1).out == Err(StackExhausted)
  {
    assert Resolve(u, reg, Allocate(st, reg[t]), t, fuel - 1) == Resolve(u, reg, next, t, f);
  }

  /**
   * When the built class's first field is an annotated (`Resolve`) field, its outcome
   * decides the request: with no stack left the request overflows; otherwise
   * a failure to resolve the field is the failure of the request, wrapped in
   * `CouldNotInstantiate` naming the class unless it is a stack overflow.
   */
  lemma FirstFieldDecides(u: Universe, reg: Registry, st: State, t: TypeName, fuel: nat)
    requires RegistryOk(u, reg) && StateOk(u, st) && t in reg && t !in st.cache && reg[t] in u
    requires Constructible(u, reg[t]) && |u[reg[t]].fields| > 0 && u[reg[t]].fields[0].annotated
    ensures fuel == 0 ==> Resolve(u, reg, st, t, fuel).out == Err(StackExhausted)
    ensures fuel > 0 ==>
      var c := reg[t];
      var st1 := Allocate(st, c);
      && StateOk(u, st1)
      && var r := Resolve(u, reg, st1, u[c].fields[0].fieldType, fuel - 1);
         r.out.Err? ==>
           Resolve(u, reg, st, t, fuel).out ==
             if r.out.error == StackExhausted then r.out else Err(CouldNotInstantiate(c, r.out.error))
  {
    var c := reg[t];
    assert EntryOk(u, t, c);
    ResolveBuilds(u, reg, st, t, fuel);
    BuildInjects(u, reg, st, c, fuel);
    AllocateKeepsOk(u, st, c);
    if fuel > 0 {
      InjectStep(u, reg, Allocate(st, c), |st.heap|, u[c].fields, 0, fuel);
    }
  }

  // ---------------------------------------------------------------------------
  // Scenarios

  /**
   * Two self-registered classes that inject each other: resolving `a`
   * terminates, and the back-reference from `b` is the cached, still
   * incomplete instance of `a`.
   */
  lemma MutualSelfDependency(u: Universe, reg: Registry, st: State, a: TypeName, b: TypeName, fa: string, fb: string, fuel: nat)
    requires RegistryOk(u, reg) && StateOk(u, st)
    requires IsSelfKey(u, reg, a) && IsSelfKey(u, reg, b) && a != b
    requires a !in st.cache && b !in st.cache
    requires Constructible(u, a) && Constructible(u, b)
    requires u[a].fields == [FieldInfo(fb, b, true, true)] && u[b].fields == [FieldInfo(fa, a, true, true)]
    requires fuel >= 2
    ensures var s := Resolve(u, reg, st, a, fuel);
      var oa := |st.heap|;
      && s.out == Ok(oa)
      && |s.st.heap| == oa + 2
      && s.st.heap[oa] == Obj(a, map[fb := oa + 1])
      && s.st.heap[oa + 1] == Obj(b, map[fa := oa])
      && s.st.cache == st.cache[a := oa][b := oa + 1]
  {
    var oa := |st.heap|;
    var ob := oa + 1;
    var st1 := Allocate(st, a);
    AllocateKeepsOk(u, st, a);
    var st3 := SetField(Allocate(st1, b), ob, fa, oa);
    var st4 := SetField(st3, oa, fb, ob);
    assert Resolve(u, reg, st1, b, fuel - 1) == Step(Ok(ob), st3) by {
      BackReference(u, reg, st, a, b, fa, fuel - 1);
    }
    assert InjectDependencies(u, reg, st1, oa, u[a].fields, 0, fuel) == Step(Pass, st4) by {
      InjectOneField(u, reg, st1, oa, u[a].fields, fuel, ob, st3);
    }
    assert Resolve(u, reg, st, a, fuel) == Step(Ok(oa), st4) by {
      ResolveFreshClass(u, reg, st, a, fuel, st4);
    }
    PairState(st, a, b, fa, fb);
  }

  /** The state the mutual injection leaves: two objects pointing at each other, both cached. */
  lemma PairState(st: State, a: TypeName, b: TypeName, fa: string, fb: string)
    ensures var oa := |st.heap|;
      var st4 := SetField(SetField(Allocate(Allocate(st, a), b), oa + 1, fa, oa), oa, fb, oa + 1);
      && |st4.heap| == oa + 2
      && st4.heap[oa] == Obj(a, map[fb := oa + 1])
      && st4.heap[oa + 1] == Obj(b, map[fa := oa])
      && st4.cache == st.cache[a := oa][b := oa + 1]
  {
  }

  lemma AllocateKeepsOk(u: Universe, st: State, c: TypeName)
    requires StateOk(u, st) && c in u && !u[c].isInterface
    ensures StateOk(u, Allocate(st, c))
  {
    var st' := Allocate(st, c);
    forall j, n | 0 <= j < |st'.heap| && n in st'.heap[j].slots
      ensures st'.heap[j].slots[n] < |st'.heap|
    {
      assert j < |st.heap| && st'.heap[j] == st.heap[j];
    }
  }

  lemma SetFieldKeepsOk(u: Universe, st: State, o: ObjId, name: string, d: ObjId)
    requires StateOk(u, st) && o < |st.heap| && d < |st.heap|
    ensures StateOk(u, SetField(st, o, name, d))
  {
  }

  /** Injecting a single writable annotated field whose type resolves to `d`. */
  lemma InjectOneField(u: Universe, reg: Registry, st: State, o: ObjId, fields: seq<FieldInfo>, fuel: nat, d: ObjId, st': State)
    requires RegistryOk(u, reg) && StateOk(u, st) && o < |st.heap|
    requires |fields| == 1 && fields[0].annotated && fields[0].writable && fuel > 0
    requires Resolve(u, reg, st, fields[0].fieldType, fuel - 1) == Step(Ok(d), st')
    ensures o < |st'.heap|
    ensures InjectDependencies(u, reg, st, o, fields, 0, fuel) == Step(Pass, SetField(st', o, fields[0].name, d))
  {
    InjectStep(u, reg, st, o, fields, 0, fuel);
  }

  /** A registered, uncached, constructible class whose injection succeeds is returned as the new instance. */
  lemma ResolveFreshClass(u: Universe, reg: Registry, st: State, t: TypeName, fuel: nat, st': State)
    requires RegistryOk(u, reg) && StateOk(u, st) && t in reg && t !in st.cache
    requires reg[t] in u && Constructible(u, reg[t])
    requires InjectDependencies(u, reg, Allocate(st, reg[t]), |st.heap|, u[reg[t]].fields, 0, fuel) == Step(Pass, st')
    ensures Resolve(u, reg, st, t, fuel) == Step(Ok(|st.heap|), st')
  {
    ResolveBuilds(u, reg, st, t, fuel);
    BuildInjects(u, reg, st, reg[t], fuel);
  }

  /** The inner half of `MutualSelfDependency`: `b` is built against the cached `a`. */
  lemma BackReference(u: Universe, reg: Registry, st: State, a: TypeName, b: TypeName, fa: string, fuel: nat)
    requires RegistryOk(u, reg) && StateOk(u, st)
    requires IsSelfKey(u, reg, a) && IsSelfKey(u, reg, b) && a != b
    requires a !in st.cache && b !in st.cache
    requires Constructible(u, a) && Constructible(u, b)
    requires u[b].fields == [FieldInfo(fa, a, true, true)]
    requires fuel >= 1
    ensures var oa := |st.heap|;
      var st1 := Allocate(st, a);
      Resolve(u, reg, st1, b, fuel) == Step(Ok(oa + 1), SetField(Allocate(st1, b), oa + 1, fa, oa))
  {
    var oa := |st.heap|;
    var st1 := Allocate(st, a);
    AllocateKeepsOk(u, st, a);
    var st2 := Allocate(st1, b);
    AllocateKeepsOk(u, st1, b);
    var f: nat := fuel - 1;
    assert a in st2.cache && st2.cache[a] == oa;
    assert Resolve(u, reg, st2, a, f) == Step(Ok(oa), st2);
    InjectOneField(u, reg, st2, oa + 1, u[b].fields, fuel, oa, st2);
    ResolveFreshClass(u, reg, st1, b, fuel, SetField(st2, oa + 1, fa, oa));
  }

  /**
   * The cache entry written before injection survives a failed injection:
   * the second request for the class then SUCCEEDS and returns the instance
   * whose field was never assigned.
   */
  lemma FailedInjectionLeavesHalfBuiltSingleton(u: Universe, reg: Registry, st: State, a: TypeName, x: TypeName, fx: string, fuel1: nat, fuel2: nat)
    requires RegistryOk(u, reg) && StateOk(u, st)
    requires IsSelfKey(u, reg, a) && a !in st.cache && Constructible(u, a)
    requires u[a].fields == [FieldInfo(fx, x, true, true)] && x !in reg
    requires fuel1 >= 1
    ensures var s1 := Resolve(u, reg, st, a, fuel1);
      var s2 := Resolve(u, reg, s1.st, a, fuel2);
      && s1.out == Err(CouldNotInstantiate(a, NotRegistered(x)))
      && s2.out == Ok(|st.heap|)
      && s2.st.heap[|st.heap|] == Obj(a, map[])
  {
    var st1 := Allocate(st, a);
    assert Resolve(u, reg, st1, x, fuel1 - 1) == Step(Err(NotRegistered(x)), st1);
    assert InjectDependencies(u, reg, st1, |st.heap|, u[a].fields, 0, fuel1) == Step(Fail(NotRegistered(x)), st1);
    ResolveBuilds(u, reg, st, a, fuel1);
    BuildInjects(u, reg, st, a, fuel1);
  }
}
