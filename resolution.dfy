/**
 * The resolver of the container (`resolve`, `createService`,
 * `createServiceFromInterface`, `createServiceFromClass`,
 * `injectDependencies`) as functions from a container state to a result and
 * a new state. The state holds the instance cache `createdServices` and the
 * objects constructed so far; an object is an index into `heap`.
 *
 * Java gives no bound on the recursion through `injectDependencies` and
 * `resolve`; here `fuel` is the number of nested `resolve` calls the stack
 * still allows. When a nested call would exceed it, the result is
 * `StackExhausted`, the model of `StackOverflowError`, which is an `Error`
 * and therefore not caught by `catch (Exception e)`.
 */
module Resolution {
  import opened Reflection
  import opened RegistryBuilder

  type ObjId = nat

  /** A constructed object: its class and the reference fields written so far (absent = null). */
  datatype Obj = Obj(cls: TypeName, slots: map<string, ObjId>)

  /** `createdServices` and the objects the container has constructed. */
  datatype State = State(cache: map<TypeName, ObjId>, heap: seq<Obj>)

  datatype Error =
    | NotRegistered(requested: TypeName)                    // IllegalStateException from resolve
    | NoImplementationForInterface(requested: TypeName)     // IllegalStateException from createServiceFromInterface
    | NoSuchConstructor(cls: TypeName)                      // getDeclaredConstructor fails
    | ConstructorThrew(cls: TypeName)                       // newInstance fails
    | CouldNotSetField(field: string, owner: TypeName)      // RuntimeException from injectDependencies
    | CouldNotInstantiate(service: TypeName, cause: Error)  // RuntimeException from createServiceFromClass
    | StackExhausted                                        // StackOverflowError

  datatype Result = Ok(value: ObjId) | Err(error: Error)
  datatype Outcome = Pass | Fail(error: Error)

  /** A computation's output together with the state it leaves. */
  datatype Step<R> = Step(out: R, st: State)

  /**
   * The state invariant: cached instances are objects of exactly the class
   * they are cached under, which is a known class and not an interface; every
   * reference held in a field points to an existing object.
   */
  ghost predicate StateOk(u: Universe, st: State) {
    && (forall k :: k in st.cache ==>
          k in u && !u[k].isInterface && st.cache[k] < |st.heap| && st.heap[st.cache[k]].cls == k)
    && (forall j :: 0 <= j < |st.heap| ==> st.heap[j].cls in u)
    && (forall j, n :: 0 <= j < |st.heap| && n in st.heap[j].slots ==> st.heap[j].slots[n] < |st.heap|)
  }

  /** The heap only grows, no object changes class, and no cache key is removed. */
  ghost predicate Evolves(st: State, st': State) {
    && |st.heap| <= |st'.heap|
    && (forall j :: 0 <= j < |st.heap| ==> st'.heap[j].cls == st.heap[j].cls)
    && st.cache.Keys <= st'.cache.Keys
  }

  /** Every object that already existed, except possibly `except`, is left as it was. */
  ghost predicate Untouched(st: State, st': State, except: int) {
    forall j :: 0 <= j < |st.heap| && j != except ==> j < |st'.heap| && st'.heap[j] == st.heap[j]
  }

  /** A key of the registry that is a class registered under itself (reg[k] == k). */
  ghost predicate IsSelfKey(u: Universe, reg: Registry, k: TypeName) {
    k in reg && k in u && !u[k].isInterface
  }

  /** The cached instance of every self-registered class, except those in `except`, stays the same. */
  ghost predicate KeepsSingletons(u: Universe, reg: Registry, st: State, st': State, except: set<TypeName>) {
    forall k :: k in st.cache && IsSelfKey(u, reg, k) && k !in except ==>
      k in st'.cache && st'.cache[k] == st.cache[k]
  }

  /** `field.set(object, dependency)`. */
  function SetField(st: State, o: ObjId, name: string, d: ObjId): (st': State)
    requires o < |st.heap|
    ensures |st'.heap| == |st.heap| && st'.cache == st.cache
    ensures st'.heap[o].cls == st.heap[o].cls && name in st'.heap[o].slots && st'.heap[o].slots[name] == d
    ensures forall n :: n != name && n in st.heap[o].slots ==> n in st'.heap[o].slots && st'.heap[o].slots[n] == st.heap[o].slots[n]
    ensures forall j :: 0 <= j < |st.heap| && j != o ==> st'.heap[j] == st.heap[j]
  {
    State(st.cache, st.heap[o := st.heap[o].(slots := st.heap[o].slots[name := d])])
  }

  /** `newInstance()` followed by `createdServices.put(c, instance)`: a bare object, cached under its class. */
  function Allocate(st: State, c: TypeName): (st': State)
    ensures |st'.heap| == |st.heap| + 1 && st'.heap[..|st.heap|] == st.heap
    ensures st'.heap[|st.heap|] == Obj(c, map[]) && st'.cache == st.cache[c := |st.heap|]
  {
    State(st.cache[c := |st.heap|], st.heap + [Obj(c, map[])])
  }

  /**
   * `resolve(t)`: unregistered types are refused before the cache is looked
   * at; the cache is looked up with the REQUESTED type; on a miss a new
   * instance is created.
   */
  function Resolve(u: Universe, reg: Registry, st: State, t: TypeName, fuel: nat): (s: Step<Result>)
    requires RegistryOk(u, reg) && StateOk(u, st)
    ensures StateOk(u, s.st) && Evolves(st, s.st) && Untouched(st, s.st, -1)
    ensures KeepsSingletons(u, reg, st, s.st, {})
    ensures t !in reg ==> s == Step(Err(NotRegistered(t)), st)
    ensures t in reg && t in st.cache ==> s == Step(Ok(st.cache[t]), st)
    ensures s.out.Ok? ==> t in reg && s.out.value < |s.st.heap| && s.st.heap[s.out.value].cls == reg[t]
    ensures s.out.Ok? && t !in st.cache ==> s.out.value == |st.heap|
    ensures s.out.Ok? && IsSelfKey(u, reg, t) ==> t in s.st.cache && s.st.cache[t] == s.out.value
    ensures s.out.Err? ==>
      || (t !in reg && s.out.error == NotRegistered(t))
      || s.out.error == StackExhausted
      || (t in reg && s.out.error.CouldNotInstantiate? && s.out.error.service == reg[t])
    decreases fuel, 4, 0
  {
    if t !in reg then Step(Err(NotRegistered(t)), st)
    else if t in st.cache then Step(Ok(st.cache[t]), st)
    else CreateService(u, reg, st, t, fuel)
  }

  /** `createService`: interfaces go through the registry, classes are built directly. */
  function CreateService(u: Universe, reg: Registry, st: State, t: TypeName, fuel: nat): (s: Step<Result>)
    requires RegistryOk(u, reg) && StateOk(u, st) && t in u
    ensures StateOk(u, s.st) && Evolves(st, s.st) && Untouched(st, s.st, -1)
    ensures KeepsSingletons(u, reg, st, s.st, {t})
    ensures s.out.Ok? ==> s.out.value == |st.heap| < |s.st.heap|
    ensures s.out.Ok? ==> (if u[t].isInterface then t in reg && s.st.heap[s.out.value].cls == reg[t] else s.st.heap[s.out.value].cls == t)
    ensures !u[t].isInterface && Constructible(u, t) ==> t in s.st.cache && (IsSelfKey(u, reg, t) ==> s.st.cache[t] == |st.heap|)
    ensures s.out.Err? ==>
      || s.out.error == StackExhausted
      || (u[t].isInterface && t !in reg && s.out.error == NoImplementationForInterface(t))
      || (u[t].isInterface && t in reg && s.out.error.CouldNotInstantiate? && s.out.error.service == reg[t])
      || (!u[t].isInterface && s.out.error.CouldNotInstantiate? && s.out.error.service == t)
    decreases fuel, 3, 0
  {
    if u[t].isInterface then CreateServiceFromInterface(u, reg, st, t, fuel)
    else CreateServiceFromClass(u, reg, st, t, fuel)
  }

  /** `createServiceFromInterface`: build the class the registry maps the interface to. */
  function CreateServiceFromInterface(u: Universe, reg: Registry, st: State, t: TypeName, fuel: nat): (s: Step<Result>)
    requires RegistryOk(u, reg) && StateOk(u, st) && t in u && u[t].isInterface
    ensures StateOk(u, s.st) && Evolves(st, s.st) && Untouched(st, s.st, -1)
    ensures KeepsSingletons(u, reg, st, s.st, {})
    ensures s.out.Ok? ==> t in reg && s.out.value == |st.heap| < |s.st.heap| && s.st.heap[s.out.value].cls == reg[t]
    ensures s.out.Err? ==>
      || s.out.error == StackExhausted
      || (t !in reg && s.out.error == NoImplementationForInterface(t))
      || (t in reg && s.out.error.CouldNotInstantiate? && s.out.error.service == reg[t])
    decreases fuel, 2, 0
  {
    if t !in reg then Step(Err(NoImplementationForInterface(t)), st)
    else
      assert EntryOk(u, t, reg[t]);
      CreateServiceFromClass(u, reg, st, reg[t], fuel)
  }

  /**
   * The error branch of `createServiceFromInterface`: an interface with no
   * registered implementation fails with `NoImplementationForInterface`
   * and leaves the cache and heap as they were.
   */
  lemma UnregisteredInterfaceFails(u: Universe, reg: Registry, st: State, t: TypeName, fuel: nat)
    requires RegistryOk(u, reg) && StateOk(u, st) && t in u && u[t].isInterface && t !in reg
    ensures CreateServiceFromInterface(u, reg, st, t, fuel) == Step(Err(NoImplementationForInterface(t)), st)
  {
  }

  /**
   * `createServiceFromClass`: construct a bare instance, cache it under its
   * concrete class BEFORE injecting its fields, then inject. Any failure
   * other than stack exhaustion is wrapped in `CouldNotInstantiate` naming
   * the class; the cache entry stays in place on failure.
   */
  function CreateServiceFromClass(u: Universe, reg: Registry, st: State, c: TypeName, fuel: nat): (s: Step<Result>)
    requires RegistryOk(u, reg) && StateOk(u, st) && c in u
    ensures StateOk(u, s.st) && Evolves(st, s.st) && Untouched(st, s.st, -1)
    ensures KeepsSingletons(u, reg, st, s.st, {c})
    ensures s.out.Ok? ==> s.out.value == |st.heap| < |s.st.heap| && s.st.heap[s.out.value].cls == c
    ensures !Constructible(u, c) ==> s.st == st && s.out.Err?
    ensures Constructible(u, c) ==> c in s.st.cache && |st.heap| < |s.st.heap| && s.st.heap[|st.heap|].cls == c
    ensures Constructible(u, c) && IsSelfKey(u, reg, c) ==> s.st.cache[c] == |st.heap|
    ensures s.out.Err? ==> s.out.error == StackExhausted || (s.out.error.CouldNotInstantiate? && s.out.error.service == c)
    decreases fuel, 1, 0
  {
    if u[c].isInterface || !u[c].hasNoArgCtor then Step(Err(CouldNotInstantiate(c, NoSuchConstructor(c))), st)
    else if u[c].constructionFails then Step(Err(CouldNotInstantiate(c, ConstructorThrew(c))), st)
    else
      var o := |st.heap|;
      var inj := InjectDependencies(u, reg, Allocate(st, c), o, u[c].fields, 0, fuel);
      match inj.out
      case Pass => Step(Ok(o), inj.st)
      case Fail(e) => Step(if e == StackExhausted then Err(e) else Err(CouldNotInstantiate(c, e)), inj.st)
  }

  /**
   * `injectDependencies` from the `i`-th declared field on: each `Resolve`-annotated
   * field is resolved by its declared type, then written into object `o`.
   */
  function InjectDependencies(u: Universe, reg: Registry, st: State, o: ObjId, fields: seq<FieldInfo>, i: nat, fuel: nat): (s: Step<Outcome>)
    requires RegistryOk(u, reg) && StateOk(u, st) && o < |st.heap| && i <= |fields|
    ensures StateOk(u, s.st) && Evolves(st, s.st) && Untouched(st, s.st, o)
    ensures KeepsSingletons(u, reg, st, s.st, {})
    ensures s.st.heap[o].cls == st.heap[o].cls
    decreases fuel, 0, |fields| - i
  {
    if i == |fields| then Step(Pass, st)
    else
      var f := fields[i];
      if !f.annotated then InjectDependencies(u, reg, st, o, fields, i + 1, fuel)
      else if fuel == 0 then Step(Fail(StackExhausted), st)
      else
        var r := Resolve(u, reg, st, f.fieldType, fuel - 1);
        match r.out
        case Err(e) => Step(Fail(e), r.st)
        case Ok(d) =>
          if !f.writable then Step(Fail(CouldNotSetField(f.name, r.st.heap[o].cls)), r.st)
          else InjectDependencies(u, reg, SetField(r.st, o, f.name, d), o, fields, i + 1, fuel)
  }
}
