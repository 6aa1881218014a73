/**
 * The container itself: an object holding the two maps
 * `registeredImplementations` and `createdServices`, updated in place by
 * `autoRegister` (run by the constructor) and by the resolver methods. The
 * objects the container constructs are kept in `heap`; an instance is its
 * index there.
 *
 * Every method is proved to compute exactly what the corresponding function
 * of `RegistryBuilder` or `Resolution` computes, so the properties proved
 * about those functions hold of the container.
 */
module Container {
  import opened Basics
  import opened Reflection
  import opened RegistryBuilder
  import opened Resolution
  import ResolutionFacts

  class DIContainer {
    /** The reflection metadata of every class the program can name. */
    const types: Universe
    var registeredImplementations: Registry
    var createdServices: map<TypeName, ObjId>
    var heap: seq<Obj>

    /** The resolver's view of the container. */
    function Snapshot(): State
      reads this
    {
      State(createdServices, heap)
    }

    ghost predicate Valid()
      reads this
    {
      Wf(types) && RegistryOk(types, registeredImplementations) && StateOk(types, Snapshot())
    }

    /** `new DIContainer()`: empty maps, then `autoRegister()` over the annotated classes `scan`. */
    constructor (types: Universe, scan: seq<TypeName>)
      requires Wf(types) && ScanKnown(types, scan)
      ensures this.types == types
      ensures registeredImplementations == BuildRegistry(types, scan)
      ensures createdServices == map[] && heap == []
      ensures Valid()
    {
      this.types := types;
      registeredImplementations := map[];
      createdServices := map[];
      heap := [];
      new;
      AutoRegister(scan);
      BuildRegistryOk(types, scan);
    }

    /**
     * `autoRegister`: for each scanned class, skip interfaces and classes
     * without a no-argument constructor, map each declared interface to the
     * class unless it already maps to a class, and map a class with no
     * interfaces to itself.
     */
    method AutoRegister(scan: seq<TypeName>)
      requires ValuesKnown(types, registeredImplementations) && ScanKnown(types, scan)
      modifies this
      ensures registeredImplementations == RegisterClasses(types, old(registeredImplementations), scan)
      ensures createdServices == old(createdServices) && heap == old(heap)
    {
      ghost var m := registeredImplementations;
      for n := 0 to |scan|
        invariant ScanKnown(types, scan[..n])
        invariant registeredImplementations == RegisterClasses(types, m, scan[..n])
        invariant createdServices == old(createdServices) && heap == old(heap)
      {
        assert scan[..n + 1][..n] == scan[..n];
        var clazz := scan[n];
        if types[clazz].isInterface {
          continue;
        }
        if !VerifyNoArgConstructor(types, clazz) {
          continue;
        }
        var interfaces := types[clazz].interfaces;
        ghost var m1 := registeredImplementations;
        for j := 0 to |interfaces|
          invariant ValuesKnown(types, registeredImplementations)
          invariant registeredImplementations == RegisterInterfaces(types, m1, clazz, interfaces[..j])
          invariant createdServices == old(createdServices) && heap == old(heap)
        {
          assert interfaces[..j + 1][..j] == interfaces[..j];
          var intf := interfaces[j];
          if intf !in registeredImplementations || types[registeredImplementations[intf]].isInterface {
            registeredImplementations := registeredImplementations[intf := clazz];
          }
        }
        assert interfaces[..|interfaces|] == interfaces;
        if |interfaces| == 0 {
          registeredImplementations := registeredImplementations[clazz := clazz];
        }
      }
      assert scan[..|scan|] == scan;
    }

    /**
     * `resolve(t)` with `fuel` nested calls of stack left: refuse an
     * unregistered type, return the instance cached under `t`, or create one.
     */
    method Resolve(t: TypeName, fuel: nat) returns (r: Result)
      requires Valid()
      modifies this
      ensures Valid() && registeredImplementations == old(registeredImplementations)
      ensures Step(r, Snapshot()) == Resolution.Resolve(types, registeredImplementations, old(Snapshot()), t, fuel)
      decreases fuel, 5
    {
      if t !in registeredImplementations {
        return Err(NotRegistered(t));
      }
      if t in createdServices {
        return Ok(createdServices[t]);
      }
      r := CreateService(t, fuel);
    }

    /** `createService(t)`: dispatch on whether `t` is an interface. */
    method CreateService(t: TypeName, fuel: nat) returns (r: Result)
      requires Valid() && t in types
      modifies this
      ensures Valid() && registeredImplementations == old(registeredImplementations)
      ensures Step(r, Snapshot()) == Resolution.CreateService(types, registeredImplementations, old(Snapshot()), t, fuel)
      decreases fuel, 4
    {
      if types[t].isInterface {
        r := CreateServiceFromInterface(t, fuel);
      } else {
        r := CreateServiceFromClass(t, fuel);
      }
    }

    /** `createServiceFromInterface(t)`: look up the implementation and build it. */
    method CreateServiceFromInterface(t: TypeName, fuel: nat) returns (r: Result)
      requires Valid() && t in types && types[t].isInterface
      modifies this
      ensures Valid() && registeredImplementations == old(registeredImplementations)
      ensures Step(r, Snapshot()) == Resolution.CreateServiceFromInterface(types, registeredImplementations, old(Snapshot()), t, fuel)
      decreases fuel, 3
    {
      var implementationClass := if t in registeredImplementations then Some(registeredImplementations[t]) else None;
      if implementationClass == None {
        return Err(NoImplementationForInterface(t));
      }
      assert EntryOk(types, t, implementationClass.value);
      r := CreateServiceFromClass(implementationClass.value, fuel);
    }

    /**
     * `createServiceFromClass(c)`: construct, cache under `c`, inject; wrap
     * every exception in `CouldNotInstantiate(c, _)`.
     */
    method CreateServiceFromClass(c: TypeName, fuel: nat) returns (r: Result)
      requires Valid() && c in types
      modifies this
      ensures Valid() && registeredImplementations == old(registeredImplementations)
      ensures Step(r, Snapshot()) == Resolution.CreateServiceFromClass(types, registeredImplementations, old(Snapshot()), c, fuel)
      decreases fuel, 2
    {
      if types[c].isInterface || !types[c].hasNoArgCtor {
        return Err(CouldNotInstantiate(c, NoSuchConstructor(c)));
      }
      if types[c].constructionFails {
        return Err(CouldNotInstantiate(c, ConstructorThrew(c)));
      }
      ResolutionFacts.AllocateKeepsOk(types, Snapshot(), c);
      var instance := |heap|;
      heap := heap + [Obj(c, map[])];
      createdServices := createdServices[c := instance];
      var out := InjectDependencies(instance, fuel);
      match out
      case Pass => r := Ok(instance);
      case Fail(e) => r := if e == StackExhausted then Err(e) else Err(CouldNotInstantiate(c, e));
    }

    /**
     * `injectDependencies(object)`: walk the fields its class declares, in
     * order; resolve each annotated (`Resolve`) field's type and write the result into
     * the field. The first failure ends the walk.
     */
    method InjectDependencies(target: ObjId, fuel: nat) returns (out: Outcome)
      requires Valid() && target < |heap|
      modifies this
      ensures Valid() && registeredImplementations == old(registeredImplementations)
      ensures Step(out, Snapshot()) ==
        Resolution.InjectDependencies(types, registeredImplementations, old(Snapshot()), target, types[old(heap[target].cls)].fields, 0, fuel)
      decreases fuel, 1
    {
      var clazz := heap[target].cls;
      var fields := types[clazz].fields;
      ghost var reg := registeredImplementations;
      ghost var spec := Resolution.InjectDependencies(types, reg, Snapshot(), target, fields, 0, fuel);
      var i := 0;
      while i < |fields|
        invariant 0 <= i <= |fields|
        invariant Valid() && registeredImplementations == reg
        invariant target < |heap| && heap[target].cls == clazz
        invariant Resolution.InjectDependencies(types, reg, Snapshot(), target, fields, i, fuel) == spec
        decreases |fields| - i
      {
        var failure := InjectField(target, fields, i, fuel);
        if failure.Some? {
          return Fail(failure.value);
        }
        i := i + 1;
      }
      out := Pass;
    }

    /**
     * One turn of the field loop of `injectDependencies`: skip a field
     * without the `Resolve` annotation; otherwise resolve its type and assign the result,
     * or report why that failed.
     */
    method InjectField(target: ObjId, fields: seq<FieldInfo>, i: nat, fuel: nat) returns (failure: Option<Error>)
      requires Valid() && target < |heap| && i < |fields|
      modifies this
      ensures Valid() && registeredImplementations == old(registeredImplementations)
      ensures target < |heap| && heap[target].cls == old(heap[target].cls)
      ensures var spec := Resolution.InjectDependencies(types, registeredImplementations, old(Snapshot()), target, fields, i, fuel);
        match failure
        case Some(e) => spec == Step(Fail(e), Snapshot())
        case None => spec == Resolution.InjectDependencies(types, registeredImplementations, Snapshot(), target, fields, i + 1, fuel)
      decreases fuel, 0
    {
      var field := fields[i];
      if !field.annotated {
        return None;
      }
      if fuel == 0 {
        return Some(StackExhausted);
      }
      ghost var st0 := Snapshot();
      var dependency := Resolve(field.fieldType, fuel - 1);
      ResolutionFacts.InjectAt(types, registeredImplementations, st0, target, fields, i, fuel, Step(dependency, Snapshot()));
      match dependency
      case Err(e) =>
        failure := Some(e);
      case Ok(d) =>
        if !field.writable {
          return Some(CouldNotSetField(field.name, heap[target].cls));
        }
        AssignField(target, field.name, d);
        failure := None;
    }

    /** `field.set(object, dependency)`: write `d` into slot `name` of object `target`. */
    method AssignField(target: ObjId, name: string, d: ObjId)
      requires Valid() && target < |heap| && d < |heap|
      modifies this
      ensures Valid() && registeredImplementations == old(registeredImplementations)
      ensures Snapshot() == Resolution.SetField(old(Snapshot()), target, name, d)
    {
      ResolutionFacts.SetFieldKeepsOk(types, Snapshot(), target, name, d);
      heap := heap[target := heap[target].(slots := heap[target].slots[name := d])];
    }
  }
}
