/**
 * The registry builder of the container (`autoRegister`): a left fold over the
 * annotated classes in scan order that fills the map from each directly
 * declared interface to the class implementing it, and from each class that
 * declares no interface to itself.
 */
module RegistryBuilder {
  import opened Reflection

  /** `registeredImplementations`: requested type to implementation class. */
  type Registry = map<TypeName, TypeName>

  /** Every stored implementation has reflection metadata. */
  ghost predicate ValuesKnown(u: Universe, m: Registry) {
    forall k :: k in m ==> m[k] in u
  }

  /**
   * The inner loop over `clazz.getInterfaces()`: each interface is mapped to
   * `c` unless it is already mapped to a class that is not an interface.
   */
  function RegisterInterfaces(u: Universe, m: Registry, c: TypeName, ifs: seq<TypeName>): (m': Registry)
    requires ValuesKnown(u, m) && c in u
    ensures ValuesKnown(u, m')
    decreases |ifs|
  {
    if ifs == [] then m
    else
      var m0 := RegisterInterfaces(u, m, c, ifs[..|ifs| - 1]);
      var i := ifs[|ifs| - 1];
      if i !in m0 || u[m0[i]].isInterface then m0[i := c] else m0
  }

  /**
   * One iteration of the outer loop: interfaces and classes without a
   * no-argument constructor are skipped; otherwise the class is registered
   * under its interfaces, or under itself when it declares none.
   */
  function RegisterClass(u: Universe, m: Registry, c: TypeName): (m': Registry)
    requires ValuesKnown(u, m) && c in u
    ensures ValuesKnown(u, m')
  {
    if u[c].isInterface then m
    else if !VerifyNoArgConstructor(u, c) then m
    else
      var m1 := RegisterInterfaces(u, m, c, u[c].interfaces);
      if |u[c].interfaces| == 0 then m1[c := c] else m1
  }

  /** The outer loop over the scanned classes, in scan order, starting from `m`. */
  function RegisterClasses(u: Universe, m: Registry, scan: seq<TypeName>): (m': Registry)
    requires ValuesKnown(u, m) && ScanKnown(u, scan)
    ensures ValuesKnown(u, m')
    decreases |scan|
  {
    if scan == [] then m
    else RegisterClass(u, RegisterClasses(u, m, scan[..|scan| - 1]), scan[|scan| - 1])
  }

  /** The registry `autoRegister` leaves in a fresh container. */
  function BuildRegistry(u: Universe, scan: seq<TypeName>): Registry
    requires ScanKnown(u, scan)
  {
    RegisterClasses(u, map[], scan)
  }

  /**
   * The inner loop on any map: it adds exactly the listed interfaces as keys,
   * never displaces a value that is a class, and maps each listed interface
   * that is absent or bound to an interface to `c`.
   */
  lemma {:induction false} RegisterInterfacesEffect(u: Universe, m: Registry, c: TypeName, ifs: seq<TypeName>)
    requires ValuesKnown(u, m) && c in u
    ensures var m' := RegisterInterfaces(u, m, c, ifs);
      && (forall k :: k in m' <==> k in m || k in ifs)
      && (forall k :: k in m' ==> (k in m && m'[k] == m[k]) || (k in ifs && m'[k] == c))
      && (forall k :: k in m && !u[m[k]].isInterface ==> m'[k] == m[k])
      && (forall k :: k in ifs && (k !in m || u[m[k]].isInterface) ==> m'[k] == c)
    decreases |ifs|
  {
    if ifs != [] {
      var front := ifs[..|ifs| - 1];
      RegisterInterfacesEffect(u, m, c, front);
      assert forall k :: k in ifs <==> k in front || k == ifs[|ifs| - 1];
    }
  }

  /**
   * One outer iteration on any map: an interface or a class that
   * `verifyNoArgConstructor` rejects changes nothing; otherwise the new keys
   * are the ones the class claims, a value that is a class is displaced only
   * by the self-mapping of a class without interfaces, and every claimed key
   * that is absent, bound to an interface, or the class itself maps to `c`.
   */
  lemma RegisterClassEffect(u: Universe, m: Registry, c: TypeName)
    requires ValuesKnown(u, m) && c in u
    ensures var m' := RegisterClass(u, m, c);
      && (u[c].isInterface || !VerifyNoArgConstructor(u, c) ==> m' == m)
      && (forall k :: k in m' <==> k in m || Claims(u, c, k))
      && (forall k :: k in m' ==> (k in m && m'[k] == m[k]) || (Claims(u, c, k) && m'[k] == c))
      && (forall k :: k in m && !u[m[k]].isInterface && !(Claims(u, c, k) && |u[c].interfaces| == 0) ==> m'[k] == m[k])
      && (forall k :: Claims(u, c, k) && (k !in m || u[m[k]].isInterface || |u[c].interfaces| == 0) ==> m'[k] == c)
  {
    if Eligible(u, c) {
      RegisterInterfacesEffect(u, m, c, u[c].interfaces);
    }
  }

  /**
   * The outer loop on any map: no key is dropped, and every entry it adds or
   * changes maps a key to a scanned class that claims it.
   */
  lemma {:induction false} RegisterClassesEffect(u: Universe, m: Registry, scan: seq<TypeName>)
    requires ValuesKnown(u, m) && ScanKnown(u, scan)
    ensures var m' := RegisterClasses(u, m, scan);
      && (forall k :: k in m ==> k in m')
      && (forall k :: k in m' ==> (k in m && m'[k] == m[k]) || (m'[k] in scan && Claims(u, m'[k], k)))
    decreases |scan|
  {
    if scan != [] {
      var front := scan[..|scan| - 1];
      assert ScanKnown(u, front);
      RegisterClassesEffect(u, m, front);
      RegisterClassEffect(u, RegisterClasses(u, m, front), scan[|scan| - 1]);
      assert forall x :: x in front ==> x in scan;
    }
  }

  /**
   * `verifyNoArgConstructor` gates registration: a class it rejects is never
   * stored as an implementation, whatever the scan holds.
   */
  lemma UnverifiedClassNeverStored(u: Universe, scan: seq<TypeName>, c: TypeName)
    requires ScanKnown(u, scan) && c in u && !VerifyNoArgConstructor(u, c)
    ensures c !in BuildRegistry(u, scan).Values
  {
    RegisterClassesEffect(u, map[], scan);
    var reg := BuildRegistry(u, scan);
    assert forall k :: k in reg ==> reg[k] != c;
  }

  /**
   * Class `c` asks for key `k` when the builder meets it: it is eligible and
   * `k` is one of its interfaces, or `k` is `c` itself and `c` declares none.
   */
  predicate Claims(u: Universe, c: TypeName, k: TypeName)
    requires c in u
  {
    Eligible(u, c) && (k in u[c].interfaces || (k == c && |u[c].interfaces| == 0))
  }

  /**
   * What a registry entry may be: the implementation is an eligible class; an
   * interface key is one of the implementation's declared interfaces; any
   * other key is a class with no interfaces, mapped to itself.
   */
  ghost predicate EntryOk(u: Universe, k: TypeName, v: TypeName) {
    && k in u && v in u && Eligible(u, v)
    && (if u[k].isInterface then k in u[v].interfaces else v == k && |u[k].interfaces| == 0)
  }

  ghost predicate RegistryOk(u: Universe, reg: Registry) {
    forall k :: k in reg ==> EntryOk(u, k, reg[k])
  }

  /**
   * The inner loop with the guard reduced to its first disjunct: register
   * `c` under an interface only when the interface is not yet a key.
   */
  function RegisterAbsent(m: Registry, c: TypeName, ifs: seq<TypeName>): Registry
    decreases |ifs|
  {
    if ifs == [] then m
    else
      var m0 := RegisterAbsent(m, c, ifs[..|ifs| - 1]);
      var i := ifs[|ifs| - 1];
      if i !in m0 then m0[i := c] else m0
  }

  /**
   * The second disjunct of the guard ("the stored implementation is an
   * interface") never holds: on a well-formed registry the inner loop does
   * exactly what the first disjunct alone does.
   */
  lemma {:induction false} ReplacementNeverFires(u: Universe, m: Registry, c: TypeName, ifs: seq<TypeName>)
    requires Wf(u) && RegistryOk(u, m) && c in u && Eligible(u, c)
    requires forall j :: 0 <= j < |ifs| ==> ifs[j] in u[c].interfaces
    ensures RegisterInterfaces(u, m, c, ifs) == RegisterAbsent(m, c, ifs)
    decreases |ifs|
  {
    if ifs != [] {
      var front := ifs[..|ifs| - 1];
      var i := ifs[|ifs| - 1];
      ReplacementNeverFires(u, m, c, front);
      RegisterInterfacesAt(u, m, c, front, i);
      var m0 := RegisterInterfaces(u, m, c, front);
      if i in m0 {
        assert EntryOk(u, i, m0[i]);
      }
    }
  }

  /** The inner loop, seen from one key `k`: it is added only if absent, and then mapped to `c`. */
  lemma {:induction false} RegisterInterfacesAt(u: Universe, m: Registry, c: TypeName, ifs: seq<TypeName>, k: TypeName)
    requires Wf(u) && RegistryOk(u, m) && c in u && Eligible(u, c)
    requires forall j :: 0 <= j < |ifs| ==> ifs[j] in u[c].interfaces
    ensures var m' := RegisterInterfaces(u, m, c, ifs);
      && RegistryOk(u, m')
      && (k in m' <==> k in m || k in ifs)
      && (k in m ==> m'[k] == m[k])
      && (k !in m && k in ifs ==> m'[k] == c)
    decreases |ifs|
  {
    if ifs != [] {
      var front := ifs[..|ifs| - 1];
      var i := ifs[|ifs| - 1];
      RegisterInterfacesAt(u, m, c, front, k);
      RegisterInterfacesAt(u, m, c, front, i);
      var m0 := RegisterInterfaces(u, m, c, front);
      assert i in u[c].interfaces;
      assert k in ifs <==> k in front || k == i;
    }
  }

  /** One outer iteration, seen from one key `k`. */
  lemma {:induction false} RegisterClassAt(u: Universe, m: Registry, c: TypeName, k: TypeName)
    requires Wf(u) && RegistryOk(u, m) && c in u
    ensures var m' := RegisterClass(u, m, c);
      && RegistryOk(u, m')
      && (k in m' <==> k in m || Claims(u, c, k))
      && (k in m ==> m'[k] == m[k])
      && (k !in m && Claims(u, c, k) ==> m'[k] == c)
  {
    if Eligible(u, c) {
      var ifs := u[c].interfaces;
      RegisterInterfacesAt(u, m, c, ifs, k);
      RegisterInterfacesAt(u, m, c, ifs, c);
      if |ifs| == 0 {
        var m1 := RegisterInterfaces(u, m, c, ifs);
        assert EntryOk(u, c, c);
        assert c in m ==> m[c] == c by {
          if c in m {
            assert EntryOk(u, c, m[c]);
          }
        }
      }
    }
  }

  /**
   * The registry, key by key: a key is present iff some scanned class claims
   * it, and it is then mapped to the FIRST such class in scan order. The
   * invariant `RegistryOk` holds throughout, so the stored implementation is
   * never an interface and no later class displaces an earlier one.
   */
  lemma {:induction false} RegistryAt(u: Universe, scan: seq<TypeName>, k: TypeName)
    requires Wf(u) && ScanKnown(u, scan)
    ensures var reg := BuildRegistry(u, scan);
      && RegistryOk(u, reg)
      && (k in reg <==> exists j :: 0 <= j < |scan| && Claims(u, scan[j], k))
      && (k in reg ==> exists j :: 0 <= j < |scan| && reg[k] == scan[j] && Claims(u, scan[j], k)
                                && forall j' :: 0 <= j' < j ==> !Claims(u, scan[j'], k))
    decreases |scan|
  {
    if scan != [] {
      var n := |scan| - 1;
      var front, c := scan[..n], scan[n];
      assert ScanKnown(u, front);
      RegistryAt(u, front, k);
      var m0 := BuildRegistry(u, front);
      RegisterClassAt(u, m0, c, k);
      var reg := BuildRegistry(u, scan);
      assert reg == RegisterClass(u, m0, c);
      if k in m0 {
        var j :| 0 <= j < |front| && m0[k] == front[j] && Claims(u, front[j], k)
                 && forall j' :: 0 <= j' < j ==> !Claims(u, front[j'], k);
        assert scan[j] == front[j];
        assert forall j' :: 0 <= j' < j ==> scan[j'] == front[j'];
      } else if Claims(u, c, k) {
        assert forall j' :: 0 <= j' < n ==> scan[j'] == front[j'] && !Claims(u, front[j'], k);
      } else {
        assert forall j :: 0 <= j < n ==> scan[j] == front[j];
      }
    }
  }

  /**
   * The built registry as a whole: every entry is well formed and its
   * implementation is one of the scanned classes. In particular no interface
   * and no class without a no-argument constructor is ever stored.
   */
  lemma BuildRegistryOk(u: Universe, scan: seq<TypeName>)
    requires Wf(u) && ScanKnown(u, scan)
    ensures var reg := BuildRegistry(u, scan);
      && RegistryOk(u, reg)
      && forall k :: k in reg ==> reg[k] in scan && Eligible(u, reg[k]) && !u[reg[k]].isInterface
  {
    var reg := BuildRegistry(u, scan);
    RegistryAt(u, scan, "");
    forall k | k in reg
      ensures reg[k] in scan && Eligible(u, reg[k])
    {
      RegistryAt(u, scan, k);
    }
  }

  /**
   * A class that declares at least one interface is registered only under
   * those interfaces, never under its own name; a scanned class declaring
   * none is registered as key and value.
   */
  lemma SelfRegistration(u: Universe, scan: seq<TypeName>, c: TypeName)
    requires Wf(u) && ScanKnown(u, scan) && c in scan
    ensures var reg := BuildRegistry(u, scan);
      && (!u[c].isInterface && |u[c].interfaces| > 0 ==> c !in reg)
      && (Eligible(u, c) && |u[c].interfaces| == 0 ==> c in reg && reg[c] == c)
      && (!Eligible(u, c) && !u[c].isInterface ==> c !in reg)
  {
    var reg := BuildRegistry(u, scan);
    RegistryAt(u, scan, c);
    if c in reg {
      assert EntryOk(u, c, reg[c]);
    }
    if Eligible(u, c) && |u[c].interfaces| == 0 {
      var j :| 0 <= j < |scan| && scan[j] == c;
      assert Claims(u, scan[j], c);
    }
  }
}
