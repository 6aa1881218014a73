/**
 * What Java reflection tells the container about a class: the explicit type
 * descriptors that replace `Class<?>` objects, `getInterfaces()`,
 * `getDeclaredConstructor()` and `getDeclaredFields()`.
 */
module Reflection {

  /** A class or interface, identified by its fully qualified name. */
  type TypeName = string

  /**
   * A field as `getDeclaredFields()` reports it. `annotated` says whether it
   * carries the `Resolve` annotation; `writable` is false for a field that `Field.set`
   * refuses with an `IllegalAccessException` even after `setAccessible(true)`.
   */
  datatype FieldInfo = FieldInfo(name: string, fieldType: TypeName, annotated: bool, writable: bool)

  /**
   * The reflective view of one type: whether it is an interface, whether it
   * declares a constructor without arguments, whether invoking that
   * constructor fails (it throws, or the class is abstract), the interfaces it
   * declares directly, in declaration order, and its own declared fields, in
   * declaration order.
   */
  datatype ClassInfo = ClassInfo(
    isInterface: bool,
    hasNoArgCtor: bool,
    constructionFails: bool,
    interfaces: seq<TypeName>,
    fields: seq<FieldInfo>)

  /** The metadata of every type the program can name. */
  type Universe = map<TypeName, ClassInfo>

  /**
   * The facts the JVM guarantees about reflection metadata: a declared
   * interface is a known type and is an interface, and the fields a class
   * declares have distinct names.
   */
  ghost predicate Wf(u: Universe) {
    && (forall t, j :: t in u && 0 <= j < |u[t].interfaces| ==>
          u[t].interfaces[j] in u && u[u[t].interfaces[j]].isInterface)
    && (forall t, j, k :: t in u && 0 <= j < k < |u[t].fields| ==>
          u[t].fields[j].name != u[t].fields[k].name)
  }

  /** The annotated-type scan lists only known types. */
  ghost predicate ScanKnown(u: Universe, scan: seq<TypeName>) {
    forall j :: 0 <= j < |scan| ==> scan[j] in u
  }

  /** `verifyNoArgConstructor`: does `getDeclaredConstructor()` find a constructor? */
  predicate VerifyNoArgConstructor(u: Universe, c: TypeName)
    requires c in u
  {
    u[c].hasNoArgCtor
  }

  /** A class the registry builder accepts: not an interface, and it has a no-argument constructor. */
  predicate Eligible(u: Universe, c: TypeName)
    requires c in u
  {
    !u[c].isInterface && VerifyNoArgConstructor(u, c)
  }

  /** `newInstance()` on the no-argument constructor succeeds. */
  predicate Constructible(u: Universe, c: TypeName)
    requires c in u
  {
    Eligible(u, c) && !u[c].constructionFails
  }

  /** `c` is accepted by the registry builder and declares interface `i` directly. */
  predicate Implements(u: Universe, c: TypeName, i: TypeName)
    requires c in u
  {
    Eligible(u, c) && i in u[c].interfaces
  }
}
