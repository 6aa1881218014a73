/**
 * The container applied to this program's own classes. The three classes
 * carrying the `Register` annotation are `CommandServiceImpl`, `Bot` and `LoggerImpl`; their
 * reflection metadata is written out below. The scan may list them in any
 * order (the order of a `HashSet` is not specified).
 *
 * `org.homework.logger.Logger`, the declared type of the injected `logger`
 * fields, is not defined among the classes modelled here. The lemmas below
 * ASSUME that the scan holds exactly these three classes, so that no other
 * annotated class declares `Logger` as an interface; `LoggerImpl` declares
 * `ILogger`. Under that assumption `Logger` is never a registry key.
 */
module Repository {
  import opened Reflection
  import opened RegistryBuilder
  import opened Resolution
  import opened ResolutionFacts
  import opened Container

  const CommandService: TypeName := "org.homework.api.CommandService"
  const CommandServiceImpl: TypeName := "org.homework.services.CommandServiceImpl"
  const Bot: TypeName := "org.homework.bot.Bot"
  const LoggerImpl: TypeName := "org.homework.logger.LoggerImpl"
  const ILogger: TypeName := "org.homework.logger.ILogger"
  const Logger: TypeName := "org.homework.logger.Logger"
  const Slf4jLogger: TypeName := "org.slf4j.Logger"
  const Runnable: TypeName := "java.lang.Runnable"

  const AnInterface := ClassInfo(true, false, false, [], [])

  /**
   * `CommandServiceImpl` implements `CommandService` and injects a `Logger`;
   * `Bot` declares no interface of its own (it only extends a library class)
   * and injects a `CommandService` and a `Logger`; `LoggerImpl` implements
   * `ILogger` and has only a one-argument constructor.
   */
  const Types: Universe := map[
    CommandService := AnInterface,
    ILogger := AnInterface,
    Runnable := AnInterface,
    CommandServiceImpl := ClassInfo(false, true, false, [CommandService],
                                    [FieldInfo("logger", Logger, true, true)]),
    Bot := ClassInfo(false, true, false, [],
                     [FieldInfo("commandService", CommandService, true, true),
                      FieldInfo("logger", Logger, true, true)]),
    LoggerImpl := ClassInfo(false, false, false, [ILogger],
                            [FieldInfo("logger", Slf4jLogger, false, true)])
  ]

  /** A scan that lists exactly the three annotated classes. */
  ghost predicate IsScan(scan: seq<TypeName>) {
    forall x :: x in scan <==> x == CommandServiceImpl || x == Bot || x == LoggerImpl
  }

  lemma TypesWf()
    ensures Wf(Types)
  {
  }

  /**
   * The registry of a fresh container: `CommandService` maps to
   * `CommandServiceImpl`, `Bot` to itself, and nothing else is a key; in
   * particular `LoggerImpl` is dropped for lack of a no-argument constructor.
   */
  lemma {:induction false} RepositoryRegistry(scan: seq<TypeName>)
    requires IsScan(scan)
    ensures ScanKnown(Types, scan)
    ensures BuildRegistry(Types, scan) == Registered
  {
    TypesWf();
    assert ScanKnown(Types, scan) by {
      forall j | 0 <= j < |scan|
        ensures scan[j] in Types
      {
        assert scan[j] in scan;
      }
    }
    var reg := BuildRegistry(Types, scan);
    var expected := Registered;
    forall k | k in expected
      ensures k in reg && reg[k] == expected[k]
    {
      RegistryAt(Types, scan, k);
      var c := expected[k];
      assert c in scan;
      var j :| 0 <= j < |scan| && scan[j] == c;
      assert Claims(Types, scan[j], k);
    }
    forall k | k in reg
      ensures k in expected
    {
      RegistryAt(Types, scan, k);
      var j :| 0 <= j < |scan| && Claims(Types, scan[j], k);
      assert scan[j] in scan;
    }
    assert reg.Keys == expected.Keys;
  }

  /** The registry every fresh container of this program holds. */
  const Registered: Registry := map[CommandService := CommandServiceImpl, Bot := Bot]

  lemma RegisteredOk()
    ensures RegistryOk(Types, Registered)
  {
    assert EntryOk(Types, CommandService, CommandServiceImpl);
    assert EntryOk(Types, Bot, Bot);
  }

  /**
   * `resolve(CommandService)`, whatever the container has built so far: the
   * interface is never found in the cache, and the `Logger` field of the new
   * `CommandServiceImpl` cannot be resolved.
   */
  lemma ResolveCommandService(st: State, fuel: nat)
    requires RegistryOk(Types, Registered) && StateOk(Types, st)
    ensures Resolve(Types, Registered, st, CommandService, fuel).out ==
      if fuel == 0 then Err(StackExhausted) else Err(CouldNotInstantiate(CommandServiceImpl, NotRegistered(Logger)))
  {
    assert Types[CommandService].isInterface;
    assert CommandService !in st.cache;
    assert Logger !in Registered && Registered[CommandService] == CommandServiceImpl;
    assert Types[CommandServiceImpl].fields[0] == FieldInfo("logger", Logger, true, true);
    FirstFieldDecides(Types, Registered, st, CommandService, fuel);
  }

  /** A request for `Bot` that misses the cache is decided by its first field, `commandService`. */
  lemma BotFirstField(st: State, fuel: nat, e: Error)
    requires RegistryOk(Types, Registered) && StateOk(Types, st) && Bot !in st.cache
    requires fuel > 0 ==>
      StateOk(Types, Allocate(st, Bot)) &&
      Resolve(Types, Registered, Allocate(st, Bot), CommandService, fuel - 1).out == Err(e)
    ensures Resolve(Types, Registered, st, Bot, fuel).out ==
      if fuel == 0 || e == StackExhausted then Err(StackExhausted) else Err(CouldNotInstantiate(Bot, e))
  {
    assert Registered[Bot] == Bot;
    assert Types[Bot].fields[0] == FieldInfo("commandService", CommandService, true, true);
    FirstFieldDecides(Types, Registered, st, Bot, fuel);
  }

  /**
   * `resolve(Bot)` in a fresh container, as the program's entry point does:
   * the first field, `commandService`, fails, and the failure is wrapped
   * once per enclosing `createServiceFromClass`.
   */
  lemma ResolveBot(fuel: nat)
    requires RegistryOk(Types, Registered)
    ensures Resolve(Types, Registered, State(map[], []), Bot, fuel).out ==
      if fuel < 2 then Err(StackExhausted)
      else Err(CouldNotInstantiate(Bot, CouldNotInstantiate(CommandServiceImpl, NotRegistered(Logger))))
  {
    var st := State(map[], []);
    var st1 := Allocate(st, Bot);
    AllocateKeepsOk(Types, st, Bot);
    ResolveCommandService(st1, if fuel == 0 then 0 else fuel - 1);
    var e := if fuel < 2 then StackExhausted else CouldNotInstantiate(CommandServiceImpl, NotRegistered(Logger));
    BotFirstField(st, fuel, e);
  }

  /**
   * A fresh container asked for one type. `LoggerImpl` and `Runnable` are
   * refused as unregistered; `CommandService` and `Bot` fail while injecting
   * `Logger`, or overflow the stack when it is too shallow.
   */
  method ResolveInFreshContainer(scan: seq<TypeName>, t: TypeName, fuel: nat) returns (r: Result)
    requires IsScan(scan)
    ensures t == LoggerImpl || t == Runnable ==> r == Err(NotRegistered(t))
    ensures t == CommandService ==>
      r == if fuel == 0 then Err(StackExhausted) else Err(CouldNotInstantiate(CommandServiceImpl, NotRegistered(Logger)))
    ensures t == Bot ==>
      r == if fuel < 2 then Err(StackExhausted)
           else Err(CouldNotInstantiate(Bot, CouldNotInstantiate(CommandServiceImpl, NotRegistered(Logger))))
  {
    TypesWf();
    RepositoryRegistry(scan);
    RegisteredOk();
    var container := new DIContainer(Types, scan);
    ResolveCommandService(State(map[], []), fuel);
    ResolveBot(fuel);
    r := container.Resolve(t, fuel);
  }
}
