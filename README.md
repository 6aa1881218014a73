# Dependency-injection container and travel bot, modelled in Dafny

This project models the core of a small Telegram travel bot written in Java.

The heart of the program is `DIContainer`, a reflection-driven
dependency-injection container:

- **Registry.** On construction it scans the classes annotated `@Register`.
  It skips interfaces and classes without a no-argument constructor.
- **Interface keys.** Each declared interface maps to the class that declares
  it, unless the interface already maps to a class.
- **Self keys.** A class that declares no interface is registered under its
  own name.
- **Resolving.** `resolve(type)` refuses unregistered types and returns the
  instance cached under the requested type. Otherwise it builds a new
  instance.
- **Building.** A new instance is put into the cache *before* its `@Resolve`
  fields are injected. Each field is filled by a recursive `resolve` of the
  field's declared type. This ordering is what lets two classes that inject
  each other resolve to one pair of objects.

Around the container sit `CommandServiceImpl` and `Bot`:

- `CommandServiceImpl` builds the reply messages: the greeting, the yes/no
  answer, the help text, the goodbye text, and the keyboard of nine travel
  links.
- `Bot.onUpdateReceived` lower-cases the incoming text and dispatches it.
  `/start`, `/help` and `да` have their own branches; anything else gets one
  answer. A failed send is logged once.

## Module layout

- `basics.dfy` (`Basics`): `Option`.
- `reflection.dfy` (`Reflection`): the reflection metadata the container reads.
  - A class is described by whether it is an interface, whether it has a
    no-argument constructor, whether that constructor throws, its declared
    interfaces, and its declared fields.
  - A field is described by its name, its declared type, whether it carries
    `@Resolve`, and whether it can be set.
- `registry.dfy` (`RegistryBuilder`): `autoRegister` as a left fold over the
  scanned classes, with its characterisation lemmas.
- `resolution.dfy` (`Resolution`): the resolver as mutually recursive functions.
  - They work on a state made of the instance cache and a heap of constructed
    objects.
  - `fuel` is the remaining call-stack depth. Running out of it is
    `StackExhausted`, the model of `StackOverflowError`.
- `resolution_facts.dfy` (`ResolutionFacts`): lemmas about the resolver. They
  cover singletons, injection, termination, divergence, cycles and failed
  injection.
- `container.dfy` (`Container`): `class DIContainer`, holding the two maps and
  the heap as fields.
  - Its constructor, `AutoRegister`, the five resolver methods and the two
    steps of the field loop are imperative: loops and in-place updates.
  - Each is proved to compute exactly what the matching function computes.
- `repository.dfy` (`Repository`): the container applied to the program's own
  three `@Register` classes.
- `text.dfy` (`Text`): `toLowerCase`, `equalsIgnoreCase`, `contains` and
  `Long.toString`.
- `commands.dfy` (`Messages`, `Commands`): message values, the reply
  functions, and `class CommandServiceImpl`, whose methods append to its log.
- `bot.dfy` (`BotDispatch`): the dispatch rule as functions, and `class Bot`.
  - `OnUpdateReceived` appends to an outbox and to a log.
  - It is proved equal to those functions.

## Behaviour the model makes explicit

- **Cache keys differ between reads and writes.** The cache is read under the
  requested type (`DIContainer.java:89`). It is written under the concrete
  class (`DIContainer.java:137`).
  - A request for an interface therefore never finds the cache. Each such
    request builds a new object (`InterfaceRequestsNeverHitCache`).
  - A cycle made only of interface requests recurses until the stack is
    exhausted. `InterfaceCycleDiverges` proves the direct case: the
    implementation's first `@Resolve` field has the interface's own type.
    Longer interface-only cycles are not proved.
  - A cycle that passes through a self-registered class ends. The inner
    request for that class finds the entry put at `DIContainer.java:137`
    before injection starts at line 140.
  - Cycles between self-registered classes do terminate
    (`MutualSelfDependency`, `ResolveTerminates`).
- **Dead code in `autoRegister`.** The second half of the guard at
  `DIContainer.java:62` never fires: a registered value is never an interface
  (`ReplacementNeverFires`). The first class claiming an interface wins
  (`RegistryAt`).
- **Failed injection leaves a cache entry.** A failed injection leaves the
  half-built instance in the cache under its class.
  - For a self-registered class the next request returns that instance
    without error (`FailedInjectionLeavesHalfBuiltSingleton`).
  - A request for an interface never reads that entry: it builds a new
    object instead (`InterfaceRequestsNeverHitCache`).
- **An unreachable error branch.** The error branch of
  `createServiceFromInterface` (`DIContainer.java:118-120`) cannot be reached
  from `resolve`. `resolve` has already refused every unregistered key.
- **`LoggerImpl` is never registered.** Its only constructor takes an
  argument (`LoggerImpl.java:19`), so the registry drops it
  (`RepositoryRegistry`).
  - The code therefore refuses `resolve(LoggerImpl.class)`
    (`ResolveInFreshContainer`).
  - The test at `DIContainerTest.java:24-30` expects an instance. The model
    follows the code.
- **`Logger` is not a registry key, under an assumption.** The `logger`
  fields of `CommandServiceImpl` and `Bot` have the declared type
  `org.homework.logger.Logger`. That type's declaration is not part of this
  model. None of the three visible annotated classes declares it:
  `LoggerImpl` declares `ILogger`.
  - The results below assume that the scan holds exactly these three classes,
    so that no other `@Register` class in the repository declares `Logger`.
  - Under that assumption `resolve(CommandService.class)` fails while
    injecting `logger` (`ResolveCommandService`).
  - `resolve(Bot.class)` fails on the same field, one level deeper
    (`ResolveBot`). That is the call `Main.java` makes.
  - The tests at `DIContainerTest.java:16-22` and `DIContainerTest.java:33-47`
    expect both calls to succeed with `logger` injected. Either the
    repository holds a class this model does not see, or those tests fail as
    written.

## Model

| member | source | states |
|---|---|---|
| Container.DIContainer.constructor | src/main/java/org/homework/di/DIContainer.java:31-33 | a new container holds exactly the registry built from the scanned classes, an empty cache and no objects, and satisfies the container invariant |
| Container.DIContainer.AutoRegister | src/main/java/org/homework/di/DIContainer.java:39-72 | the two nested loops leave the registry equal to the fold `RegisterClasses` over the scan; the cache and heap are unchanged |
| Container.DIContainer.Resolve | src/main/java/org/homework/di/DIContainer.java:81-94 | the result and the new cache and heap are exactly those of `Resolution.Resolve`; the registry and the container invariant are preserved |
| Container.DIContainer.CreateService | src/main/java/org/homework/di/DIContainer.java:102-107 | equals `Resolution.CreateService` on result and new state |
| Container.DIContainer.CreateServiceFromInterface | src/main/java/org/homework/di/DIContainer.java:116-122 | equals `Resolution.CreateServiceFromInterface` on result and new state |
| Container.DIContainer.CreateServiceFromClass | src/main/java/org/homework/di/DIContainer.java:131-146 | equals `Resolution.CreateServiceFromClass` on result and new state |
| Container.DIContainer.InjectDependencies | src/main/java/org/homework/di/DIContainer.java:153-178 | the field loop's outcome and new state equal the recursive `Resolution.InjectDependencies` from field 0 |
| Container.DIContainer.InjectField | src/main/java/org/homework/di/DIContainer.java:157-176 | one turn of the field loop: it either ends the walk with the error the recursive definition reports at that field, or leaves a state from which the definition continues at the next field |
| Container.DIContainer.AssignField | src/main/java/org/homework/di/DIContainer.java:168-170 | `field.set`: the new cache and heap are exactly `Resolution.SetField` of the old ones; the registry and the container invariant are preserved |
| RegistryBuilder.RegisterInterfacesEffect | src/main/java/org/homework/di/DIContainer.java:58-65 | for any starting map, the inner loop adds exactly the listed interfaces as keys, never displaces a value that is a class, maps each listed interface that was absent or bound to an interface to the class, and changes nothing else |
| RegistryBuilder.RegisterClassEffect | src/main/java/org/homework/di/DIContainer.java:48-70 | for any starting map, an interface or a class `verifyNoArgConstructor` rejects leaves the map unchanged; otherwise the keys added are exactly those the class claims, an existing class value is displaced only by the self-mapping of a class without interfaces, and every claimed key that was absent, bound to an interface, or the class itself now maps to the class |
| RegistryBuilder.RegisterClassesEffect | src/main/java/org/homework/di/DIContainer.java:46-71 | for any starting map, the outer loop drops no key, and every entry it adds or changes maps a key to a scanned class that claims it |
| RegistryBuilder.UnverifiedClassNeverStored | src/main/java/org/homework/di/DIContainer.java:185-193 | a class without a no-argument constructor is never a value of the registry, whatever the scan |
| RegistryBuilder.RegistryAt | src/main/java/org/homework/di/DIContainer.java:46-71 | `BuildRegistry`, key by key: a type is a key iff some scanned class claims it (an eligible class declaring it as an interface, or naming itself with no interfaces); its value is the first scanned class that claims it |
| RegistryBuilder.BuildRegistryOk | src/main/java/org/homework/di/DIContainer.java:48-56 | every registered implementation is a scanned class that is not an interface and has a no-argument constructor, and it implements, or is, its key |
| RegistryBuilder.SelfRegistration | src/main/java/org/homework/di/DIContainer.java:57-70 | a class declaring interfaces is never a key itself; an eligible class declaring none maps to itself; an ineligible class is not a key |
| RegistryBuilder.ReplacementNeverFires | src/main/java/org/homework/di/DIContainer.java:62-64 | over a well-formed registry the guard reduces to "key absent": registering a class's interfaces only adds missing keys |
| Resolution.Resolve | src/main/java/org/homework/di/DIContainer.java:81-94 | an unregistered type gives `NotRegistered` with the state unchanged; a cached type gives the cached instance with the state unchanged; a success is an object of the registered class; existing objects and cache entries are never removed; a self-registered success is cached |
| Resolution.CreateService | src/main/java/org/homework/di/DIContainer.java:102-107 | a success is a new object of the registered implementation for an interface, of the class itself otherwise |
| Resolution.CreateServiceFromInterface | src/main/java/org/homework/di/DIContainer.java:116-122 | a success is a new object of the registered implementation, and the interface is registered; a failure is a stack overflow, `NoImplementationForInterface` for an unregistered interface, or `CouldNotInstantiate` of the registered implementation |
| Resolution.UnregisteredInterfaceFails | src/main/java/org/homework/di/DIContainer.java:118-120 | an interface without a registered implementation gives exactly `NoImplementationForInterface` with the cache and heap unchanged |
| Resolution.CreateServiceFromClass | src/main/java/org/homework/di/DIContainer.java:131-146 | a class that cannot be constructed leaves the state unchanged and fails; otherwise the new object is cached under the class before injection; for a self-registered class it stays the cache entry, while for a class registered under an interface a nested request for that interface may overwrite the entry; every failure is `CouldNotInstantiate` of the class, or a stack overflow |
| Resolution.InjectDependencies | src/main/java/org/homework/di/DIContainer.java:153-178 | injection changes no object but the target and keeps its class; it never removes an object or a cache key, and keeps every self-registered singleton, though an entry cached under a class registered for an interface may be overwritten; the heap stays well formed |
| Resolution.Allocate | src/main/java/org/homework/di/DIContainer.java:134-137 | a new bare object is appended to the heap and cached under its class |
| Resolution.SetField | src/main/java/org/homework/di/DIContainer.java:168-170 | the named slot of the target now holds the dependency; every other slot and every other object is unchanged |
| ResolutionFacts.ResolveBuilds | src/main/java/org/homework/di/DIContainer.java:102-122 | an uncached registered request builds the registered implementation, whether the key is an interface or a class |
| ResolutionFacts.BuildInjects | src/main/java/org/homework/di/DIContainer.java:134-145 | building a constructible class leaves the state injection leaves; it succeeds with the new object iff injection passes, and otherwise fails with the injection error wrapped in `CouldNotInstantiate`, a stack overflow passing through unwrapped |
| ResolutionFacts.FirstFieldDecides | src/main/java/org/homework/di/DIContainer.java:139-145 | when the first field of the implementation is `@Resolve`, a failure to resolve it fails the request with that error wrapped in `CouldNotInstantiate`, a stack overflow passing through unwrapped |
| ResolutionFacts.InjectFillsFields | src/main/java/org/homework/di/DIContainer.java:157-177 | after a successful injection every `@Resolve` field holds an object of the class the registry maps the field's type to and, for a self-registered type, exactly its cached singleton |
| ResolutionFacts.ResolveInjectsAllFields | src/main/java/org/homework/di/DIContainer.java:131-146 | a successful uncached `resolve` returns a new object of the registered class whose every `@Resolve` field holds a suitable instance |
| ResolutionFacts.RepeatedResolveReturnsSingleton | src/main/java/org/homework/di/DIContainer.java:87-92 | resolving a self-registered class again returns the identical instance and changes nothing |
| ResolutionFacts.InterfaceRequestsNeverHitCache | src/main/java/org/homework/di/DIContainer.java:87-92 | an interface is never a cache key, so two successful requests for it return two different objects |
| ResolutionFacts.ResolveDoesNotExhaust | src/main/java/org/homework/di/DIContainer.java:136-140 | for a request that is not an interface key, with no interface-typed injection and depth at least the number of uncached self-registered classes, resolve never overflows the stack |
| ResolutionFacts.ResolveTerminates | src/main/java/org/homework/di/DIContainer.java:81-94 | under the same conditions, with depth greater than that number, every request ends without a stack overflow |
| ResolutionFacts.InterfaceCycleDiverges | src/main/java/org/homework/di/DIContainer.java:157-166 | an implementation whose first `@Resolve` field has its own interface's type overflows the stack for every depth; this is the direct case only, and longer interface-only cycles are not covered |
| ResolutionFacts.MutualSelfDependency | src/main/java/org/homework/di/DIContainer.java:136-140 | two self-registered classes that inject each other resolve to one pair of objects that point at each other, both cached |
| ResolutionFacts.BackReference | src/main/java/org/homework/di/DIContainer.java:136-140 | while the first of two such classes is being injected, resolving the second returns a new object whose field already points back at the first |
| ResolutionFacts.FailedInjectionLeavesHalfBuiltSingleton | src/main/java/org/homework/di/DIContainer.java:137-145 | a failed injection reports `CouldNotInstantiate`, but the next request returns the cached, uninjected instance |
| Repository.RepositoryRegistry | src/main/java/org/homework/logger/LoggerImpl.java:19 | for any order of this program's three annotated classes the registry is exactly `CommandService` to `CommandServiceImpl` and `Bot` to `Bot`: `LoggerImpl` is dropped |
| Repository.ResolveCommandService | src/test/java/org/homework/di/DIContainerTest.java:16-22 | `resolve(CommandService)` always builds a new `CommandServiceImpl` and fails on its `Logger` field, or overflows the stack when no depth is left |
| Repository.ResolveBot | src/main/java/org/homework/Main.java:21 | `resolve(Bot)` in a fresh container fails with the `CommandServiceImpl` failure wrapped once more for `Bot`, or overflows the stack when depth is below two |
| Repository.ResolveInFreshContainer | src/test/java/org/homework/di/DIContainerTest.java:24-30 | a new container refuses `LoggerImpl` and `Runnable` as unregistered, and fails `CommandService` and `Bot` as above |
| Text.EqualsIgnoreCaseIffSameLower | src/main/java/org/homework/services/CommandServiceImpl.java:38-41 | `equalsIgnoreCase` holds exactly when both strings have the same lower-case form |
| Text.ParseDecimalString | src/main/java/org/homework/bot/Bot.java:35 | the decimal rendering of a chat id parses back to that id |
| Text.DecimalStringInjective | src/main/java/org/homework/bot/Bot.java:35 | different chat ids render as different strings |
| Commands.StartReply | src/main/java/org/homework/services/CommandServiceImpl.java:25-31 | the greeting goes to the given chat, has no keyboard, and contains the greeting text |
| Commands.HandleUserResponse | src/main/java/org/homework/services/CommandServiceImpl.java:34-48 | the answer goes to the given chat without keyboard; it is the positive text iff the input equals "да" ignoring case, the refusal iff it equals "нет", and the clarification otherwise |
| Commands.HandleUserResponseByLower | src/main/java/org/homework/services/CommandServiceImpl.java:38-46 | the same classification stated through the lower-cased input |
| Commands.HandleUserResponseCaseBlind | src/main/java/org/homework/services/CommandServiceImpl.java:38-46 | inputs that agree ignoring case get the same answer |
| Commands.HandleUserResponseOfLower | src/main/java/org/homework/services/CommandServiceImpl.java:38-46 | answering the lower-cased text gives the same reply as answering the text itself, since lower-casing is idempotent (`Text.LowerIdempotent`) |
| Commands.HandleUserResponseSamples | src/test/java/org/homework/services/CommandServiceImplTest.java:78-120 | "Да" gets the positive answer, "Нет" the refusal, and "Может быть" the clarification |
| Commands.GetHelp | src/main/java/org/homework/services/CommandServiceImpl.java:108-113 | the help reply goes to the given chat and lists `/start` |
| Commands.SendGoodbyeMessage | src/main/java/org/homework/services/CommandServiceImpl.java:100-105 | the goodbye reply goes to the given chat and contains the farewell and the site address |
| Commands.CreateButtonRow | src/main/java/org/homework/services/CommandServiceImpl.java:79-84 | a row holds exactly one button with the given text and url |
| Commands.TravelReplyShape | src/main/java/org/homework/services/CommandServiceImpl.java:54-72 | states what `TravelReply` and `TravelKeyboard` build: the travel reply goes to the given chat with the prompt and a keyboard of nine one-button rows in the listed order, the first being the excursions link |
| Commands.CommandServiceImpl.StartCommand | src/main/java/org/homework/services/CommandServiceImpl.java:25-31 | returns the greeting and appends exactly one info entry naming the chat to the log |
| Commands.CommandServiceImpl.ShowTravelOptions | src/main/java/org/homework/services/CommandServiceImpl.java:51-77 | the nine appended rows form exactly the travel reply; exactly one info entry is logged |
| BotDispatch.Dispatch | src/main/java/org/homework/bot/Bot.java:38-51 | every text leads to one or two service calls |
| BotDispatch.SentToOwnChat | src/main/java/org/homework/bot/Bot.java:35 | every message sent for an update is addressed to that update's chat, and two updates' messages share an address iff their chats are the same |
| BotDispatch.IgnoredUpdate | src/main/java/org/homework/bot/Bot.java:30-32 | an update without a message, without text, or with an empty text (`hasText()` false) sends nothing and logs nothing |
| BotDispatch.AllRepliesSent | src/main/java/org/homework/bot/Bot.java:37-51 | without a send failure every reply of the dispatched calls is sent, in order |
| BotDispatch.StartSendsGreeting | src/main/java/org/homework/bot/Bot.java:39-41 | a text whose lower-case form is `/start` sends exactly the greeting |
| BotDispatch.HelpSendsCommandList | src/main/java/org/homework/bot/Bot.java:42-44 | a text whose lower-case form is `/help` sends exactly the help reply |
| BotDispatch.YesSendsAnswerThenOptions | src/main/java/org/homework/bot/Bot.java:45-48 | a "да" in any case sends the positive answer and then the travel keyboard |
| BotDispatch.OtherTextAnsweredOnce | src/main/java/org/homework/bot/Bot.java:49-50 | any other text sends one answer, which is never the positive one and is the refusal iff the text is "нет" ignoring case |
| BotDispatch.DispatchCaseBlind | src/main/java/org/homework/bot/Bot.java:38 | texts that agree after lower-casing get the same replies |
| BotDispatch.FailedSendLoggedOnce | src/main/java/org/homework/bot/Bot.java:52-54 | when a send throws, only the replies before it are sent and the bot logs exactly one error carrying the exception's message; for "да" failing on the first send, the travel options are never built and the service logs nothing |
| BotDispatch.Bot.Answer | src/main/java/org/homework/bot/Bot.java:39-50 | `execute(commandService.<call>(chatId))`: the service's log grows by exactly that call's entries; the reply is appended to the outbox unless this send throws, in which case the outbox is unchanged and the thrown reason is returned; the bot's log is unchanged |
| BotDispatch.Bot.AnswerTwice | src/main/java/org/homework/bot/Bot.java:45-48 | the two sends of the "да" branch: a failing first send stops before the second call, so only the first call is logged and nothing is sent; a failing second send leaves only the first reply sent; otherwise both replies are sent in order; the thrown reason is returned |
| BotDispatch.Bot.OnUpdateReceived | src/main/java/org/homework/bot/Bot.java:29-55 | the outbox, the bot's log and the service's log grow by exactly what the dispatch functions prescribe for the update and the failure |

## Left out

- **Classpath scanning.** `Reflections.getTypesAnnotatedWith` and the
  iteration order of the `HashSet` it returns are not modelled. The scan is a
  parameter, and `RepositoryRegistry` holds for every order.
- **Java reflection mechanics.**
  - `newInstance` is allocation on the container's `heap`.
  - A throwing constructor is a flag on the class.
  - `IllegalAccessException` from `Field.set` is a per-field flag.
  - `setAccessible` has no effect on the model.
  - `asSubclass` cannot fail on a well-formed registry, so it is not modelled.
- **Error messages.** Exception messages and nested `cause` objects are reduced
  to the `Error` datatype. It keeps the type names the messages carry.
- **Call-stack depth.** The JVM stack is a `fuel` bound on nested `resolve`
  calls. `StackOverflowError` is `StackExhausted`, which `catch (Exception)`
  does not wrap.
- **Generic casts.** The unchecked `(T)` cast is not modelled. Results are
  object identifiers.
- **`scheduleGoodbyeMessage`.** `CommandServiceImpl.java:86-97` runs a delayed
  send on another thread. Concurrency and timing are not modelled; the text it
  sends is `SendGoodbyeMessage`.
- **The `bot` argument of `showTravelOptions`.** It only feeds
  `scheduleGoodbyeMessage`, so it is dropped.
- **Telegram I/O.** `execute` never reaches a server. Its failure is the
  parameter `failure`, giving the attempt that throws and the message of the
  `TelegramApiException`. `Bot.Execute` is this stand-in, so it has no row.
- **Other exceptions.** The model does not cover other exceptions thrown by
  collaborators. This includes the `NullPointerException` a `CommandServiceImpl`
  with an uninjected `logger` would throw.
- **Logging.** Loggers are per-object logs of `Info` / `Error` entries. It is
  not modelled which `Logger` instance is shared, or how `LoggerImpl` forwards
  to SLF4J.
- **Bot configuration.** `getBotUsername`, `getBotToken` and their
  configuration values are not modelled.
- **`Main.java`.** The program's start-up and the Telegram session
  registration are not modelled. Only its `resolve(Bot.class)` call is
  modelled, by `ResolveBot`.
- **The `Logger` type and `ICommandService`.** `org.homework.logger.Logger` and
  `ILogger` appear only as names in the reflection metadata. Their declarations
  are not part of this model.
- **Case mapping.** `toLowerCase` is locale-dependent, and `equalsIgnoreCase`
  follows full Unicode case mapping.
  - Text.Lower covers only basic Latin and Cyrillic U+0400-U+045F. Every other
    character is mapped to itself.
- **Chat ids.** Text.DecimalString renders an unbounded integer, so the 64-bit
  range of `Long` is not modelled.
- Resolution.CreateServiceFromInterface: its own contract does not fix the
  outcome for an unregistered interface, because any further clause on the
  mutually recursive resolver functions makes unrelated proofs about them too
  costly. `UnregisteredInterfaceFails` states that outcome exactly.
- Resolution.InjectDependencies: its own contract states only frame and
  well-formedness facts. Which fields end up filled is stated separately by
  `InjectFillsFields`.
- BotDispatch.Dispatch: its own contract only bounds the number of calls. The
  lemmas below it state which calls each text produces.
- Repository.ResolveCommandService, Repository.ResolveBot: both assume that
  the scan is exactly the three visible `@Register` classes. A further
  annotated class in the repository that declares `org.homework.logger.Logger`
  would make `Logger` a registry key and change both outcomes.
- **`Message.hasText()`.** The Telegram library is not part of this model.
  `hasText()` is taken to mean a text that is present and not empty, which is
  the library's definition. `BotDispatch.HasText` states it.
