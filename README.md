# Verified model of seven small components of java-design-patterns

This Dafny project models the core logic of seven classes from the
java-design-patterns repository and proves what they promise:

- **Leader election, candidate search** (`AbstractMessageManager.findNextInstance`):
  the registry is a map from instance id to liveness. The search returns the
  smallest live id above the current one. When no live id lies above it, the
  search wraps around to the smallest live id. With no live instance it fails.
- **Leader election, bully instance** (`BullyInstance`): a class with `localId`,
  `leaderId` and a trace of the calls it makes on its message manager. The
  manager's answers to heartbeat and election messages during a handler call
  are given to that handler as functions of the call's arguments.
- **Active-record SQL text** (`Query`): builders for SELECT, INSERT and DELETE
  that append names to lists and render statement text. Two quirks are kept:
  where-keys are concatenated with no separator, and a SELECT can never get
  columns, so it always reads `*`.
- **Pessimistic lock** (`Customer.lock`/`unlock`/`isLocked`): the holder is an
  optional user name, with accept, no-op and throw cases.
- **Input components** (`PlayerInputComponent`, `DemoInputComponent`):
  in-place velocity changes. Velocity is a Java `int`, so `+=` and `-=` wrap
  around at the 32-bit bounds.
- **Weather greeting** (`PersonalizedGreetingService`): a phrase per weather
  condition, followed by the generic greeting.

Shared Java semantics live in module `JavaLang`. It holds nullable references
as `Option`, the `int` range and its wrap-around, `String.valueOf(int)` and
`Integer.valueOf(String)`. It also proves that parsing a printed `int` gives
the same `int` back.

Behaviours of the code that a reader of its comments might not expect, all
kept in the model:

- `findNextInstance` returns `currentId` itself when that is the only live id:
  the wrap-around search over all live ids finds it
  (AbstractMessageManager.java:48-55). `LeaderElection.FindNextReturnsSelfOnlyWhenSole`
  states exactly when this happens.
- With no live instance, `findNextInstance` calls `get(0)` on an empty list,
  which throws (AbstractMessageManager.java:49-54). The model returns `None`.
- The class comment of `BullyInstance` (BullyInstance.java:34-37) says an
  instance whose election message is answered `true` has met a live higher
  instance and steps back, and that it announces itself only otherwise. The
  handlers do the opposite: they send the leader message when the answer is
  `true` (BullyInstance.java:60-63, 71-74).
- The winner of an election never sets its own `leaderId`: both election
  handlers only send `sendLeaderMessage(localId, localId)`
  (BullyInstance.java:60-63, 71-74). `HandleHeartbeatInvokeMessage` and
  `HandleElectionInvokeMessage` ensure `leaderId` is unchanged.
- An incoming Election message does nothing (BullyInstance.java:49).
- A Leader message sets `leaderId` by parsing its content
  (BullyInstance.java:79). Content that does not parse throws
  NumberFormatException and leaves `leaderId` unchanged.

## Model

| member | source | states |
|---|---|---|
| `LeaderElection.FindNextInstance` | leader-election/src/main/java/com/iluwatar/leaderelection/AbstractMessageManager.java:41-61 | the result is always a live id of the map; it fails exactly when no instance is alive |
| `LeaderElection.Sorted` | leader-election/src/main/java/com/iluwatar/leaderelection/AbstractMessageManager.java:43-47 | sorting a set of ids lists each id exactly once, strictly ascending |
| `LeaderElection.FindNextAbove` | leader-election/src/main/java/com/iluwatar/leaderelection/AbstractMessageManager.java:43-58 | if some live id exceeds `currentId`, the result is the smallest such live id |
| `LeaderElection.FindNextWrapsAround` | leader-election/src/main/java/com/iluwatar/leaderelection/AbstractMessageManager.java:48-55 | if no live id exceeds `currentId`, the result is the smallest live id of the whole map |
| `LeaderElection.FindNextIsNextInRing` | leader-election/src/main/java/com/iluwatar/leaderelection/AbstractMessageManager.java:41-61 | the result is `id` if and only if `id` is the next live id in ascending ring order, an independent definition |
| `LeaderElection.FindNextReturnsSelfOnlyWhenSole` | leader-election/src/main/java/com/iluwatar/leaderelection/AbstractMessageManager.java:43-55 | the result is `currentId` if and only if `currentId` is the only live id |
| `BullyElection.BullyInstance.constructor` | leader-election/src/main/java/com/iluwatar/leaderelection/bully/BullyInstance.java:44-46 | a new instance has the given local id and leader id and has made no calls |
| `BullyElection.BullyInstance.HandleElectionMessage` | leader-election/src/main/java/com/iluwatar/leaderelection/bully/BullyInstance.java:49 | an Election message changes nothing and makes no calls |
| `BullyElection.BullyInstance.HandleHeartbeatInvokeMessage` | leader-election/src/main/java/com/iluwatar/leaderelection/bully/BullyInstance.java:52-65 | the calls made are the heartbeat to the leader, then a re-arm or an election; both ids are unchanged |
| `BullyElection.BullyInstance.HandleElectionInvokeMessage` | leader-election/src/main/java/com/iluwatar/leaderelection/bully/BullyInstance.java:68-75 | the calls made are one election, then a leader message if the manager answers true; both ids are unchanged |
| `BullyElection.BullyInstance.HandleLeaderMessage` | leader-election/src/main/java/com/iluwatar/leaderelection/bully/BullyInstance.java:78-81 | `leaderId` becomes the parsed content, or stays the same and NumberFormatException is reported; `localId` and the call trace are unchanged |
| `BullyElection.BullyInstance.HandleLeaderInvokeMessage` | leader-election/src/main/java/com/iluwatar/leaderelection/bully/BullyInstance.java:84-86 | a LeaderInvoke message changes nothing and makes no calls |
| `BullyElection.BullyInstance.HandleHeartbeatMessage` | leader-election/src/main/java/com/iluwatar/leaderelection/bully/BullyInstance.java:89-91 | a Heartbeat message changes nothing and makes no calls |
| `BullyElection.HeartbeatAnsweredOnlyRearms` | leader-election/src/main/java/com/iluwatar/leaderelection/bully/BullyInstance.java:53-56 | when the leader answers, the only call after the heartbeat is the re-arm on `localId`, with no election |
| `BullyElection.HeartbeatUnansweredStartsElection` | leader-election/src/main/java/com/iluwatar/leaderelection/bully/BullyInstance.java:57-59 | when the leader does not answer, the next call is an election to `localId` whose content parses back to `localId` |
| `BullyElection.ElectionSendsOneBidThenLeaderIffWon` | leader-election/src/main/java/com/iluwatar/leaderelection/bully/BullyInstance.java:68-75 | an election makes exactly one election call, first; a leader message naming `localId` follows if and only if the manager answers true |
| `BullyElection.LeaderMessageSetsAnnouncedId` | leader-election/src/main/java/com/iluwatar/leaderelection/bully/BullyInstance.java:79 | a Leader message carrying `String.valueOf(id)` sets `leaderId` to `id` |
| `BullyElection.LeaderMessageIdempotent` | leader-election/src/main/java/com/iluwatar/leaderelection/bully/BullyInstance.java:78-81 | delivering the same Leader message twice gives the same `leaderId` as once |
| `JavaLang.ParseInt` | leader-election/src/main/java/com/iluwatar/leaderelection/bully/BullyInstance.java:79 | `Integer.valueOf` yields only values in the `int` range, and only for non-empty text |
| `JavaLang.ParseIntOfIntToString` | leader-election/src/main/java/com/iluwatar/leaderelection/bully/BullyInstance.java:59 | parsing the text `String.valueOf` prints for an `int` gives back that `int` |
| `JavaLang.IntToStringInjective` | leader-election/src/main/java/com/iluwatar/leaderelection/bully/BullyInstance.java:70 | distinct ids give distinct election contents |
| `JavaLang.NatToString` | leader-election/src/main/java/com/iluwatar/leaderelection/bully/BullyInstance.java:59 | the printed magnitude is a non-empty run of decimal digits with no leading zero |
| `ActiveRecordQuery.ConstructWhereFromKeys` | active-record/src/main/java/com/iluwatar/activerecord/base/Query.java:135-143 | the loop builds " WHERE " followed by `key = ?` for every key in order |
| `ActiveRecordQuery.ConstructWhere` | active-record/src/main/java/com/iluwatar/activerecord/base/Query.java:127-133 | the WHERE text is empty if and only if there are no keys |
| `ActiveRecordQuery.SelectionQuery.constructor` | active-record/src/main/java/com/iluwatar/activerecord/base/Query.java:53-55 | a new SELECT builder has the table, no columns and no keys |
| `ActiveRecordQuery.SelectionQuery.ToString` | active-record/src/main/java/com/iluwatar/activerecord/base/Query.java:58-64 | since a SELECT builder never has columns, the text is "SELECT * FROM " + table + its WHERE clause; it changes nothing |
| `ActiveRecordQuery.SelectionQuery.WithKey` | active-record/src/main/java/com/iluwatar/activerecord/base/Query.java:66-69 | appends exactly the key at the end and returns the same builder |
| `ActiveRecordQuery.InsertionQuery.constructor` | active-record/src/main/java/com/iluwatar/activerecord/base/Query.java:78-80 | a new INSERT builder has the table and no columns |
| `ActiveRecordQuery.InsertionQuery.ToString` | active-record/src/main/java/com/iluwatar/activerecord/base/Query.java:83-98 | the loop renders the columns joined by commas and one `?` per column; it changes nothing |
| `ActiveRecordQuery.InsertionQuery.Column` | active-record/src/main/java/com/iluwatar/activerecord/base/Query.java:100-103 | appends exactly the column at the end and returns the same builder |
| `ActiveRecordQuery.DeletionQuery.constructor` | active-record/src/main/java/com/iluwatar/activerecord/base/Query.java:110-112 | a new DELETE builder has the table and no keys |
| `ActiveRecordQuery.DeletionQuery.WithKey` | active-record/src/main/java/com/iluwatar/activerecord/base/Query.java:114-117 | appends exactly the key at the end and returns the same builder |
| `ActiveRecordQuery.DeletionQuery.ToString` | active-record/src/main/java/com/iluwatar/activerecord/base/Query.java:120-124 | the text is "DELETE FROM " + table + the WHERE clause of its keys; it changes nothing |
| `ActiveRecordQuery.SelectFrom` | active-record/src/main/java/com/iluwatar/activerecord/base/Query.java:36-38 | returns a fresh SELECT builder on the table |
| `ActiveRecordQuery.InsertInto` | active-record/src/main/java/com/iluwatar/activerecord/base/Query.java:40-42 | returns a fresh INSERT builder on the table |
| `ActiveRecordQuery.DeleteFrom` | active-record/src/main/java/com/iluwatar/activerecord/base/Query.java:44-46 | returns a fresh DELETE builder on the table |
| `ActiveRecordQuery.SelectWithoutKeys` | active-record/src/main/java/com/iluwatar/activerecord/base/Query.java:59-63 | a SELECT with no keys is exactly "SELECT * FROM " + table |
| `ActiveRecordQuery.KeyConditionsInOrder` | active-record/src/main/java/com/iluwatar/activerecord/base/Query.java:137-141 | the first key's `key = ?` comes first, directly followed by the rest's, with no separator |
| `ActiveRecordQuery.WhereClauseShape` | active-record/src/main/java/com/iluwatar/activerecord/base/Query.java:127-142 | there is a WHERE clause if and only if there are keys, and it starts with " WHERE " |
| `ActiveRecordQuery.WhereClauseAmbiguous` | active-record/src/main/java/com/iluwatar/activerecord/base/Query.java:137-141 | without a separator, keys `a`, `b` render like the single key `a = ?b` |
| `ActiveRecordQuery.PlaceholderCount` | active-record/src/main/java/com/iluwatar/activerecord/base/Query.java:90-95 | n columns give exactly n `?` and n - 1 commas, 2n - 1 characters in all |
| `ActiveRecordQuery.InsertWithoutColumns` | active-record/src/main/java/com/iluwatar/activerecord/base/Query.java:84-97 | an INSERT with no columns is "INSERT INTO t () VALUES ()" |
| `ActiveRecordQuery.SelectAndDeleteShareWhere` | active-record/src/main/java/com/iluwatar/activerecord/base/Query.java:120-124 | SELECT and DELETE on the same keys end in the same WHERE clause |
| `PessimisticConcurrency.Customer.constructor` | pessimistic-concurrency/src/main/java/com/iluwatar/pessimistic/concurrency/Customer.java:30-32 | a new customer is unlocked |
| `PessimisticConcurrency.LockedAfterOutcome` | pessimistic-concurrency/src/main/java/com/iluwatar/pessimistic/concurrency/Customer.java:35-59 | after a successful lock the customer is locked, after a successful unlock it is unlocked; a refused unlock happens only while locked, and no refusal changes whether it is locked |
| `PessimisticConcurrency.Customer.Lock` | pessimistic-concurrency/src/main/java/com/iluwatar/pessimistic/concurrency/Customer.java:40-50 | the new holder and the outcome are those of the lock transition from the old holder; on success `isLocked` holds, on refusal it is as before |
| `PessimisticConcurrency.Customer.Unlock` | pessimistic-concurrency/src/main/java/com/iluwatar/pessimistic/concurrency/Customer.java:52-59 | the new holder and the outcome are those of the unlock transition from the old holder; on success `isLocked` is false, on refusal it is true |
| `PessimisticConcurrency.LockSucceedsIffFreeOrHeld` | pessimistic-concurrency/src/main/java/com/iluwatar/pessimistic/concurrency/Customer.java:41-48 | lock succeeds if and only if a user is given and the lock is free or already theirs; it then belongs to that user |
| `PessimisticConcurrency.LockRefusalKeepsHolder` | pessimistic-concurrency/src/main/java/com/iluwatar/pessimistic/concurrency/Customer.java:41-48 | a refused lock keeps the holder and throws "No User Provided." for no user, "Resource already locked." otherwise |
| `PessimisticConcurrency.LockReentrant` | pessimistic-concurrency/src/main/java/com/iluwatar/pessimistic/concurrency/Customer.java:43-48 | locking again as the holder succeeds and changes nothing |
| `PessimisticConcurrency.LockExcludesOthers` | pessimistic-concurrency/src/main/java/com/iluwatar/pessimistic/concurrency/Customer.java:46-48 | a held lock refuses every other user and keeps its holder |
| `PessimisticConcurrency.LockThenUnlockRestores` | pessimistic-concurrency/src/main/java/com/iluwatar/pessimistic/concurrency/Customer.java:43-55 | lock then unlock by the same user returns a free customer to free |
| `PessimisticConcurrency.UnlockSucceedsIffFreeOrHolder` | pessimistic-concurrency/src/main/java/com/iluwatar/pessimistic/concurrency/Customer.java:52-59 | unlock succeeds if and only if the lock is free or held by the caller; only the holder frees it, otherwise nothing changes |
| `InputComponents.PlayerInputComponent.UpdateOnKey` | component/src/main/java/com/iluwatar/component/component/inputcomponent/PlayerInputComponent.java:21-35 | the velocity becomes the player velocity for the key; the name is unchanged |
| `InputComponents.PlayerInputComponent.Update` | component/src/main/java/com/iluwatar/component/component/inputcomponent/PlayerInputComponent.java:43-44 | without a key the game object is unchanged |
| `InputComponents.PlayerLeftStepsDownByOne` | component/src/main/java/com/iluwatar/component/component/inputcomponent/PlayerInputComponent.java:23-26 | unless the velocity is the least `int`, left lowers it by exactly 1 |
| `InputComponents.PlayerRightStepsUpByOne` | component/src/main/java/com/iluwatar/component/component/inputcomponent/PlayerInputComponent.java:27-30 | unless the velocity is the greatest `int`, right raises it by exactly 1 |
| `InputComponents.PlayerOtherKeysIgnored` | component/src/main/java/com/iluwatar/component/component/inputcomponent/PlayerInputComponent.java:31-33 | any other key leaves the velocity unchanged |
| `InputComponents.LeftThenRightRestores` | component/src/main/java/com/iluwatar/component/component/inputcomponent/PlayerInputComponent.java:23-29 | left followed by right restores the original velocity, even across wrap-around |
| `JavaLang.WrapAdd` | component/src/main/java/com/iluwatar/component/component/inputcomponent/PlayerInputComponent.java:24-28 | wrapping an intermediate `int` sum does not change the wrapped final sum |
| `InputComponents.DemoInputComponent.UpdateOnKey` | component/src/main/java/com/iluwatar/component/component/inputcomponent/DemoInputComponent.java:20-21 | key input leaves the game object unchanged, for every key code |
| `InputComponents.DemoInputComponent.Update` | component/src/main/java/com/iluwatar/component/component/inputcomponent/DemoInputComponent.java:29-32 | the velocity grows by 2 as Java `int` arithmetic; the name is unchanged |
| `InputComponents.DemoFramesAccelerate` | component/src/main/java/com/iluwatar/component/component/inputcomponent/DemoInputComponent.java:29-30 | n demo updates raise the velocity by 2n, as Java `int` arithmetic |
| `SoaGreeting.WeatherGreeting` | service-oriented-architecture/src/main/java/com/iluwatar/soa/services/PersonalizedGreetingService.java:21-36 | the error phrase "unexpected weather condition" is given exactly for conditions other than the four known ones |
| `SoaGreeting.GenerateGreeting` | service-oriented-architecture/src/main/java/com/iluwatar/soa/services/PersonalizedGreetingService.java:16-19 | the greeting starts with the weather phrase and ends with "." |
| `SoaGreeting.GreetingParts` | service-oriented-architecture/src/main/java/com/iluwatar/soa/services/PersonalizedGreetingService.java:18 | "! " follows the weather phrase, and the generic greeting fills the rest up to the final "." |
| `SoaGreeting.UnlistedConditionsShareAPhrase` | service-oriented-architecture/src/main/java/com/iluwatar/soa/services/PersonalizedGreetingService.java:32-34 | all unknown conditions give the same greeting |
| `SoaGreeting.KnownConditionsDistinguishable` | service-oriented-architecture/src/main/java/com/iluwatar/soa/services/PersonalizedGreetingService.java:23-31 | distinct known conditions give distinct greetings for the same generic greeting |

## Left out

- The message manager's delivery, the `MessageManager` interface and its bully implementation are not part of this model. `AbstractInstance` (alive flag, message queue, dispatch thread) and `Message` are not part of it either. The manager is modelled only by the answers it gives during one handler call, passed to that handler as a parameter: each answer is a function of the call's arguments, and answers may differ from one handler call to the next.
- `BullyInstance.HandleHeartbeatInvokeMessage` records its heartbeat and election calls after it has their answers. The order of the recorded calls is the order of the source.
- All `System.out.println` logging is left out. It is output only.
- `JavaLang.ParseInt` accepts ASCII digits only. Java's `Integer.valueOf` also accepts other Unicode decimal digits. A `null` message content is not modelled, since contents are plain strings.
- `Customer`: `lock` synchronizes on the customer only after its null check (Customer.java:41-42), and `unlock` is not synchronized at all (Customer.java:52-59). The model treats each of `Lock` and `Unlock` as one atomic step, so races between them, and between `unlock` and the check-then-set of `lock`, are not captured. The JPA annotations, the id and name accessors, and `setLockingUser` (which bypasses the lock protocol) are left out.
- `Query`: a `null` table, column or key name is not modelled. Java would render it as the text "null".
- `GameObject` is not part of this model beyond the two fields the input components use, `name` and `velocity`.
- `PersonalizedGreetingService`: the injected weather and generic-greeting services become parameters. The `WeatherCondition` enum is not part of this model. `Unlisted` stands for any constant beyond the four named ones. A `null` condition, which would throw in the switch, is not modelled.
- The other files of the repository are outside this model: `MagicWand` (JDBC and `double` arithmetic), `Borrower` (JMS messaging), the active-object `App` (threads), `UserController` (web), `OrderService` (repository wrapper), `ClientApp` (sockets), `WithdrawMoneyService` (its superclass is not part of this model), plain data holders and tests.
