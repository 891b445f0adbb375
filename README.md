# RxFoolery: the hand-rolled observer pattern, in Dafny

RxFoolery is a set of exploratory unit tests against Rx.NET. The one piece of
logic the repository writes itself is a small observer pattern in
`RxFoolery/00_Basics.cs`. This project models that code and proves its
behaviour:

- `TestObservable` keeps a list of subscribed observers.
  - `Subscribe` appends an observer to the list.
  - `StopObserving` removes the first occurrence of an observer, if present.
  - `DoSomething` and `DoSomethingElse` walk the list in order. Each sends
    every entry a fixed burst of two notifications: `123` then an error, or
    `(long)-7.5` then a completion.
- `TestObserver` appends one `long` to its `ActionLog` per notification:
  - the value for `OnNext`;
  - `long.MaxValue` for `OnError`;
  - `long.MinValue` for `OnCompleted`.
- `TestSubscription` is the disposable handle that `Subscribe` returns.
  `Dispose` calls `StopObserving` when both of its references are set.
- The `ObservableTest` unit test drives all of this and checks three logs.

Files:

- `notifications.dfy` (module `Notifications`) holds the value side:
  - the 64-bit integer type;
  - the `Notification` datatype;
  - the one-entry encoding a `TestObserver` logs, and its decoding;
  - the observer protocol "nothing after a terminal notification";
  - C#'s truncating conversion of `-7.5` to `long`.
- `subscriber_list.dfy` (module `SubscriberList`) holds pure functions on
  sequences:
  - `RemoveFirst` is `List<T>.Remove`, and `FirstIndex` is the index
    `List<T>.IndexOf` finds;
  - `Repeat` repeats a burst;
  - `Fanout` lists the calls a broadcast makes, and `Project` is what one
    receiver sees of them.
- `basics.dfy` (module `Basics`) holds the three classes and the test
  scenario.
  - `TestObservable.observers` is a `seq` field that `Subscribe` and
    `StopObserving` reassign.
  - `TestObserver.actionLog` is a `seq` field that each callback extends.
  - The two broadcasts are `while` loops with invariants.
  - A ghost field `sent` records every call the observable has made, in
    order. Per-observer logs alone cannot show the order of delivery
    across observers.

The list may hold the same observer more than once, exactly as a
`List<IObserver<long>>` can. The contracts of the operations and the lemmas
about them are stated for that general case (only the unit-test scenario fixes
a concrete list):

- a broadcast gives an observer the burst once per occurrence;
- `StopObserving` removes one occurrence.

Observers are compared by reference, as C#'s default equality for
`TestObserver` does.

## Model

| member | source | states |
|---|---|---|
| `Notifications.Decode` | RxFoolery/00_Basics.cs:60-73 | every logged entry reads back as a notification that logs to that same entry; it reads as a terminal notification exactly when it is `long.MaxValue` or `long.MinValue` |
| `Notifications.DecodeEncode` | RxFoolery/00_Basics.cs:60-73 | reading a logged notification back gives the notification exactly when it is not a `Next` carrying one of the two sentinels |
| `Notifications.EncodeCollisions` | RxFoolery/00_Basics.cs:60-73 | two notifications get the same log entry if and only if they are equal, or are `Next(long.MaxValue)` and an error, or are `Next(long.MinValue)` and a completion |
| `Notifications.Decoded` | RxFoolery/00_Basics.cs:58-73 | logging the decoded form of any ActionLog gives back that ActionLog |
| `Notifications.DecodedLogged` | RxFoolery/00_Basics.cs:58-73 | a sequence of notifications with no sentinel-valued `Next` is recovered exactly from its log |
| `Notifications.TruncateTowardZero` | RxFoolery/00_Basics.cs:29 | the `(long)` conversion of a real drops the fraction toward zero: the result is within 1 of the input, on the zero side of it |
| `Basics.ElseValueIsMinusSeven` | RxFoolery/00_Basics.cs:29 | `(long) -7.5` is `-7`, not `-8` |
| `Basics.BurstsLogged` | RxFoolery/00_Basics.cs:16-32 | DoSomething's burst logs as `[123, long.MaxValue]`; DoSomethingElse's as `[-7, long.MinValue]`; so does each burst delivered once |
| `SubscriberList.FirstIndex` | RxFoolery/00_Basics.cs:44-46 | for an observer in the list, the index found holds that observer, and no earlier index does |
| `SubscriberList.RemoveFirst` | RxFoolery/00_Basics.cs:42-48 | removing an observer that is not in the list leaves the list unchanged; removing one that is in it shortens the list by exactly one |
| `SubscriberList.RemoveFirstCount` | RxFoolery/00_Basics.cs:42-48 | removal takes away exactly one occurrence of the observer when it has one, and no other entry |
| `SubscriberList.RemoveFirstAt` | RxFoolery/00_Basics.cs:46 | removal cuts the list at the observer's first occurrence and nowhere else, keeping the order of the rest |
| `SubscriberList.RemoveFirstAtFirstIndex` | RxFoolery/00_Basics.cs:44-46 | in particular, removal cuts the list at the index `FirstIndex` finds |
| `SubscriberList.RemoveFirstTwice` | RxFoolery/00_Basics.cs:88-95 | a second StopObserving of the same observer changes nothing if and only if the observer occurred at most once |
| `SubscriberList.AppendThenRemovePermutes` | RxFoolery/00_Basics.cs:34-48 | subscribing and then stopping the same observer always leaves a permutation of the old list |
| `SubscriberList.AppendThenRemove` | RxFoolery/00_Basics.cs:34-48 | subscribing and then stopping an observer that was not subscribed gives back exactly the old list |
| `SubscriberList.AppendThenRemoveDuplicate` | RxFoolery/00_Basics.cs:34-48 | for any list that already holds the observer, subscribing it again and then stopping it removes the earlier entry: the result is the old list with its first occurrence removed, and the new copy at the end |
| `SubscriberList.AppendThenRemoveReorders` | RxFoolery/00_Basics.cs:34-48 | one instance of that: `[x, y]` becomes `[y, x]` |
| `SubscriberList.ProjectFanout` | RxFoolery/00_Basics.cs:16-32 | seen by one observer, a broadcast over the list delivers the burst exactly once per occurrence of that observer in the list |
| `Basics.TestObserver.constructor` | RxFoolery/00_Basics.cs:53-56 | a new observer's log is empty |
| `Basics.TestObserver.OnNext` | RxFoolery/00_Basics.cs:60-63 | appends the log entry of `Next(value)`, the value itself, and keeps every earlier entry in place |
| `Basics.TestObserver.OnError` | RxFoolery/00_Basics.cs:65-68 | appends the log entry of an error, `long.MaxValue`, and keeps every earlier entry in place |
| `Basics.TestObserver.OnCompleted` | RxFoolery/00_Basics.cs:70-73 | appends the log entry of a completion, `long.MinValue`, and keeps every earlier entry in place |
| `Basics.TestObservable.constructor` | RxFoolery/00_Basics.cs:14 | a new observable has no subscribers and has made no calls |
| `Basics.TestObservable.DoSomething` | RxFoolery/00_Basics.cs:16-23 | leaves the subscriber list unchanged; makes the calls `[Next(123), Error]` to each entry in list order; each subscribed observer's log grows by `[123, long.MaxValue]` once per occurrence; nothing outside the subscribed observers changes |
| `Basics.TestObservable.DoSomethingElse` | RxFoolery/00_Basics.cs:25-32 | leaves the subscriber list unchanged; makes the calls `[Next(-7), Completed]` to each entry in list order; each subscribed observer's log grows by `[-7, long.MinValue]` once per occurrence; nothing outside the subscribed observers changes |
| `Basics.TestObservable.Subscribe` | RxFoolery/00_Basics.cs:34-40 | appends the observer to the end of the list and changes nothing else; returns a fresh subscription bound to this observable and this observer |
| `Basics.TestObservable.StopObserving` | RxFoolery/00_Basics.cs:42-48 | the new list is the old one with the observer's first occurrence removed, if it had one |
| `Basics.TestSubscription.constructor` | RxFoolery/00_Basics.cs:81-86 | the handle keeps the two references it is given, null or not |
| `Basics.TestSubscription.Dispose` | RxFoolery/00_Basics.cs:88-95 | with both references set, removes the observer's first occurrence from the observable's list; with no observer, leaves the observable untouched; in either case the record of calls the observable has made is kept as it was |
| `Basics.NotifiesAfterTerminal` | RxFoolery/00_Basics.cs:16-32 | an observer that occurs one or more times in the list through DoSomething and then DoSomethingElse, whatever its log held before, always gets notifications after its error, so its log breaks the observer protocol |
| `Basics.UsingDoSomething` | RxFoolery/00_Basics.cs:112-115 | the first inner `using` block: both observers log `[123, long.MaxValue]`, and afterwards only the outer observer is still subscribed |
| `Basics.UsingDoSomethingElse` | RxFoolery/00_Basics.cs:117-120 | the second inner `using` block: both observers log `[-7, long.MinValue]`, and afterwards only the outer observer is still subscribed |
| `Basics.ObservableTest` | RxFoolery/00_Basics.cs:103-136 | the unit test's outcome: observer1 logs `[123, long.MaxValue, -7, long.MinValue]`, observer2 logs `[123, long.MaxValue]`, observer3 logs `[-7, long.MinValue]`, and no subscriber is left; observer1's log has notifications after its error |

## Left out

- `IObserver<long>` as an interface: the model has only the one observer class the
  file defines, `TestObserver`. An interface would need a trait. The
  observable's list is therefore a list of `TestObserver`.
- The `Exception` passed to `OnError` is not modelled. `TestObserver` discards
  it, so an error is a payload-free `Notification`.
- Null observers. `Subscribe` and `StopObserving` take a non-null observer.
  In C#, `Subscribe(null)` would add null to the list, and the next broadcast
  would throw `NullReferenceException`. `TestSubscription` keeps nullable
  references, and `Dispose` checks them, as the source does.
- Re-entrancy. `List<T>.ForEach` throws if a callback changes the list while
  it is being walked. `TestObserver` never calls back into the observable,
  so this case cannot arise in the model.
- Floating point. The only floating-point value is the literal `-7.5`. It is
  modelled as an exact real, converted with C#'s truncation toward zero.
  Conversions of values outside the range of `long` are not modelled.
- The observer protocol. The general Rx contract says that nothing follows a
  terminal notification. This code does not enforce that, and the model
  follows the code: `Basics.NotifiesAfterTerminal` and
  `Basics.ObservableTest` prove that an observer still subscribed after its
  error keeps receiving notifications.
- `Basics.IsItMultithreadedByDesign` and `Basics.ObserveOn`
  (RxFoolery/00_Basics.cs:138-180) are left out. They observe thread
  identities under Rx.NET's `TestScheduler` and `Scheduler.NewThread`:
  concurrency and library code outside this repository.
- Every other file of the repository is not part of this model:
  - they only call Rx.NET operators, subjects and its virtual-time
    scheduler, whose implementation is not in the repository;
  - `ObservableExtentions.Dump` only writes to the console.
