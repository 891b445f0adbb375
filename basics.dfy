/** The hand-rolled observer pattern: an observable that keeps a list of
    subscribed observers and broadcasts fixed bursts of notifications to
    them, an observer that logs every notification as one 64-bit entry, and
    the disposable subscription handle that unsubscribes. */
module Basics {
  import opened Notifications
  import opened SubscriberList

  /** What DoSomething sends to every subscriber: a value, then an error. */
  const SomethingBurst: seq<Notification> := [Next(123), Error]

  /** The value DoSomethingElse sends: the floating-point literal -7.5
      converted to `long`. */
  const ElseValue: int64 := TruncateTowardZero(-7.5) as int64

  /** The conversion drops the fraction toward zero: -7, not -8. */
  lemma ElseValueIsMinusSeven()
    ensures ElseValue == -7
  {
  }

  /** What DoSomethingElse sends to every subscriber: a value, then a
      completion. */
  const ElseBurst: seq<Notification> := [Next(ElseValue), Completed]

  /** An observer that records every call it receives, in order. */
  class TestObserver {
    var actionLog: seq<int64>

    constructor ()
      ensures actionLog == []
    {
      actionLog := [];
    }

    method OnNext(value: int64)
      modifies this
      ensures actionLog == old(actionLog) + [Encode(Next(value))]
    {
      actionLog := actionLog + [value];
    }

    /** The error's payload is ignored; only a sentinel is logged. */
    method OnError()
      modifies this
      ensures actionLog == old(actionLog) + [Encode(Error)]
    {
      actionLog := actionLog + [LongMaxValue];
    }

    method OnCompleted()
      modifies this
      ensures actionLog == old(actionLog) + [Encode(Completed)]
    {
      actionLog := actionLog + [LongMinValue];
    }
  }

  /** An observable whose subscribers are a plain list: subscribing the same
      observer twice puts it in the list twice. */
  class TestObservable {
    var observers: seq<TestObserver>
    /** Every call this observable has made on an observer, in the order it
        made them. */
    ghost var sent: seq<(TestObserver, Notification)>

    constructor ()
      ensures observers == [] && sent == []
    {
      observers := [];
      sent := [];
    }

    /** Sends each subscriber, in list order, the value 123 and then an
        error. */
    method DoSomething()
      modifies this`sent, set o: TestObserver | o in observers
      ensures observers == old(observers)
      ensures sent == old(sent) + Fanout(observers, SomethingBurst)
      ensures forall o :: o in observers ==>
        o.actionLog == old(o.actionLog) + Repeat(Logged(SomethingBurst), multiset(observers)[o])
    {
      var list := observers;
      ghost var entries := Logged(SomethingBurst);
      LoggedPair(Next(123), Error);
      var i := 0;
      while i < |list|
        invariant 0 <= i <= |list| && observers == list
        invariant sent == old(sent) + Fanout(list[..i], SomethingBurst)
        invariant forall o :: o in list ==>
          o.actionLog == old(o.actionLog) + Repeat(entries, multiset(list[..i])[o])
      {
        var p := list[i];
        label before:
        p.OnNext(123);
        p.OnError();
        assert p.actionLog == old@before(p.actionLog) + entries;
        sent := sent + Burst(p, SomethingBurst);
        FanoutStep(list, i, SomethingBurst);
        forall o | o in list
          ensures o.actionLog == old(o.actionLog) + Repeat(entries, multiset(list[..i + 1])[o])
        {
          LogStep(list, i, o, entries, old(o.actionLog), old@before(o.actionLog), o.actionLog);
        }
        i := i + 1;
      }
      assert list[..i] == list;
    }

    /** Sends each subscriber, in list order, the value ElseValue and then
        a completion. */
    method DoSomethingElse()
      modifies this`sent, set o: TestObserver | o in observers
      ensures observers == old(observers)
      ensures sent == old(sent) + Fanout(observers, ElseBurst)
      ensures forall o :: o in observers ==>
        o.actionLog == old(o.actionLog) + Repeat(Logged(ElseBurst), multiset(observers)[o])
    {
      var list := observers;
      ghost var entries := Logged(ElseBurst);
      LoggedPair(Next(ElseValue), Completed);
      var i := 0;
      while i < |list|
        invariant 0 <= i <= |list| && observers == list
        invariant sent == old(sent) + Fanout(list[..i], ElseBurst)
        invariant forall o :: o in list ==>
          o.actionLog == old(o.actionLog) + Repeat(entries, multiset(list[..i])[o])
      {
        var p := list[i];
        label before:
        p.OnNext(ElseValue);
        p.OnCompleted();
        assert p.actionLog == old@before(p.actionLog) + entries;
        sent := sent + Burst(p, ElseBurst);
        FanoutStep(list, i, ElseBurst);
        forall o | o in list
          ensures o.actionLog == old(o.actionLog) + Repeat(entries, multiset(list[..i + 1])[o])
        {
          LogStep(list, i, o, entries, old(o.actionLog), old@before(o.actionLog), o.actionLog);
        }
        i := i + 1;
      }
      assert list[..i] == list;
    }

    /** Adds the observer at the end of the list and hands back the handle
        that removes it again. */
    method Subscribe(observer: TestObserver) returns (subscription: TestSubscription)
      modifies this`observers
      ensures observers == old(observers) + [observer]
      ensures fresh(subscription)
      ensures subscription.observable == this && subscription.observer == observer
    {
      observers := observers + [observer];
      subscription := new TestSubscription(this, observer);
    }

    /** Removes the first occurrence of the observer, if there is one. */
    method StopObserving(observer: TestObserver)
      modifies this`observers
      ensures observers == RemoveFirst(old(observers), observer)
    {
      if observer in observers {
        observers := RemoveFirst(observers, observer);
      }
    }
  }

  /** The handle Subscribe returns. Either reference may be null when the
      handle is built directly rather than by Subscribe. */
  class TestSubscription {
    const observable: TestObservable?
    const observer: TestObserver?

    constructor (observable: TestObservable?, observer: TestObserver?)
      ensures this.observable == observable && this.observer == observer
    {
      this.observable := observable;
      this.observer := observer;
    }

    /** Unsubscribes the observer from the observable, when both are set. */
    method Dispose()
      modifies observable
      ensures observable != null && observer != null ==>
        observable.observers == RemoveFirst<TestObserver>(old(observable.observers), observer)
      ensures observable != null && observer == null ==> unchanged(observable)
      ensures observable != null ==> observable.sent == old(observable.sent)
    {
      if observable != null && observer != null {
        observable.StopObserving(observer);
      }
    }
  }

  /** The two entries each burst leaves in a subscriber's log. */
  lemma BurstsLogged()
    ensures Logged(SomethingBurst) == [123, LongMaxValue]
    ensures Logged(ElseBurst) == [-7, LongMinValue]
    ensures Repeat(Logged(SomethingBurst), 1) == [123, LongMaxValue]
    ensures Repeat(Logged(ElseBurst), 1) == [-7, LongMinValue]
  {
    ElseValueIsMinusSeven();
  }

  /** A burst of two notifications leaves their two entries, in order. */
  lemma LoggedPair(a: Notification, b: Notification)
    ensures Logged([a, b]) == [Encode(a), Encode(b)]
  {
  }

  /** TestObservable does not stop notifying an observer after a terminal
      notification: an observer that occurs k >= 1 times in the list across
      DoSomething and then DoSomethingElse, whatever its log held before,
      ends up with a log in which the error is followed by more
      notifications. */
  lemma {:induction false} NotifiesAfterTerminal(log: seq<int64>, k: nat)
    requires k >= 1
    ensures !Serialized(Decoded(log + Repeat(Logged(SomethingBurst), k) + Repeat(Logged(ElseBurst), k)))
  {
    BurstsLogged();
    var first := Repeat(Logged(SomethingBurst), k);
    var full := log + first + Repeat(Logged(ElseBurst), k);
    RepeatEndsWith(Logged(SomethingBurst), k);
    assert |Repeat(Logged(ElseBurst), k)| > 0 by { RepeatEndsWith(Logged(ElseBurst), k); }
    assert full[|log| + |first| - 1] == LongMaxValue;
    assert Decoded(full)[|log| + |first| - 1].IsTerminal();
  }

  /** k >= 1 copies of a non-empty burst end with the burst's last entry. */
  lemma {:induction false} RepeatEndsWith(b: seq<int64>, k: nat)
    requires k >= 1 && b != []
    ensures |Repeat(b, k)| >= |b| && Repeat(b, k)[|Repeat(b, k)| - 1] == b[|b| - 1]
  {
  }

  /** Two different observers each occur once in the list [a, b], and
      removing the second leaves the first. */
  lemma TwoDistinct(a: TestObserver, b: TestObserver)
    requires a != b
    ensures multiset([a, b])[a] == 1 && multiset([a, b])[b] == 1
    ensures RemoveFirst([a, b], b) == [a]
  {
    AppendThenRemove([a], b);
  }

  /** One more step of a broadcast loop adds entry i's burst to the calls
      made. */
  lemma {:induction false} FanoutStep(s: seq<TestObserver>, i: nat, burst: seq<Notification>)
    requires i < |s|
    ensures Fanout(s[..i + 1], burst) == Fanout(s[..i], burst) + Burst(s[i], burst)
  {
    assert s[..i + 1][..i] == s[..i];
  }

  /** One more step of a broadcast loop, seen from observer o: its log
      grows by the burst's entries exactly when o is entry i, and then it
      has received the burst once more. */
  lemma {:induction false} LogStep(s: seq<TestObserver>, i: nat, o: TestObserver, entries: seq<int64>,
                base: seq<int64>, before: seq<int64>, after: seq<int64>)
    requires i < |s|
    requires before == base + Repeat(entries, multiset(s[..i])[o])
    requires after == if o == s[i] then before + entries else before
    ensures after == base + Repeat(entries, multiset(s[..i + 1])[o])
  {
    assert s[..i + 1][..i] == s[..i];
    CountLast(s[..i + 1], o);
    var m := multiset(s[..i])[o];
    if o == s[i] {
      assert Repeat(entries, m + 1) == Repeat(entries, m) + entries;
    }
  }

  /** The first inner `using` block of ObservableTest: while `outer` stays
      subscribed alone, subscribe `inner`, call DoSomething, dispose. */
  method UsingDoSomething(observable: TestObservable, outer: TestObserver, inner: TestObserver)
    requires observable.observers == [outer] && outer != inner
    modifies observable, outer, inner
    ensures observable.observers == [outer]
    ensures outer.actionLog == old(outer.actionLog) + [123, LongMaxValue]
    ensures inner.actionLog == old(inner.actionLog) + [123, LongMaxValue]
  {
    var subscription := observable.Subscribe(inner);
    assert observable.observers == [outer, inner];
    TwoDistinct(outer, inner);
    BurstsLogged();
    observable.DoSomething();
    subscription.Dispose();
  }

  /** The second inner `using` block of ObservableTest: the same with
      DoSomethingElse. */
  method UsingDoSomethingElse(observable: TestObservable, outer: TestObserver, inner: TestObserver)
    requires observable.observers == [outer] && outer != inner
    modifies observable, outer, inner
    ensures observable.observers == [outer]
    ensures outer.actionLog == old(outer.actionLog) + [-7, LongMinValue]
    ensures inner.actionLog == old(inner.actionLog) + [-7, LongMinValue]
  {
    var subscription := observable.Subscribe(inner);
    assert observable.observers == [outer, inner];
    TwoDistinct(outer, inner);
    BurstsLogged();
    observable.DoSomethingElse();
    subscription.Dispose();
  }

  /** The scenario of the ObservableTest unit test: observer1 is subscribed
      throughout, observer2 only around DoSomething, observer3 only around
      DoSomethingElse; each subscription is disposed at the end of its
      `using` block. Returns the three logs and the subscriber list left
      behind. observer1, still subscribed after its error, goes on
      receiving notifications. */
  method ObservableTest() returns (log1: seq<int64>, log2: seq<int64>, log3: seq<int64>,
                                   remaining: seq<TestObserver>)
    ensures log1 == [123, LongMaxValue, -7, LongMinValue]
    ensures log2 == [123, LongMaxValue]
    ensures log3 == [-7, LongMinValue]
    ensures remaining == []
    ensures !Serialized(Decoded(log1))
  {
    var observable := new TestObservable();
    var observer1 := new TestObserver();
    var observer2 := new TestObserver();
    var observer3 := new TestObserver();

    var subscription1 := observable.Subscribe(observer1);
    UsingDoSomething(observable, observer1, observer2);
    UsingDoSomethingElse(observable, observer1, observer3);
    subscription1.Dispose();

    log1, log2, log3 := observer1.actionLog, observer2.actionLog, observer3.actionLog;
    remaining := observable.observers;
    assert Decoded(log1)[1] == Error;
  }
}
