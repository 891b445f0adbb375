/** The values that travel from TestObservable to TestObserver: 64-bit
    integers (C#'s `long`), the three notification channels of
    IObserver<long>, and the one-entry-per-notification encoding that
    TestObserver writes into its ActionLog. */
module Notifications {

  /** C#'s `long`. */
  newtype int64 = x: int | -0x8000_0000_0000_0000 <= x < 0x8000_0000_0000_0000

  /** `long.MaxValue`, logged for an error. */
  const LongMaxValue: int64 := 0x7FFF_FFFF_FFFF_FFFF
  /** `long.MinValue`, logged for a completion. */
  const LongMinValue: int64 := -0x8000_0000_0000_0000

  /** One call on an observer. The Exception an error carries is not kept:
      the only observer in the model discards it. */
  datatype Notification = Next(value: int64) | Error | Completed
  {
    predicate IsTerminal() { Error? || Completed? }
  }

  /** The ActionLog entry TestObserver records for one notification. */
  function Encode(n: Notification): int64
  {
    match n
    case Next(v) => v
    case Error => LongMaxValue
    case Completed => LongMinValue
  }

  /** Reads an ActionLog entry back as the notification it most plausibly
      stands for: the two sentinels as the terminal notifications, every
      other value as a Next. */
  function Decode(e: int64): (n: Notification)
    ensures Encode(n) == e
    ensures n.IsTerminal() <==> e == LongMaxValue || e == LongMinValue
  {
    if e == LongMaxValue then Error
    else if e == LongMinValue then Completed
    else Next(e)
  }

  /** A Next whose value collides with one of the two sentinels. */
  predicate IsSentinelNext(n: Notification)
  {
    n.Next? && (n.value == LongMaxValue || n.value == LongMinValue)
  }

  /** Decoding an entry undoes encoding, except for a Next that carries a
      sentinel value, which reads back as a terminal notification. */
  lemma DecodeEncode(n: Notification)
    ensures Decode(Encode(n)) == n <==> !IsSentinelNext(n)
  {
  }

  /** Two notifications share a log entry exactly when they are equal or one
      of them is a Next carrying the other's sentinel. */
  lemma EncodeCollisions(a: Notification, b: Notification)
    ensures Encode(a) == Encode(b) <==>
      a == b
      || {a, b} == {Next(LongMaxValue), Error}
      || {a, b} == {Next(LongMinValue), Completed}
  {
    if Encode(a) == Encode(b) && a != b {
      if a.Next? && b.Next? {
        assert false;
      } else if a == Error || b == Error {
        assert {a, b} == {Next(LongMaxValue), Error};
      } else if a == Completed || b == Completed {
        assert {a, b} == {Next(LongMinValue), Completed};
      }
    }
  }

  /** The log a sequence of notifications produces, entry by entry. */
  function Logged(ns: seq<Notification>): (log: seq<int64>)
    ensures |log| == |ns|
  {
    seq(|ns|, i requires 0 <= i < |ns| => Encode(ns[i]))
  }

  /** A log read back entry by entry. */
  function Decoded(log: seq<int64>): (ns: seq<Notification>)
    ensures Logged(ns) == log
  {
    seq(|log|, i requires 0 <= i < |log| => Decode(log[i]))
  }

  /** Logging after decoding is the identity on every log; decoding after
      logging is the identity as long as no Next carries a sentinel. */
  lemma {:induction false} DecodedLogged(ns: seq<Notification>)
    requires forall i :: 0 <= i < |ns| ==> !IsSentinelNext(ns[i])
    ensures Decoded(Logged(ns)) == ns
  {
    forall i | 0 <= i < |ns|
      ensures Decoded(Logged(ns))[i] == ns[i]
    {
      DecodeEncode(ns[i]);
    }
  }

  /** The observer protocol: at most one terminal notification, and nothing
      after it. */
  predicate Serialized(ns: seq<Notification>)
  {
    forall i :: 0 <= i < |ns| - 1 ==> !ns[i].IsTerminal()
  }

  /** C#'s explicit conversion `(long) x` of a floating-point value inside
      the range of `long`: the fractional part is dropped, rounding toward
      zero (not toward minus infinity, as Dafny's `.Floor` does). */
  function TruncateTowardZero(x: real): (r: int)
    ensures x >= 0.0 ==> r as real <= x < r as real + 1.0
    ensures x < 0.0 ==> r as real - 1.0 < x <= r as real
  {
    if x >= 0.0 then x.Floor else -((-x).Floor)
  }
}
