/**
 * The mailbox status word and its transitions, as values.
 *
 * One int32 packs three facts: bit 0 is Closed, bit 1 is Scheduled, and the
 * bits from 2 up count nested suspends in units of 4. Each transition of the
 * mailbox is a compare-and-swap retry in Go; run sequentially every CAS
 * succeeds at once, so a transition is one function from the old word to the
 * new word and the boolean the operation returns.
 */
module MailboxStatus {
  import opened Bits

  const Int32Max: int := 0x7FFF_FFFF

  /** The status word: an int32 that the transitions keep non-negative. */
  type Status = s: int | 0 <= s <= Int32Max

  const Open: Status := 0
  const Closed: Status := 1
  const Scheduled: Status := 2
  const SuspendUnit: Status := 4

  /** The bits that `MailboxStatusSuspendMask` (^3) clears: Closed and Scheduled. */
  const ClosedOrScheduled: Status := 3

  // The three facts, read arithmetically.

  predicate ClosedBit(s: Status) { s % 2 == 1 }

  predicate ScheduledBit(s: Status) { s / 2 % 2 == 1 }

  /** The nested suspend count. */
  function Level(s: Status): (r: nat) { s / SuspendUnit }

  /** Bits 0 and 1 together. */
  function LowBits(s: Status): (r: nat) { s % SuspendUnit }

  // The four predicates of the mailbox, by masks as the source writes them.

  /** `s & MailboxStatusShouldNotProcessMask == 0`, the mask being ^Scheduled. */
  predicate ShouldProcessMessage(s: Status) { AndNot(s, Scheduled) == 0 }

  /** `s & MailboxStatusSuspendMask != 0`, the mask being ^3. */
  predicate IsSuspended(s: Status) { AndNot(s, ClosedOrScheduled) != 0 }

  /** An equality test, not a mask. */
  predicate IsClosed(s: Status) { s == Closed }

  predicate IsScheduled(s: Status) { And(s, Scheduled) != 0 }

  /** A word is determined by its three facts. */
  lemma FieldsDetermineStatus(s: Status, t: Status)
    requires ClosedBit(s) == ClosedBit(t) && ScheduledBit(s) == ScheduledBit(t)
    requires Level(s) == Level(t)
    ensures s == t
  {
  }

  /** Only words 0 (Open) and 2 (Open and Scheduled) may process user messages. */
  lemma ShouldProcessMessageIff(s: Status)
    ensures ShouldProcessMessage(s) <==> !ClosedBit(s) && Level(s) == 0
    ensures ShouldProcessMessage(s) <==> s == Open || s == Scheduled
  {
    ClearBitOne(s);
  }

  /** Suspended means a suspend count above zero, whatever bits 0 and 1 hold. */
  lemma IsSuspendedIff(s: Status)
    ensures IsSuspended(s) <==> Level(s) > 0
    ensures IsSuspended(s) <==> s >= SuspendUnit
  {
    ClearLowBits(s);
  }

  lemma IsScheduledIff(s: Status)
    ensures IsScheduled(s) <==> ScheduledBit(s)
  {
    // What `s & 2` keeps is what `s &^ 2` clears.
    AndPlusAndNot(s, Scheduled);
    ClearBitOne(s);
  }

  /** The new word and the boolean an operation returns. */
  datatype Transition = Transition(next: Status, result: bool)

  /**
   * `suspend`: adds one suspend unit unless the word is exactly Closed; the
   * result says whether the mailbox was not suspended before. Go adds 4 with
   * no overflow check, hence the precondition.
   */
  function Suspend(s: Status): (t: Transition)
    requires s == Closed || s + SuspendUnit <= Int32Max
    ensures s == Closed ==> t == Transition(Closed, false)
    ensures s != Closed ==> Level(t.next) == Level(s) + 1 && LowBits(t.next) == LowBits(s)
    ensures s != Closed ==> (t.result <==> Level(s) == 0)
  {
    if s == Closed then Transition(Closed, false)
    else Transition(s + SuspendUnit, s < SuspendUnit)
  }

  /**
   * `resume`: removes one suspend unit, never going below zero, unless the
   * word is exactly Closed; the result says whether the count is now zero.
   */
  function Resume(s: Status): (t: Transition)
    ensures s == Closed ==> t == Transition(Closed, false)
    ensures s != Closed ==> LowBits(t.next) == LowBits(s)
    ensures s != Closed ==> Level(t.next) == if Level(s) > 0 then Level(s) - 1 else 0
    ensures s != Closed ==> (t.result <==> Level(t.next) == 0)
  {
    if s == Closed then Transition(Closed, false)
    else
      var next := if s >= SuspendUnit then s - SuspendUnit else s;
      Transition(next, next < SuspendUnit)
  }

  /**
   * `becomeClosed`: forces exactly Closed, dropping the Scheduled bit and the
   * suspend count; the result says whether this call did the closing.
   */
  function BecomeClosed(s: Status): (t: Transition)
    ensures IsClosed(t.next) && ClosedBit(t.next) && !ScheduledBit(t.next) && Level(t.next) == 0
    ensures t.result <==> !IsClosed(s)
  {
    if s == Closed then Transition(Closed, false)
    else Transition(Closed, true)
  }

  /** `setAsIdle`: `s &^ Scheduled`, clearing the Scheduled bit and nothing else. */
  function SetAsIdle(s: Status): (t: Transition)
    ensures !ScheduledBit(t.next) && !IsScheduled(t.next)
    ensures ClosedBit(t.next) == ClosedBit(s) && Level(t.next) == Level(s)
    ensures t.result
  {
    ClearedScheduledFields(s);
    Transition(AndNot(s, Scheduled), true)
  }

  lemma ClearedScheduledFields(s: Status)
    ensures AndNot(s, Scheduled) <= s
    ensures var n: Status := AndNot(s, Scheduled);
      !ScheduledBit(n) && !IsScheduled(n) && ClosedBit(n) == ClosedBit(s) && Level(n) == Level(s)
  {
    ClearBitOne(s);
    var n: Status := AndNot(s, Scheduled);
    var q := s / 4;
    assert n == 4 * q + s % 2;
    assert n % 2 == s % 2 && n / 2 % 2 == 0 && n / 4 == q;
    IsScheduledIff(n);
  }

  /** `max(a, b)` of the mailbox. */
  function Max(a: int, b: int): (r: int)
    ensures r >= a && r >= b
    ensures r == a || r == b
  {
    if a > b then a else b
  }

  // Properties of the transitions.

  /** Closed absorbs every transition, and the three that report return false. */
  lemma ClosedIsAbsorbing()
    ensures Suspend(Closed) == Transition(Closed, false)
    ensures Resume(Closed) == Transition(Closed, false)
    ensures BecomeClosed(Closed) == Transition(Closed, false)
    ensures SetAsIdle(Closed).next == Closed
  {
  }

  /** Closing twice: the first call reports the closing, the second does nothing and reports false. */
  lemma BecomeClosedIdempotent(s: Status)
    requires !IsClosed(s)
    ensures BecomeClosed(s) == Transition(Closed, true)
    ensures BecomeClosed(BecomeClosed(s).next) == Transition(Closed, false)
  {
  }

  lemma SetAsIdleIdempotent(s: Status)
    ensures SetAsIdle(SetAsIdle(s).next) == SetAsIdle(s)
  {
  }

  /** On a word that is not scheduled `setAsIdle` changes nothing. */
  lemma SetAsIdleOnIdle(s: Status)
    requires !IsScheduled(s)
    ensures SetAsIdle(s).next == s
  {
    IsScheduledIff(s);
    FieldsDetermineStatus(SetAsIdle(s).next, s);
  }

  /**
   * `resume` undoes `suspend` exactly, and reports full resumption exactly when
   * that `suspend` reported a newly suspended mailbox.
   */
  lemma ResumeUndoesSuspend(s: Status)
    requires !IsClosed(s) && s + SuspendUnit <= Int32Max
    ensures !IsClosed(Suspend(s).next)
    ensures Resume(Suspend(s).next).next == s
    ensures Resume(Suspend(s).next).result == Suspend(s).result
  {
  }

  /** `resume` at suspend count zero leaves the word as it is and reports true. */
  lemma ResumeAtLevelZero(s: Status)
    requires !IsClosed(s) && !IsSuspended(s)
    ensures Resume(s) == Transition(s, true)
  {
    IsSuspendedIff(s);
  }

  // Reachable words: the Closed bit appears only in the word Closed itself.

  /**
   * The words in which the Closed bit appears only in Closed itself. These
   * include every word the transitions produce from Open, and on them the
   * equality test `isClosed` and the Closed bit agree.
   */
  predicate Reachable(s: Status) { IsClosed(s) || !ClosedBit(s) }

  lemma OpenIsReachable()
    ensures Reachable(Open) && !IsSuspended(Open) && !IsScheduled(Open) && ShouldProcessMessage(Open)
  {
  }

  lemma TransitionsPreserveReachable(s: Status)
    requires Reachable(s)
    ensures s == Closed || s + SuspendUnit <= Int32Max ==> Reachable(Suspend(s).next)
    ensures Reachable(Resume(s).next)
    ensures Reachable(BecomeClosed(s).next)
    ensures Reachable(SetAsIdle(s).next)
  {
  }

  /**
   * On a reachable word: closed is the Closed bit, and a mailbox processes user
   * messages exactly when it is neither closed nor suspended.
   */
  lemma ShouldProcessMeansOpenAndNotSuspended(s: Status)
    requires Reachable(s)
    ensures IsClosed(s) <==> ClosedBit(s)
    ensures ShouldProcessMessage(s) <==> !IsClosed(s) && !IsSuspended(s)
  {
  }

  // Nesting: k suspends need k resumes.

  function SuspendTimes(s: Status, k: nat): (r: Status)
    requires !ClosedBit(s) && s + k * SuspendUnit <= Int32Max
    ensures !ClosedBit(r) && LowBits(r) == LowBits(s) && Level(r) == Level(s) + k
    decreases k
  {
    if k == 0 then s else SuspendTimes(Suspend(s).next, k - 1)
  }

  function ResumeTimes(s: Status, k: nat): (r: Status)
    requires !ClosedBit(s)
    ensures !ClosedBit(r) && LowBits(r) == LowBits(s)
    ensures Level(r) == if k <= Level(s) then Level(s) - k else 0
  {
    if k == 0 then s else ResumeTimes(Resume(s).next, k - 1)
  }

  /**
   * From suspend count zero, after k suspends and k - 1 resumes the mailbox is
   * still suspended; the k-th resume reports full resumption and clears the
   * suspension, and any further resumes leave the word unchanged.
   */
  lemma SuspendNesting(s: Status, k: nat, extra: nat)
    requires !ClosedBit(s) && !IsSuspended(s)
    requires 1 <= k && s + k * SuspendUnit <= Int32Max
    ensures IsSuspended(ResumeTimes(SuspendTimes(s, k), k - 1))
    ensures Resume(ResumeTimes(SuspendTimes(s, k), k - 1)).result
    ensures !IsSuspended(Resume(ResumeTimes(SuspendTimes(s, k), k - 1)).next)
    ensures ResumeTimes(SuspendTimes(s, k), k + extra) == s
  {
    IsSuspendedIff(s);
    var v := ResumeTimes(SuspendTimes(s, k), k - 1);
    IsSuspendedIff(v);
    IsSuspendedIff(Resume(v).next);
    FieldsDetermineStatus(ResumeTimes(SuspendTimes(s, k), k + extra), s);
  }
}
