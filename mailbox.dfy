/**
 * The mailbox of one actor: the status word, the user message queue, and the
 * run loop that the dispatcher schedules.
 *
 * The collaborators the mailbox calls but does not implement are abstract: the
 * message invoker (the actor cell) records what it is handed, and the
 * dispatcher holds a throughput value and records each request to schedule a
 * mailbox. The user MessageQueue is an unbounded FIFO held as a sequence.
 */
module Dispatch {
  import opened Wrappers
  import opened MailboxStatus

  /** A message payload and a sender reference; their contents never matter here. */
  type Message
  type ActorRef

  datatype Envelope = Envelope(message: Message, sender: ActorRef)

  /** The invoker (the actor cell): applies one envelope to the actor's behaviour. */
  class MessageInvoker {
    /** Every envelope handed to Invoke, in order. */
    ghost var delivered: seq<Envelope>

    constructor ()
      ensures delivered == []
    {
      delivered := [];
    }

    method Invoke(envelope: Envelope)
      modifies this
      ensures delivered == old(delivered) + [envelope]
    {
      delivered := delivered + [envelope];
    }
  }

  /** One call of RegisterForExecution, with its two hints. */
  datatype Registration = Registration(mailbox: Mailbox, hasMessageHint: bool, hasSystemMessageHint: bool)

  /** The dispatcher, as far as the mailbox uses it. */
  class MessageDispatcher {
    /** The configured number of user messages per run; any int, normalised by the mailbox. */
    const throughput: int
    /** Every RegisterForExecution call, in order. */
    ghost var registrations: seq<Registration>

    constructor (throughput: int)
      ensures this.throughput == throughput && registrations == []
    {
      this.throughput := throughput;
      registrations := [];
    }

    method Throughput() returns (t: int)
      ensures t == throughput
    {
      t := throughput;
    }

    method RegisterForExecution(mailbox: Mailbox, hasMessageHint: bool, hasSystemMessageHint: bool)
      modifies this
      ensures registrations == old(registrations) + [Registration(mailbox, hasMessageHint, hasSystemMessageHint)]
    {
      registrations := registrations + [Registration(mailbox, hasMessageHint, hasSystemMessageHint)];
    }
  }

  class Mailbox {
    var status: Status
    /** The contents of the user MessageQueue, front first. */
    var messageQueue: seq<Envelope>
    const invoker: MessageInvoker
    /** The dispatcher the mailbox's cell reports. */
    const dispatcher: MessageDispatcher

    /** The Closed bit appears only in the word Closed itself. */
    ghost predicate Valid()
      reads this
    {
      Reachable(status)
    }

    /** `NewMailbox`: an Open mailbox over the given queue. */
    constructor (messageQueue: seq<Envelope>, invoker: MessageInvoker, dispatcher: MessageDispatcher)
      ensures Valid()
      ensures status == Open && this.messageQueue == messageQueue
      ensures this.invoker == invoker && this.dispatcher == dispatcher
    {
      status := Open;
      this.messageQueue := messageQueue;
      this.invoker := invoker;
      this.dispatcher := dispatcher;
    }

    /** Delegates to the queue, which appends. */
    method Enqueue(receiver: ActorRef, envelope: Envelope)
      modifies this`messageQueue
      ensures messageQueue == old(messageQueue) + [envelope]
    {
      messageQueue := messageQueue + [envelope];
    }

    /** Delegates to the queue: the front envelope, or None when the queue is empty. */
    method Dequeue() returns (next: Option<Envelope>)
      modifies this`messageQueue
      ensures old(messageQueue) == [] ==> next == None && messageQueue == []
      ensures old(messageQueue) != [] ==> next == Some(old(messageQueue)[0]) && messageQueue == old(messageQueue)[1..]
    {
      if messageQueue == [] {
        next := None;
      } else {
        next := Some(messageQueue[0]);
        messageQueue := messageQueue[1..];
      }
    }

    method NumberOfMessages() returns (n: nat)
      ensures n == |messageQueue|
    {
      n := |messageQueue|;
    }

    method HasMessages() returns (b: bool)
      ensures b <==> messageQueue != []
    {
      b := messageQueue != [];
    }

    method Suspend() returns (newlySuspended: bool)
      requires Valid()
      requires status == Closed || status + SuspendUnit <= Int32Max
      modifies this`status
      ensures Valid()
      ensures status == MailboxStatus.Suspend(old(status)).next
      ensures newlySuspended == MailboxStatus.Suspend(old(status)).result
    {
      var current := status;
      if current == Closed {
        status := Closed;
        return false;
      }
      status := current + SuspendUnit;
      newlySuspended := current < SuspendUnit;
    }

    method Resume() returns (fullyResumed: bool)
      requires Valid()
      modifies this`status
      ensures Valid()
      ensures status == MailboxStatus.Resume(old(status)).next
      ensures fullyResumed == MailboxStatus.Resume(old(status)).result
    {
      var current := status;
      if current == Closed {
        status := Closed;
        return false;
      }
      var next := current;
      if current >= SuspendUnit {
        next := current - SuspendUnit;
      }
      status := next;
      fullyResumed := next < SuspendUnit;
    }

    method BecomeClosed() returns (closedNow: bool)
      requires Valid()
      modifies this`status
      ensures Valid()
      ensures status == MailboxStatus.BecomeClosed(old(status)).next
      ensures closedNow == MailboxStatus.BecomeClosed(old(status)).result
    {
      var current := status;
      if current == Closed {
        status := Closed;
        return false;
      }
      status := Closed;
      closedNow := true;
    }

    method SetAsIdle() returns (done: bool)
      requires Valid()
      modifies this`status
      ensures Valid()
      ensures status == MailboxStatus.SetAsIdle(old(status)).next
      ensures done
    {
      status := MailboxStatus.SetAsIdle(status).next;
      done := true;
    }

    /** A stub in the source: there is no system queue to drain. */
    method ProcessAllSystemMessages()
    {
    }

    /**
     * Dequeues and invokes user envelopes one at a time, checking before each
     * dequeue that the mailbox may process messages, until the queue is empty
     * or `max(1, left)` envelopes have been invoked.
     */
    method ProcessMailbox(left: int)
      modifies this`messageQueue, invoker
      ensures status == old(status)
      ensures var invoked := if ShouldProcessMessage(old(status)) then Min(|old(messageQueue)|, Max(1, left)) else 0;
        && invoker.delivered == old(invoker.delivered) + old(messageQueue)[..invoked]
        && messageQueue == old(messageQueue)[invoked..]
    {
      var remaining := left;
      ghost var count := 0;
      while ShouldProcessMessage(status)
        invariant 0 <= count <= |old(messageQueue)| && count < Max(1, left)
        invariant count > 0 ==> ShouldProcessMessage(status)
        invariant remaining == if left >= 1 then left - count else left
        invariant invoker.delivered == old(invoker.delivered) + old(messageQueue)[..count]
        invariant messageQueue == old(messageQueue)[count..]
        decreases |messageQueue|
      {
        var next := Dequeue();
        if next == None {
          return;
        }
        invoker.Invoke(next.value);
        count := count + 1;
        ProcessAllSystemMessages();
        if remaining > 1 {
          remaining := remaining - 1;
          continue;
        }
        break;
      }
    }

    /**
     * The dispatcher's entry point: unless the mailbox is Closed, process up to
     * `max(1, Throughput())` user envelopes; then, on every path, clear the
     * Scheduled bit and ask the dispatcher to register the mailbox again.
     */
    method Run()
      requires Valid()
      modifies this`status, this`messageQueue, invoker, dispatcher
      ensures Valid()
      ensures status == MailboxStatus.SetAsIdle(old(status)).next && !IsScheduled(status)
      ensures dispatcher.registrations == old(dispatcher.registrations) + [Registration(this, false, false)]
      ensures IsClosed(old(status)) || IsSuspended(old(status)) ==>
        invoker.delivered == old(invoker.delivered) && messageQueue == old(messageQueue)
      ensures !IsClosed(old(status)) && !IsSuspended(old(status)) ==>
        var invoked := Min(|old(messageQueue)|, Max(1, dispatcher.throughput));
        && invoker.delivered == old(invoker.delivered) + old(messageQueue)[..invoked]
        && messageQueue == old(messageQueue)[invoked..]
      ensures var invoked := if ShouldProcessMessage(old(status)) then Min(|old(messageQueue)|, Max(1, dispatcher.throughput)) else 0;
        && invoker.delivered == old(invoker.delivered) + old(messageQueue)[..invoked]
        && messageQueue == old(messageQueue)[invoked..]
    {
      // On a reachable word, "may process" is "neither closed nor suspended".
      ShouldProcessMeansOpenAndNotSuspended(status);
      if !IsClosed(status) {
        ProcessAllSystemMessages();
        var throughput := dispatcher.Throughput();
        ProcessMailbox(Max(1, throughput));
      }
      // The deferred cleanup, which runs on every path.
      var _ := SetAsIdle();
      dispatcher.RegisterForExecution(this, false, false);
    }
  }

  function Min(a: int, b: int): (r: int)
    ensures r <= a && r <= b
    ensures r == a || r == b
  {
    if a < b then a else b
  }
}
