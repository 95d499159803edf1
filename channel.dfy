/**
 * The per-descriptor dispatch unit. A Channel holds the interest mask the
 * owner wants watched (`events`), the mask the poller last reported
 * (`revents`), its registration state in the poller (`index`), which of the
 * four callbacks are set, and an optional weak owner that must still be
 * alive for dispatch to proceed.
 */
module Channels {
  import opened Epoll

  const kNoneEvent: bv32 := 0
  const kReadEvent: bv32 := EPOLLIN | EPOLLPRI
  const kWriteEvent: bv32 := EPOLLOUT

  /** The time the poller's wait returned, handed to the read callback. */
  datatype Timestamp = Timestamp(microSecondsSinceEpoch: int)

  /** Which of the four callbacks are set; an unset callback is skipped. */
  datatype Callbacks = Callbacks(read: bool, write: bool, close: bool, error: bool)

  const NoCallbacks := Callbacks(false, false, false, false)

  /** One callback invocation, in the order they happen. */
  datatype Fired = Close | Error | Read(receiveTime: Timestamp) | Write

  /** The position of each callback in the fixed dispatch order. */
  function Rank(f: Fired): nat {
    match f
    case Close => 0
    case Error => 1
    case Read(_) => 2
    case Write => 3
  }

  /** The callbacks of `fired` appear in strictly increasing dispatch order, so each at most once. */
  predicate Ordered(fired: seq<Fired>) {
    forall i, j | 0 <= i < j < |fired| :: Rank(fired[i]) < Rank(fired[j])
  }

  /** `f` followed by `rest` when `b` holds, otherwise `rest` alone. */
  function Guarded(b: bool, f: Fired, rest: seq<Fired>): seq<Fired> {
    if b then [f] + rest else rest
  }

  /**
   * The callbacks one dispatch fires, given which of the four tests passed
   * and the callback is set: close, error, read, write, in that order.
   */
  function Dispatch(close: bool, error: bool, read: bool, write: bool, t: Timestamp): (fired: seq<Fired>)
    ensures Close in fired <==> close
    ensures Error in fired <==> error
    ensures Read(t) in fired <==> read
    ensures Write in fired <==> write
  {
    Guarded(close, Close, Guarded(error, Error, Guarded(read, Read(t), Guarded(write, Write, []))))
  }

  /** A dispatch is the four optional callbacks appended one after another. */
  lemma DispatchAppends(close: bool, error: bool, read: bool, write: bool, t: Timestamp)
    ensures Dispatch(close, error, read, write, t)
            == (if close then [Close] else []) + (if error then [Error] else [])
               + (if read then [Read(t)] else []) + (if write then [Write] else [])
  {
  }

  /**
   * The callbacks one dispatch fires for the reported mask `revents`:
   * close on hang-up without input, error on EPOLLERR, read on EPOLLIN or
   * EPOLLPRI, write on EPOLLOUT, each only when set.
   */
  function Fires(revents: bv32, cbs: Callbacks, receiveTime: Timestamp): (fired: seq<Fired>)
    ensures Close in fired <==> revents & EPOLLHUP != 0 && revents & EPOLLIN == 0 && cbs.close
    ensures Error in fired <==> revents & EPOLLERR != 0 && cbs.error
    ensures Read(receiveTime) in fired <==> revents & (EPOLLIN | EPOLLPRI) != 0 && cbs.read
    ensures Write in fired <==> revents & EPOLLOUT != 0 && cbs.write
  {
    Dispatch(revents & EPOLLHUP != 0 && revents & EPOLLIN == 0 && cbs.close,
             revents & EPOLLERR != 0 && cbs.error,
             revents & (EPOLLIN | EPOLLPRI) != 0 && cbs.read,
             revents & EPOLLOUT != 0 && cbs.write,
             receiveTime)
  }

  /** Every callback of `s` comes after dispatch position `k`. */
  predicate RanksAbove(k: int, s: seq<Fired>) {
    forall i | 0 <= i < |s| :: k < Rank(s[i])
  }

  /** Every read callback of `s` receives the time `t`. */
  predicate ReadsAt(t: Timestamp, s: seq<Fired>) {
    forall i | 0 <= i < |s| :: s[i].Read? ==> s[i] == Read(t)
  }

  /** Putting a callback in front of later ones keeps the order. */
  lemma GuardedOrdered(b: bool, f: Fired, rest: seq<Fired>, t: Timestamp)
    requires Ordered(rest) && RanksAbove(Rank(f), rest) && ReadsAt(t, rest)
    requires f.Read? ==> f == Read(t)
    ensures Ordered(Guarded(b, f, rest)) && ReadsAt(t, Guarded(b, f, rest))
    ensures RanksAbove(Rank(f) - 1, Guarded(b, f, rest))
  {
    if b {
      var r := [f] + rest;
      forall i, j | 0 <= i < j < |r|
        ensures Rank(r[i]) < Rank(r[j])
      {
        assert r[j] == rest[j - 1];
        if i > 0 {
          assert r[i] == rest[i - 1];
        }
      }
      forall i | 0 < i < |r|
        ensures Rank(f) - 1 < Rank(r[i]) && (r[i].Read? ==> r[i] == Read(t))
      {
        assert r[i] == rest[i - 1];
      }
    }
  }

  /**
   * A dispatch fires its callbacks in the order close, error, read, write,
   * each at most once, and the read callback receives the dispatch's time.
   */
  lemma {:induction false} DispatchInOrder(close: bool, error: bool, read: bool, write: bool, t: Timestamp)
    ensures Ordered(Dispatch(close, error, read, write, t))
    ensures ReadsAt(t, Dispatch(close, error, read, write, t))
  {
    var w := Guarded(write, Write, []);
    GuardedOrdered(write, Write, [], t);
    var r := Guarded(read, Read(t), w);
    GuardedOrdered(read, Read(t), w, t);
    var e := Guarded(error, Error, r);
    GuardedOrdered(error, Error, r, t);
    GuardedOrdered(close, Close, e, t);
  }

  /** Every dispatch for a reported mask keeps the fixed callback order and hands the read callback its time. */
  lemma FiresInOrder(revents: bv32, cbs: Callbacks, t: Timestamp)
    ensures Ordered(Fires(revents, cbs, t))
    ensures ReadsAt(t, Fires(revents, cbs, t))
  {
    DispatchInOrder(revents & EPOLLHUP != 0 && revents & EPOLLIN == 0 && cbs.close,
                    revents & EPOLLERR != 0 && cbs.error,
                    revents & (EPOLLIN | EPOLLPRI) != 0 && cbs.read,
                    revents & EPOLLOUT != 0 && cbs.write,
                    t);
  }

  /** A hang-up that arrives together with input fires the read callback and not the close callback. */
  lemma HangupWithInput(revents: bv32, cbs: Callbacks, t: Timestamp)
    requires revents & EPOLLHUP != 0 && revents & EPOLLIN != 0
    ensures Close !in Fires(revents, cbs, t)
    ensures cbs.read ==> Read(t) in Fires(revents, cbs, t)
  {
  }

  /** With every callback set, a mask with all five bits fires error, read and write, in that order. */
  lemma AllBitsAllCallbacks(t: Timestamp)
    ensures Fires(EPOLLIN | EPOLLPRI | EPOLLOUT | EPOLLERR | EPOLLHUP, Callbacks(true, true, true, true), t)
            == [Error, Read(t), Write]
  {
  }

  /** The interest masks: read and write are disjoint, and neither names EPOLLERR or EPOLLHUP. */
  lemma InterestMasks()
    ensures kReadEvent == 0x003 && kWriteEvent == 0x004 && kNoneEvent == 0
    ensures kReadEvent & kWriteEvent == 0
    ensures (kReadEvent | kWriteEvent) & (EPOLLERR | EPOLLHUP) == 0
  {
  }

  /** The object a channel may be tied to; `alive` is false once it has been destroyed. */
  class Owner {
    var alive: bool

    constructor ()
      ensures alive
    {
      alive := true;
    }
  }

  class Channel {
    const fd: int
    var events: bv32        // interest mask
    var revents: bv32       // mask last reported by the poller
    var index: int          // registration state, one of the poller's kNew, kAdded, kDeleted
    var tied: bool
    var tie: Owner?         // weak reference: lock() fails when null or no longer alive
    var callbacks: Callbacks

    constructor (fd: int)
      ensures this.fd == fd
      ensures events == 0 && revents == 0 && index == -1
      ensures !tied && tie == null && callbacks == NoCallbacks
    {
      this.fd := fd;
      events := 0;
      revents := 0;
      index := -1;
      tied := false;
      tie := null;
      callbacks := NoCallbacks;
    }

    /** Whether the weak owner can be locked, i.e. is present and still alive. */
    predicate OwnerAlive()
      reads this, tie
    {
      tie != null && tie.alive
    }

    /** Whether the channel has no interest, so the poller deletes it from the kernel. */
    predicate IsNoneEvent()
      reads this
    {
      events == kNoneEvent
    }

    method Tie(obj: Owner?)
      modifies this`tie, this`tied
      ensures tie == obj && tied
    {
      tie := obj;
      tied := true;
    }

    /**
     * Dispatch one notification: a tied channel whose owner is gone fires
     * nothing; otherwise the callbacks selected by `revents` fire.
     */
    method HandleEvent(receiveTime: Timestamp) returns (fired: seq<Fired>)
      ensures tied && !OwnerAlive() ==> fired == []
      ensures !tied || OwnerAlive() ==> fired == Fires(revents, callbacks, receiveTime)
    {
      if tied {
        var guard := tie != null && tie.alive;
        if guard {
          fired := HandleEventWithGuard(receiveTime);
        } else {
          fired := [];
        }
      } else {
        fired := HandleEventWithGuard(receiveTime);
      }
    }

    /** The fixed sequence of bit tests over `revents`, one callback after another. */
    method HandleEventWithGuard(receiveTime: Timestamp) returns (fired: seq<Fired>)
      ensures fired == Fires(revents, callbacks, receiveTime)
    {
      ghost var close := revents & EPOLLHUP != 0 && revents & EPOLLIN == 0 && callbacks.close;
      ghost var error := revents & EPOLLERR != 0 && callbacks.error;
      ghost var read := revents & (EPOLLIN | EPOLLPRI) != 0 && callbacks.read;
      ghost var write := revents & EPOLLOUT != 0 && callbacks.write;
      ghost var closing := if close then [Close] else [];
      ghost var erring := if error then [Error] else [];
      ghost var reading := if read then [Read(receiveTime)] else [];
      ghost var writing := if write then [Write] else [];
      fired := [];
      if revents & EPOLLHUP != 0 && revents & EPOLLIN == 0 {
        if callbacks.close {
          fired := fired + [Close];
        }
      }
      assert fired == closing;
      if revents & EPOLLERR != 0 {
        if callbacks.error {
          fired := fired + [Error];
        }
      }
      assert fired == closing + erring;
      if revents & (EPOLLIN | EPOLLPRI) != 0 {
        if callbacks.read {
          fired := fired + [Read(receiveTime)];
        }
      }
      assert fired == closing + erring + reading;
      if revents & EPOLLOUT != 0 {
        if callbacks.write {
          fired := fired + [Write];
        }
      }
      DispatchAppends(close, error, read, write, receiveTime);
    }
  }

  /** Only `revents` of `c` was changed between the two states. */
  twostate predicate OnlyReventsChanged(c: Channel)
    reads c
  {
    && c.events == old(c.events)
    && c.index == old(c.index)
    && c.tied == old(c.tied)
    && c.tie == old(c.tie)
    && c.callbacks == old(c.callbacks)
  }
}
