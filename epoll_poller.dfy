/**
 * The epoll-based poller. It keeps the registry from descriptor to Channel,
 * moves each channel between the registration states kNew, kAdded and
 * kDeleted with ADD, MOD and DEL control operations on the kernel's
 * interest list, and turns the records of one wait into the ordered list
 * of active channels, growing its event buffer when a wait fills it.
 */
module EPollPollers {
  import opened Epoll
  import opened Channels

  // Registration states of a channel, stored in its `index`.
  const kNew: int := -1     // not in the poller
  const kAdded: int := 1    // in the registry and in the kernel's interest list
  const kDeleted: int := 2  // in the registry, deleted from the kernel's interest list

  /** What a control operation amounts to for the caller. */
  datatype CtlOutcome =
    | CtlOk
    | CtlLogged(error: CtlError)  // logged, processing goes on
    | CtlFatal(error: CtlError)   // the process stops

  /** A failed DEL is only logged; a failed ADD or MOD is fatal. */
  function Classify(op: CtlOp, error: Option<CtlError>): (r: CtlOutcome)
    ensures r.CtlOk? <==> error.None?
    ensures r.CtlLogged? <==> error.Some? && op.Del?
    ensures r.CtlFatal? <==> error.Some? && !op.Del?
    ensures !r.CtlOk? ==> error == Some(r.error)
  {
    match error
    case None => CtlOk
    case Some(e) => if op.Del? then CtlLogged(e) else CtlFatal(e)
  }

  /** How one poll call ended. */
  datatype PollOutcome =
    | Active(numEvents: nat)  // some channels became active
    | TimedOut                // the wait returned no event
    | Interrupted             // the wait was interrupted by a signal: not an error
    | WaitError(errno: int)   // any other failure of the wait, logged

  /** The value epoll_wait returns for a wait result: the number of events, or -1. */
  function NumEvents(w: WaitResult): int {
    match w
    case Returned(ready) => |ready|
    case Failed(_) => -1
  }

  /** The buffer capacity for the next wait, after a wait that returned `numEvents`. */
  function NextCapacity(capacity: nat, numEvents: int): nat {
    if numEvents > 0 && numEvents == capacity then 2 * capacity else capacity
  }

  function Pow2(k: nat): (r: nat)
    ensures r >= 1
  {
    if k == 0 then 1 else 2 * Pow2(k - 1)
  }

  /** The buffer capacity after a run of waits that returned `counts`, starting from `capacity`. */
  function CapacityAfter(capacity: nat, counts: seq<int>): nat
    decreases |counts|
  {
    if counts == [] then capacity
    else CapacityAfter(NextCapacity(capacity, counts[0]), counts[1..])
  }

  /** How many waits of the run filled the buffer they were given. */
  function FullWaits(capacity: nat, counts: seq<int>): nat
    decreases |counts|
  {
    if counts == [] then 0
    else (if counts[0] > 0 && counts[0] == capacity then 1 else 0)
         + FullWaits(NextCapacity(capacity, counts[0]), counts[1..])
  }

  /** A wait that fills the buffer doubles it; any other wait leaves it as it is. */
  lemma FullWaitDoubles(capacity: nat, numEvents: int)
    requires capacity > 0
    ensures NextCapacity(capacity, numEvents) == capacity <==> numEvents != capacity
    ensures numEvents == capacity ==> NextCapacity(capacity, numEvents) == 2 * capacity
  {
  }

  /** After any run of waits the capacity is the initial one doubled once per wait that filled it. */
  lemma {:induction false} CapacityDoublesPerFullWait(capacity: nat, counts: seq<int>)
    ensures CapacityAfter(capacity, counts) == capacity * Pow2(FullWaits(capacity, counts))
    decreases |counts|
  {
    if counts != [] {
      var next := NextCapacity(capacity, counts[0]);
      CapacityDoublesPerFullWait(next, counts[1..]);
      var k := FullWaits(next, counts[1..]);
      if counts[0] > 0 && counts[0] == capacity {
        calc {
          CapacityAfter(capacity, counts);
          next * Pow2(k);
          (2 * capacity) * Pow2(k);
          capacity * (2 * Pow2(k));
          capacity * Pow2(k + 1);
        }
      }
    }
  }

  /** The capacity never shrinks, and stays positive when it starts positive: every power of two is at least one. */
  lemma CapacityNeverShrinks(capacity: nat, counts: seq<int>)
    ensures CapacityAfter(capacity, counts) >= capacity
    ensures capacity > 0 ==> CapacityAfter(capacity, counts) > 0
  {
    CapacityDoublesPerFullWait(capacity, counts);
    var k := Pow2(FullWaits(capacity, counts));
    assert capacity * k == capacity + capacity * (k - 1);
  }

  /** The record value a freshly grown buffer is filled with. */
  const EmptyEvent: EpollEvent<Channel?> := EpollEvent(0, null)

  /** `n` value-initialised records, as a vector of records is filled when it grows. */
  function EmptyEvents(n: nat): (r: seq<EpollEvent<Channel?>>)
    ensures |r| == n && forall i | 0 <= i < n :: r[i] == EmptyEvent
  {
    seq(n, _ => EmptyEvent)
  }

  class EPollPoller {
    var channels: map<int, Channel>         // the registry: descriptor to channel
    var interest: Interest<Channel>         // the kernel's interest list of this epoll instance
    var events: seq<EpollEvent<Channel?>>   // the buffer epoll_wait writes into

    /** The structural invariant, kept whatever the kernel answers. */
    ghost predicate Valid()
      reads this, channels.Values
    {
      |events| > 0 && RegistryValid()
    }

    /** Every registry entry and every kernel registration is keyed by its channel's descriptor. */
    ghost predicate RegistryValid()
      reads this`channels, this`interest, channels.Values
    {
      && (forall fd | fd in channels :: channels[fd].fd == fd)
      && (forall fd | fd in channels :: channels[fd].index == kAdded || channels[fd].index == kDeleted)
      && (forall fd | fd in interest :: interest[fd].data.fd == fd)
    }

    /**
     * The kernel's interest list agrees with the registry: a descriptor is
     * registered with the kernel exactly when its channel is kAdded, and its
     * data word points back to that channel.
     */
    ghost predicate KernelAgrees()
      reads this`channels, this`interest, channels.Values
    {
      && (forall fd | fd in interest ::
            fd in channels && channels[fd].index == kAdded && interest[fd].data == channels[fd])
      && (forall fd | fd in channels && channels[fd].index == kAdded :: fd in interest)
    }

    /** `ch` is managed by this poller: a kNew channel is not registered, any other one is. */
    ghost predicate Owns(ch: Channel)
      reads this`channels, ch
    {
      if ch.index == kNew then ch.fd !in channels else ch.fd in channels && channels[ch.fd] == ch
    }

    constructor (initEventListSize: nat)
      requires initEventListSize > 0
      ensures Valid() && KernelAgrees()
      ensures channels == map[] && interest == map[]
      ensures events == EmptyEvents(initEventListSize)
    {
      channels := map[];
      interest := map[];
      events := EmptyEvents(initEventListSize);
    }

    /** epoll_ctl(op) for `ch` with its current interest mask and a back-pointer to it. */
    method Update(op: CtlOp, ch: Channel, fault: bool) returns (outcome: CtlOutcome)
      modifies this`interest
      ensures var r := Ctl(old(interest), op, ch.fd, Registration(ch.events, ch), fault);
              interest == r.interest && outcome == Classify(op, r.error)
    {
      var r := Ctl(interest, op, ch.fd, Registration(ch.events, ch), fault);
      interest := r.interest;
      outcome := Classify(op, r.error);
    }

    /**
     * Bring the kernel registration of `ch` in line with its interest mask:
     * a kNew or kDeleted channel is ADDed (a kNew one also enters the
     * registry), a kAdded channel without interest is DELeted and becomes
     * kDeleted, and a kAdded channel with interest is MODified.
     */
    method UpdateChannel(ch: Channel, fault: bool) returns (op: CtlOp, outcome: CtlOutcome)
      requires Valid()
      modifies this`channels, this`interest, ch`index
      ensures Valid()
      ensures op == if old(ch.index) == kNew || old(ch.index) == kDeleted then Add
                    else if ch.events == kNoneEvent then Del
                    else Mod
      ensures old(ch.index) == kNew ==> channels == old(channels)[ch.fd := ch]
      ensures old(ch.index) != kNew ==> channels == old(channels)
      ensures ch.index == if op.Add? then kAdded else if op.Del? then kDeleted else old(ch.index)
      ensures var r := Ctl(old(interest), op, ch.fd, Registration(ch.events, ch), fault);
              interest == r.interest && outcome == Classify(op, r.error)
      ensures old(KernelAgrees()) && old(Owns(ch)) && !fault ==>
                && outcome == CtlOk && KernelAgrees() && Owns(ch)
                && (ch.index == kAdded <==> ch.fd in interest)
                && (ch.index == kAdded ==> interest[ch.fd] == Registration(ch.events, ch))
    {
      ghost var agreed := KernelAgrees() && Owns(ch);
      var index := ch.index;
      if index == kNew || index == kDeleted {
        if index == kNew {
          var fd := ch.fd;
          channels := channels[fd := ch];
        }
        ch.index := kAdded;
        op := Add;
        outcome := Update(Add, ch, fault);
      } else {
        if ch.IsNoneEvent() {
          op := Del;
          outcome := Update(Del, ch, fault);
          ch.index := kDeleted;
        } else {
          op := Mod;
          outcome := Update(Mod, ch, fault);
        }
      }
      assert forall fd | fd in channels && fd != ch.fd :: channels[fd] != ch;
      if agreed && !fault {
        assert Owns(ch);
        assert KernelAgrees();
      }
    }

    /**
     * Forget `ch`: erase its descriptor from the registry, DEL it from the
     * kernel only if it was kAdded, and leave it kNew.
     */
    method RemoveChannel(ch: Channel, fault: bool) returns (op: Option<CtlOp>, outcome: CtlOutcome)
      requires Valid()
      modifies this`channels, this`interest, ch`index
      ensures Valid()
      ensures channels == old(channels) - {ch.fd}
      ensures ch.index == kNew
      ensures op == if old(ch.index) == kAdded then Some(Del) else None
      ensures op.None? ==> interest == old(interest) && outcome == CtlOk
      ensures op.Some? ==>
                var r := Ctl(old(interest), Del, ch.fd, Registration(ch.events, ch), fault);
                interest == r.interest && outcome == Classify(Del, r.error)
      ensures old(KernelAgrees()) && old(Owns(ch)) && !fault ==>
                outcome == CtlOk && KernelAgrees() && Owns(ch) && ch.fd !in interest
    {
      ghost var agreed := KernelAgrees() && Owns(ch);
      var fd := ch.fd;
      channels := channels - {fd};
      var index := ch.index;
      if index == kAdded {
        op := Some(Del);
        outcome := Update(Del, ch, fault);
      } else {
        op := None;
        outcome := CtlOk;
      }
      ch.index := kNew;
      if agreed && !fault {
        assert KernelAgrees();
      }
    }

    /**
     * Removing a channel twice: the second removal leaves the registry and
     * the interest list as the first left them and issues no control operation.
     */
    method RemoveTwice(ch: Channel, fault: bool) returns (second: Option<CtlOp>, outcome: CtlOutcome)
      requires Valid()
      modifies this`channels, this`interest, ch`index
      ensures Valid()
      ensures ch.fd !in channels && channels == old(channels) - {ch.fd} && ch.index == kNew
      ensures second.None? && outcome == CtlOk
      ensures interest == if old(ch.index) == kAdded
                          then Ctl(old(interest), Del, ch.fd, Registration(ch.events, ch), fault).interest
                          else old(interest)
    {
      var first, _ := RemoveChannel(ch, fault);
      second, outcome := RemoveChannel(ch, fault);
    }

    /** The channels named by the first `n` records of the buffer. */
    ghost function RecordChannels(n: int): set<Channel?>
      reads this`events
    {
      set i | 0 <= i < n && i < |events| :: events[i].data
    }

    /** The channels the kernel names in a wait result. */
    ghost function ReadyChannels(w: WaitResult): set<Channel>
      reads this`interest
    {
      if w.Failed? then {}
      else set i | 0 <= i < |w.ready| && w.ready[i].fd in interest :: interest[w.ready[i].fd].data
    }

    /**
     * The epoll_wait call: the kernel writes one record per report into the
     * front of the buffer and returns their number, or -1 and errno.
     */
    method EpollWait(wait: WaitResult) returns (numEvents: int, errno: int)
      requires Valid()
      requires Admissible(interest, |events|, wait)
      modifies this`events
      ensures Valid()
      ensures numEvents == NumEvents(wait)
      ensures errno == if wait.Failed? then wait.errno else 0
      ensures |events| == old(|events|)
      ensures wait.Failed? ==> events == old(events)
      ensures wait.Returned? ==> events[..numEvents] == Delivered(interest, wait.ready)
      ensures wait.Returned? ==> events[numEvents..] == old(events)[numEvents..]
      ensures wait.Returned? ==>
                forall i | 0 <= i < numEvents ::
                  && events[i].data == interest[wait.ready[i].fd].data
                  && events[i].events == wait.ready[i].flags
      ensures wait.Returned? ==> RecordChannels(numEvents) <= ReadyChannels(wait)
      ensures wait.Returned? ==> forall i, j | 0 <= i < j < numEvents :: events[i].data != events[j].data
    {
      numEvents := NumEvents(wait);
      errno := if wait.Failed? then wait.errno else 0;
      if wait.Returned? {
        events := Delivered(interest, wait.ready) + events[numEvents..];
        assert events[..numEvents] == Delivered(interest, wait.ready);
        forall i | 0 <= i < numEvents
          ensures events[i].data == interest[wait.ready[i].fd].data
          ensures events[i].events == wait.ready[i].flags
          ensures events[i].data in ReadyChannels(wait)
        {
          assert events[i] == Delivered(interest, wait.ready)[i];
        }
        assert forall i, j | 0 <= i < j < numEvents :: events[i].data.fd != events[j].data.fd;
      }
    }

    /**
     * Append the channels named by the first `numEvents` buffer records to
     * `activeChannels`, in buffer order, stamping each with the record's
     * reported bits (a channel named twice keeps the later record's bits).
     */
    method FillActiveChannels(numEvents: int, activeChannels: seq<Channel>) returns (active: seq<Channel>)
      requires Valid()
      requires 0 <= numEvents <= |events|
      requires forall i | 0 <= i < numEvents :: events[i].data != null
      modifies RecordChannels(numEvents)
      ensures Valid()
      ensures old(KernelAgrees()) ==> KernelAgrees()
      ensures |active| == |activeChannels| + numEvents
      ensures active[..|activeChannels|] == activeChannels
      ensures forall i | 0 <= i < numEvents :: active[|activeChannels| + i] == events[i].data
      ensures forall i | 0 <= i < numEvents && (forall j | i < j < numEvents :: events[j].data != events[i].data) ::
                events[i].data.revents == events[i].events
      ensures forall c: Channel | c in RecordChannels(numEvents) :: OnlyReventsChanged(c)
    {
      active := activeChannels;
      var i := 0;
      while i < numEvents
        invariant 0 <= i <= numEvents
        invariant |active| == |activeChannels| + i
        invariant active[..|activeChannels|] == activeChannels
        invariant forall k | 0 <= k < i :: active[|activeChannels| + k] == events[k].data
        invariant forall k | 0 <= k < i && (forall j | k < j < i :: events[j].data != events[k].data) ::
                    events[k].data.revents == events[k].events
        invariant forall c: Channel | c in RecordChannels(numEvents) :: OnlyReventsChanged(c)
      {
        var channel := events[i].data;
        channel.revents := events[i].events;
        active := active + [channel];
        i := i + 1;
      }
      forall fd | fd in channels
        ensures channels[fd].index == old(channels[fd].index)
      {
        if channels[fd] in RecordChannels(numEvents) {
          assert OnlyReventsChanged(channels[fd]);
        }
      }
    }

    /** Every channel a wait appended was stamped with non-zero bits and, when the kernel agrees, is registered. */
    lemma ActiveChannelsReported(wait: WaitResult, activeChannels: seq<Channel>, active: seq<Channel>)
      requires Valid()
      requires wait.Returned? && Admissible(interest, |wait.ready|, wait)
      requires |active| == |activeChannels| + |wait.ready|
      requires forall i | 0 <= i < |wait.ready| ::
                 && active[|activeChannels| + i] == interest[wait.ready[i].fd].data
                 && active[|activeChannels| + i].revents == wait.ready[i].flags
      ensures forall c | c in active[|activeChannels|..] :: c.revents != 0
      ensures KernelAgrees() ==>
                forall c | c in active[|activeChannels|..] ::
                  c.fd in channels && channels[c.fd] == c && c.index == kAdded
    {
      forall c | c in active[|activeChannels|..]
        ensures c.revents != 0
        ensures KernelAgrees() ==> c.fd in channels && channels[c.fd] == c && c.index == kAdded
      {
        var j :| 0 <= j < |wait.ready| && active[|activeChannels|..][j] == c;
        assert c == active[|activeChannels| + j];
        assert Reportable(wait.ready[j].flags, interest[wait.ready[j].fd].mask);
      }
    }

    /**
     * One wait of the loop. The kernel's answer `wait` is an input; `now`
     * is the time read right after the wait returns.
     */
    method Poll(timeoutMs: int, wait: WaitResult, now: Timestamp, activeChannels: seq<Channel>)
      returns (stamp: Timestamp, outcome: PollOutcome, active: seq<Channel>)
      requires Valid()
      requires Admissible(interest, |events|, wait)
      modifies this`events, ReadyChannels(wait)
      ensures Valid()
      ensures old(KernelAgrees()) ==> KernelAgrees()
      ensures stamp == now
      ensures outcome == match wait
                         case Returned(ready) => if |ready| > 0 then Active(|ready|) else TimedOut
                         case Failed(e) => if e == EINTR then Interrupted else WaitError(e)
      ensures |events| == NextCapacity(old(|events|), NumEvents(wait))
      ensures wait.Returned? ==> events[..|wait.ready|] == Delivered(interest, wait.ready)
      ensures wait.Returned? ==> events[|wait.ready|..old(|events|)] == old(events)[|wait.ready|..]
      ensures |events| > old(|events|) ==> events[old(|events|)..] == EmptyEvents(old(|events|))
      ensures wait.Failed? ==> events == old(events)
      ensures |active| == |activeChannels| + (if wait.Returned? then |wait.ready| else 0)
      ensures active[..|activeChannels|] == activeChannels
      ensures wait.Returned? ==>
                forall i | 0 <= i < |wait.ready| ::
                  && active[|activeChannels| + i] == interest[wait.ready[i].fd].data
                  && active[|activeChannels| + i].revents == wait.ready[i].flags
      ensures wait.Returned? ==>
                forall i | 0 <= i < |wait.ready| :: OnlyReventsChanged(interest[wait.ready[i].fd].data)
    {
      var numEvents, saveErrno := EpollWait(wait);
      stamp := now;
      if numEvents > 0 {
        active := FillActiveChannels(numEvents, activeChannels);
        forall i | 0 <= i < numEvents
          ensures active[|activeChannels| + i] == interest[wait.ready[i].fd].data
          ensures active[|activeChannels| + i].revents == wait.ready[i].flags
          ensures OnlyReventsChanged(interest[wait.ready[i].fd].data)
        {
          assert events[i].data in RecordChannels(numEvents);
        }
        if numEvents == |events| {
          events := events + EmptyEvents(|events|);
        }
        outcome := Active(numEvents);
      } else if numEvents == 0 {
        active := activeChannels;
        outcome := TimedOut;
      } else {
        active := activeChannels;
        outcome := if saveErrno == EINTR then Interrupted else WaitError(saveErrno);
      }
    }
  }
}
