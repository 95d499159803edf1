/**
 * An abstract model of the Linux epoll facility as the poller uses it:
 * the event bits, the interest list kept by one epoll instance, the
 * epoll_ctl control operations on that list, and the records epoll_wait
 * writes into the caller's buffer.
 */
module Epoll {

  // Event bits, with the values of <sys/epoll.h> on Linux.
  const EPOLLIN: bv32 := 0x001
  const EPOLLPRI: bv32 := 0x002
  const EPOLLOUT: bv32 := 0x004
  const EPOLLERR: bv32 := 0x008
  const EPOLLHUP: bv32 := 0x010

  // errno value of an interrupted system call on Linux.
  const EINTR: int := 4

  datatype Option<+T> = None | Some(value: T)

  /** The three control operations of epoll_ctl. */
  datatype CtlOp = Add | Mod | Del

  /** Why an epoll_ctl call failed. */
  datatype CtlError =
    | AlreadyRegistered  // EEXIST: ADD on a descriptor already in the interest list
    | NotRegistered      // ENOENT: MOD or DEL on a descriptor not in the interest list
    | Fault              // any other failure the kernel may report (EBADF, ENOMEM, ...)

  /** What the kernel remembers for a registered descriptor: its mask and the user data word. */
  datatype Registration<+D> = Registration(mask: bv32, data: D)

  /** The interest list of one epoll instance, keyed by descriptor. */
  type Interest<D> = map<int, Registration<D>>

  datatype CtlResult<D> = CtlResult(interest: Interest<D>, error: Option<CtlError>)

  /**
   * epoll_ctl(op, fd, reg) on the interest list. `fault` injects a failure
   * that does not depend on the interest list. A failed call leaves the
   * interest list as it was.
   */
  function Ctl<D>(interest: Interest<D>, op: CtlOp, fd: int, reg: Registration<D>, fault: bool): (r: CtlResult<D>)
    ensures r.error.None? <==> !fault && (op.Add? <==> fd !in interest)
    ensures r.error.Some? ==> r.interest == interest
    ensures r.error.Some? && !fault ==> r.error == Some(if op.Add? then AlreadyRegistered else NotRegistered)
    ensures r.error.None? && op.Del? ==> fd !in r.interest
    ensures r.error.None? && !op.Del? ==> fd in r.interest && r.interest[fd] == reg
    ensures forall k | k != fd :: (k in r.interest <==> k in interest)
    ensures forall k | k != fd && k in interest :: r.interest[k] == interest[k]
  {
    if fault then CtlResult(interest, Some(Fault))
    else match op
      case Add =>
        if fd in interest then CtlResult(interest, Some(AlreadyRegistered))
        else CtlResult(interest[fd := reg], None)
      case Mod =>
        if fd in interest then CtlResult(interest[fd := reg], None)
        else CtlResult(interest, Some(NotRegistered))
      case Del =>
        if fd in interest then CtlResult(interest - {fd}, None)
        else CtlResult(interest, Some(NotRegistered))
  }

  /** ADD followed by DEL of a descriptor that was not registered restores the interest list. */
  lemma AddThenDelRestores<D>(interest: Interest<D>, fd: int, reg: Registration<D>, reg': Registration<D>)
    requires fd !in interest
    ensures Ctl(interest, Add, fd, reg, false).error.None?
    ensures Ctl(Ctl(interest, Add, fd, reg, false).interest, Del, fd, reg', false) == CtlResult(interest, None)
  {
    var added := Ctl(interest, Add, fd, reg, false).interest;
    assert added - {fd} == interest;
  }

  /** A second ADD of the same descriptor fails with EEXIST and changes nothing. */
  lemma AddTwiceFails<D>(interest: Interest<D>, fd: int, reg: Registration<D>, reg': Registration<D>)
    ensures var once := Ctl(interest, Add, fd, reg, false);
            Ctl(once.interest, Add, fd, reg', false) == CtlResult(once.interest, Some(AlreadyRegistered))
  {
  }

  /** MOD replaces the registration in place: the set of registered descriptors does not change. */
  lemma ModKeepsDescriptors<D>(interest: Interest<D>, fd: int, reg: Registration<D>)
    requires fd in interest
    ensures Ctl(interest, Mod, fd, reg, false).interest.Keys == interest.Keys
  {
  }

  /** One readiness report of epoll_wait before it is written to the buffer. */
  datatype Ready = Ready(fd: int, flags: bv32)

  /** The outcome of one epoll_wait call: a (possibly empty) list of reports, or -1 with errno. */
  datatype WaitResult = Returned(ready: seq<Ready>) | Failed(errno: int)

  /** A record of the epoll_wait buffer: the reported bits and the registration's user data. */
  datatype EpollEvent<+D> = EpollEvent(events: bv32, data: D)

  /**
   * What the kernel can report from an interest list into a buffer of
   * `maxEvents` records: at most `maxEvents` reports, each for a distinct
   * registered descriptor, each with at least one bit, and only bits of the
   * registered mask or the always-reported EPOLLERR and EPOLLHUP.
   */
  predicate Admissible<D>(interest: Interest<D>, maxEvents: nat, w: WaitResult) {
    w.Returned? ==>
      && |w.ready| <= maxEvents
      && (forall i | 0 <= i < |w.ready| :: w.ready[i].fd in interest)
      && (forall i, j | 0 <= i < j < |w.ready| :: w.ready[i].fd != w.ready[j].fd)
      && (forall i | 0 <= i < |w.ready| :: Reportable(w.ready[i].flags, interest[w.ready[i].fd].mask))
  }

  /** The kernel reports a descriptor with at least one bit, each in its mask or EPOLLERR or EPOLLHUP. */
  predicate Reportable(flags: bv32, mask: bv32) {
    flags != 0 && flags & (mask | EPOLLERR | EPOLLHUP) == flags
  }

  /** The records epoll_wait writes for `ready`: the report's bits with the data word of the registration. */
  function Delivered<D>(interest: Interest<D>, ready: seq<Ready>): (recs: seq<EpollEvent<D>>)
    requires forall i | 0 <= i < |ready| :: ready[i].fd in interest
    ensures |recs| == |ready|
    ensures forall i | 0 <= i < |ready| ::
              recs[i] == EpollEvent(ready[i].flags, interest[ready[i].fd].data)
  {
    seq(|ready|, i requires 0 <= i < |ready| => EpollEvent(ready[i].flags, interest[ready[i].fd].data))
  }
}
