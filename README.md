# Epoll poller and channel dispatch

A model of the event demultiplexing core of a small single-threaded reactor
library: the epoll-based poller and the per-descriptor `Channel`.

The **poller** (`EPollPoller`) keeps three things:

- a registry from descriptor to channel;
- the kernel's interest list;
- the buffer that `epoll_wait` writes its records into.

Each channel is in one of three registration states: `kNew` (unknown to the
poller), `kAdded` (in the registry and in the kernel's list) or `kDeleted`
(still in the registry, deleted from the kernel's list). `updateChannel` and
`removeChannel` move a channel between these states by issuing ADD, MOD and
DEL control operations. A failed DEL is only logged; a failed ADD or MOD is
fatal. `poll` waits once, turns the records of that wait into the ordered
list of active channels, stamps each channel with the bits reported for it,
and doubles its buffer when a wait fills it.

The **channel** (`Channel`) holds its interest mask, the bits last reported
for it, its registration state, which callbacks are set and an optional weak
owner. Dispatch goes ahead only when the channel is untied or its owner is
still alive. It then fires the close, error, read and write callbacks, in
that fixed order, each selected by a test on the reported bits.

The project has three modules:

- `Epoll` (epoll.dfy) models the kernel facility.
  - The event bits have their Linux values.
  - `epoll_ctl` is the pure function `Ctl` over an interest map from
    descriptor to (mask, data word). ADD fails with EEXIST on a registered
    descriptor. MOD and DEL fail with ENOENT on an unregistered one. A
    `fault` flag stands for every other failure. A failed call changes
    nothing.
  - `epoll_wait` is an input, a `WaitResult`. `Admissible` bounds what the
    kernel may report: at most the buffer size, distinct registered
    descriptors, and non-zero bits drawn from the registered mask or
    EPOLLERR/EPOLLHUP.
- `Channels` (channel.dfy) holds the `Channel` class, the weak owner
  `Owner`, and the callback selection as pure functions (`Dispatch`,
  `Fires`).
- `EPollPollers` (epoll_poller.dfy) holds the `EPollPoller` class and the
  buffer-capacity functions.

The poller's invariant `Valid` holds whatever the kernel answers: a
non-empty buffer, registry entries keyed by their channel's descriptor,
every registered channel in state `kAdded` or `kDeleted`, and kernel data
words keyed by their descriptor. `KernelAgrees` is stronger. It says a
descriptor is in the interest list exactly when its registry channel is
`kAdded`, and that its data word points back to that channel. An update or
removal preserves it when its control call succeeds and the channel is the
one the registry holds for its descriptor (`Owns`). `Owns` is needed: a
second channel on a descriptor whose registered channel is `kDeleted` can
be ADDed without matching the registry. `poll` always preserves it.

When the wait fails with an errno other than EINTR, the code in
EPollPoller.cpp:59-65 only logs the failure (LOG_ERROR) and returns normally.
It does not abort. The model follows the code: `Poll` reports
`WaitError(errno)` and keeps going.

## Model

Some definitions carry no contract of their own. Each states a source fact
that the members in the table then use:

- `Epoll.NumEvents` is epoll_wait's return value, the count or -1 (EPollPoller.cpp:42).
- `Epoll.Admissible` is what the kernel guarantees about a wait's reports.
- `Epoll.Delivered` gives the records epoll_wait writes.
- `EPollPollers.NextCapacity` is the resize decision of EPollPoller.cpp:50-53.
- `EPollPollers.EmptyEvents` gives the value-initialised records a resize appends (EPollPoller.cpp:52).
- `Channels.Channel.OwnerAlive` is the `tie_.lock()` test of Channel.cpp:26.
- `Channels.Channel.IsNoneEvent` is the test used at EPollPoller.cpp:96.

Their properties are stated by `EpollWait`, `Poll`, `FullWaitDoubles`,
`UpdateChannel` and `HandleEvent`.

| member | source | states |
|---|---|---|
| Epoll.Ctl | EPollPoller.cpp:149 | epoll_ctl succeeds exactly when there is no fault and ADD meets an unregistered descriptor or MOD/DEL a registered one; a failure is EEXIST for ADD, ENOENT otherwise, and leaves the interest list unchanged; success inserts or replaces (ADD, MOD) or removes (DEL) that descriptor only |
| Epoll.AddThenDelRestores | EPollPoller.cpp:83-100 | ADD of an unregistered descriptor followed by DEL succeeds and restores the interest list exactly |
| Epoll.AddTwiceFails | EPollPoller.cpp:149-158 | a second ADD of a descriptor fails with EEXIST and changes nothing |
| Epoll.ModKeepsDescriptors | EPollPoller.cpp:101-104 | MOD of a registered descriptor leaves the set of registered descriptors unchanged |
| Channels.InterestMasks | Channel.cpp:7-9 | kNoneEvent = 0, kReadEvent = EPOLLIN or EPOLLPRI = 0x003, kWriteEvent = EPOLLOUT = 0x004; read and write masks are disjoint and neither includes EPOLLERR or EPOLLHUP |
| Channels.Dispatch | Channel.cpp:61-92 | each of the four callbacks is in the fired list exactly when its test passed and it is set |
| Channels.Fires | Channel.cpp:61-92 | close fires exactly on EPOLLHUP without EPOLLIN, error exactly on EPOLLERR, read (with the receive time) exactly on EPOLLIN or EPOLLPRI, write exactly on EPOLLOUT, each only when its callback is set; several can fire in one dispatch |
| Channels.DispatchInOrder | Channel.cpp:61-92 | the fired callbacks appear in strictly increasing order close, error, read, write, so each at most once, and every read callback gets the dispatch's time |
| Channels.FiresInOrder | Channel.cpp:61-92 | the same order and receive-time property for every reported mask and every set of callbacks |
| Channels.HangupWithInput | Channel.cpp:64-70 | a hang-up reported together with EPOLLIN never fires close, and fires read when the read callback is set |
| Channels.AllBitsAllCallbacks | Channel.cpp:61-92 | with all callbacks set and all five bits reported, exactly error, read, write fire, in that order |
| Channels.Channel.constructor | Channel.cpp:12-15 | a new channel has its descriptor, events 0, revents 0, index -1 (kNew), is not tied and has no callbacks |
| Channels.Channel.Tie | Channel.cpp:38-42 | after tie the channel is tied to the given owner |
| Channels.Channel.HandleEvent | Channel.cpp:22-35 | a tied channel whose owner is gone fires nothing; an untied channel, or one whose owner is alive, fires exactly `Fires` of its reported bits; no field changes |
| Channels.Channel.HandleEventWithGuard | Channel.cpp:61-92 | the four sequential bit tests fire exactly `Fires(revents, callbacks, receiveTime)`; no field changes |
| EPollPollers.Classify | EPollPoller.cpp:149-159 | a control call is fine exactly when epoll_ctl succeeded; a failed DEL is logged only, a failed ADD or MOD is fatal, both carrying the kernel's error |
| EPollPollers.FullWaitDoubles | EPollPoller.cpp:50-53 | with a positive capacity, the capacity changes exactly when the wait filled the buffer, and then doubles |
| EPollPollers.CapacityDoublesPerFullWait | EPollPoller.cpp:46-53 | after any run of waits the capacity is the initial one times two to the number of waits that filled the buffer |
| EPollPollers.CapacityNeverShrinks | EPollPoller.cpp:50-53 | the buffer capacity never decreases and stays positive |
| EPollPollers.EPollPoller.constructor | EPollPoller.cpp:16-25 | a new poller has an empty registry and interest list and a buffer of the initial size, and satisfies both invariants |
| EPollPollers.EPollPoller.Update | EPollPoller.cpp:138-160 | the interest list becomes epoll_ctl's result for the channel's descriptor with its current mask and a pointer to it, and the outcome is that result classified |
| EPollPollers.EPollPoller.UpdateChannel | EPollPoller.cpp:78-106 | kNew and kDeleted channels are ADDed and become kAdded, only kNew ones entering the registry (so a kDeleted channel reuses its entry), even with no interest; a kAdded channel with no interest is DELeted and becomes kDeleted, keeping its entry; otherwise it is MODified with index and registry kept; the invariant is kept; when the kernel agreed, the registry held this channel for its descriptor and the call succeeds, the kernel still agrees and the channel is kAdded exactly when registered with its current mask |
| EPollPollers.EPollPoller.RemoveChannel | EPollPoller.cpp:109-122 | the descriptor leaves the registry, DEL is issued exactly when the channel was kAdded, the channel ends kNew; when the kernel agreed, the registry held this channel for its descriptor and the call succeeds, the kernel still agrees and the descriptor is in neither the registry nor the interest list |
| EPollPollers.EPollPoller.RemoveTwice | EPollPoller.cpp:109-122 | a second removal issues no control operation, reports success and changes neither registry nor interest list |
| EPollPollers.EPollPoller.EpollWait | EPollPoller.cpp:42-43 | the wait returns the number of reports (or -1 and errno), writes exactly the delivered records (each report's bits with the data word registered for its descriptor, in report order) into the front of the buffer, leaves the rest and the buffer size unchanged, and names distinct registered channels |
| EPollPollers.EPollPoller.FillActiveChannels | EPollPoller.cpp:127-135 | exactly the channels of the first numEvents records are appended, in buffer order, after the existing list; each is stamped with its record's bits (the later record wins for a repeated channel); nothing but revents changes, and both invariants are kept |
| EPollPollers.EPollPoller.ActiveChannelsReported | EPollPoller.cpp:127-135 | every channel a wait appended carries non-zero bits and, when the kernel agrees with the registry, is the kAdded registry channel of its descriptor |
| EPollPollers.EPollPoller.Poll | EPollPoller.cpp:37-68 | returns the time read after the wait; more than 0 events means active channels (appended in report order, stamped with their bits), 0 a timeout, -1 with EINTR an interruption and any other errno a logged wait error; the buffer doubles exactly when the wait filled it, the delivered records lead it, the old records after them stay, and the grown half is value-initialised records; a failed wait leaves the buffer and the list alone; both invariants are kept |

## Left out

- The system calls `epoll_create1`, `epoll_ctl`, `epoll_wait` and `close` are replaced by the interest-map model. A wait's results and any control-call failure other than EEXIST/ENOENT are inputs (`wait`, `fault`). A failing `epoll_create1` (fatal) and the destructor's `close` are not modelled.
- Logging (`LOG_INFO`, `LOG_DEBUG`, `LOG_ERROR`, `LOG_FATAL`) and the `errno` plumbing. A fatal log becomes the outcome `CtlFatal`, a logged error `CtlLogged` or `WaitError`. The model returns these outcomes and does not stop the process.
- `Timestamp::now()` is not modelled; `Poll` gets the time as the input `now`. The timeout argument only matters to the kernel, so it is an unused input.
- `Channel::update` and `Channel::remove` only forward through the event loop to the poller. Callers of the model call `EPollPoller.UpdateChannel` and `RemoveChannel` directly. The event loop is not part of this model.
- Thread affinity and concurrency: the reactor runs on one thread.
- `shared_ptr`/`weak_ptr`: the weak owner is an `Owner` object with an `alive` flag, and `lock()` succeeds when it is present and alive.
- The `data.fd`/`data.ptr` union of the epoll record: only the pointer is read back, so a registration carries the channel itself.
- noncopyable.h only forbids copying at compile time.
- `kInitEventListSize` comes from a header that is not part of this model. It is the constructor's parameter, which must be positive.
- Channel.h, with the callback setters and the enable/disable helpers that change `events`, is not part of this model. Callbacks are booleans saying whether each is set, and `events` is a plain field.
- HandleEvent: the callbacks' own effects are not modelled. The result is the list of callbacks that fire, in order.
- FillActiveChannels: requires `0 <= numEvents <= |events|` and non-null records. Its only caller, `poll`, passes a positive count no larger than the buffer, and the kernel writes only registered data words. The source's behaviour outside those bounds is undefined.
- Channel.events, Channel.revents: the source's `int` masks are 32-bit vectors, because only the five epoll bits are ever set.
