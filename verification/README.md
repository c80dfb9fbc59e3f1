# portmap: verified models of its concurrent and stream-processing cores

portmap forwards TCP and UDP ports and serves a SOCKS5/HTTP proxy, optionally through an SSH
upstream. This project models the parts of it in which many small critical sections, single atomic
operations or partial reads have to add up to one simple promise, and proves the promise for every
interleaving, every chunking of a stream, or every input. `dafny verify dfyconfig.toml` checks it all.

## How the models are built

Concurrent cores (the sampler, the SSH client cache, the agent keyring, the UDP session table, the
server's connections and its lazily built parts, the tunnel idle clock) have two layers:

- a `...Spec` module with the state of the shared object, what every goroutine currently holds, and
  `Next(state, step)`, one case per lock-held block, single atomic operation or environment event.
  `Inv` is proved to survive every step, and the run theorems quantify over all step sequences, that
  is over all schedules;
- a class with the source's own fields, whose methods are those blocks in the source's own form.
  Each method's contract says `Next(old(View()), step) == Some(View())`, so what it does is exactly
  one step of the machine, and says outright what it returns and what becomes of the shared fields.
  Ghost fields record what the goroutines hold.

Safety alone would hold of a server that never serves, so most machines also have theorems of the
form "from every reachable state some run leads to ...": an open cache reconnects, an open server
relays, a forwarder comes to rest and serves again, all calls of the sampler finish.

Stream code (HTTP heads, replayed responses, SOCKS5) is modelled on a buffered reader over a source
that delivers arbitrary nonempty chunks, and proved against functions of the byte stream alone.

| file | what it models |
|---|---|
| `TcpIdle.dfy` | the idle timeout of a tunnel: a reference machine, the lazy form, the eager form |
| `IdleForms.dfy` | the lazy form against the eager one: exactly which lazy runs show what some eager run shows |
| `IdleSteps.dfy` | the same, step for step, and the guard at a retry that is enough for it |
| `TcpIdleCalls.dfy` | `touch`, `arm`, `retry`, `Read`, `Write` as loops over atomics with interference; `refreshDeadline` |
| `SshCache.dfy`, `AgentKeyring.dfy` | who owns each SSH transport and each agent connection |
| `ServerConns.dfy` | tracking of clients and remotes, deadlines, `Close` and `Shutdown` |
| `ServerConnsProgress.dfy` | what the server can always still do: relay a new client, come to rest |
| `ServerSetup.dfy` | dialer, context and listener against a shutdown that may start at any point |
| `UdpSessions.dfy` | session table, semaphore, dying relays, rebuilding a session |
| `UdpProgress.dfy` | what the forwarder can always still do: come to rest, open a session again |
| `Sampler.dfy` | the lock-free reservoir sampler of the load tester |
| `SamplerFairness.dfy` | its random choice: every sample equally likely to be kept |
| `SamplerProgress.dfy` | failed swaps, and how calls end |
| `HttpStream.dfy` | head framing, replay of response heads, the buffered reader |
| `HeaderList.dfy` | splitting header lists and dropping one member |
| `Socks5.dfy` | the SOCKS5 request codec |
| `AdminMerge.dfy` | merging the admin options of many instances |
| `Common.dfy` | options, bytes, counting |

## Where the code and what it promises differ

- The sampler's maximum starts at 0, so `extrema` is the exact maximum if and only if some sample is
  not negative, and 0 otherwise (`SamplerSpec.QuiescentExtrema`; `SamplerSpec.NegativeMaximumIsMissed`
  is a run that misses). The callers pass measured durations, which are never negative. The minimum
  is always exact.
- A rebuilt UDP session can be refused for want of a token when the two-second fallback expires
  before the old relay is gone. `UdpSessionsSpec.FallbackCanBeRefused` gives the schedule;
  `UdpSessionsSpec.RebuildRefusedOnlyBeforeRelease` proves that with a single dispatcher the refusal
  happens exactly while the old session keeps its token and the other sessions hold all the rest.
- A second call of `stopAccepting` (a `Close` after a `Shutdown`) extends the shutdown deadline of the
  remaining handshakes to its own instant, which is past as soon as it is set.
  `ServerConnsSpec.SecondStopExtends` gives the run; `ServerConnsSpec.ExtendedExactly` and, over whole
  runs, `ServerConnsSpec.ShutdownDeadlineIsExtendedExactly` prove that this is exactly when a deadline
  moves; `ServerConnsSpec.HandshakesAreExpired` keeps every such deadline between the first shutdown
  and now.
- Two things about merging admin options depend on the order of the instances. A log capacity that no
  web panel uses does if and only if the instances disagree on it
  (`AdminMergeSpec.UnusedCapacityFollowsOrder`). Which address a refusal names does as well: some order
  is refused over the stats address if and only if two instances differ on it, and some order over the
  web address if and only if two instances differ on that and not on the stats address too
  (`AdminMergeSpec.RefusedOverStats`, `AdminMergeSpec.RefusedOverWeb`; `AdminMerge.RefusalFollowsOrder`
  is a list that has both). Success and everything that is used of the result do not.
- The lazy idle form is no refinement of the eager one on every schedule. It samples the clock and
  publishes the sample in two steps, which the eager form does under one lock; in the run of
  `IdleForms.LateRecordingIsNotEager` a call samples, is overtaken by another call's timeout, only then
  publishes, and what the run shows no eager run shows. The exact condition, for every lazy run, is
  `IdleForms.EagerTooExactlyWhenSpaced`: some eager run shows the same calls entered and ended at the
  same instants with the same outcomes if and only if every refresh owed has room, that is, between
  the event that owes it (a call entered, or ended with bytes moved) and the next event of its
  direction there is a moment after which nothing expires for a whole timeout. In the code's own terms
  it is enough that each refused retry comes a whole timeout after `last` and after every sample still
  on its way there (`IdleSteps.GuardedTunnelIsEager`). With the eager refresh placed where the lazy form
  samples, the eager form can go along state by state if and only if every timeout comes a whole
  timeout after the latest sample of a call that enters or returns (`IdleSteps.FollowsExactlyWhenRested`).
  On all schedules the lazy form keeps the promise itself: a timeout only once the tunnel is idle, and
  a blocked call returned then.

## Model

| member | source | states |
|---|---|---|
| `IdleReference.Deadline` | internal/netutil/tcp_idle.go:55-62 | the computed deadline is min(last + timeout, 2^63-1), and no int64 operation on the way can wrap |
| `LazyIdleSpec.RunKeepsInv` | internal/netutil/tcp_idle.go:44-155 | on every run installed deadlines never exceed `deadline()`, the activity clock never decreases nor passes now, and retries are paid for |
| `LazyIdleSpec.StepRefines` | internal/netutil/tcp_idle.go:44-155 | each step of the lazy form is one reference step or invisible |
| `LazyIdleSpec.LazyRefinesReference` | internal/netutil/tcp_idle.go:44-155 | every interleaved run of the four directions is, seen from outside, a run of the reference |
| `LazyIdleSpec.TimeoutOnlyWhenIdle` | internal/netutil/tcp_idle.go:100-109 | in every reachable state a reported timeout implies now >= last activity + timeout (saturated) |
| `LazyIdleSpec.BlockedIsReturnedExactlyWhenIdle` | internal/netutil/tcp_idle.go:78-109 | in every reachable state a blocked call's socket deadline is never after the idle instant; once woken it returns a timeout if and only if the tunnel is idle, and otherwise arms again |
| `LazyIdleSpec.RetryInstallsLaterDeadline` | internal/netutil/tcp_idle.go:78-98 | after a stale timeout `arm` never takes a shortcut and installs a strictly later deadline |
| `LazyIdleSpec.RetriesArePaidFor` | internal/netutil/tcp_idle.go:100-155 | retries of a call <= 1 + advances of the shared clock during it, and each further retry needs a fresh advance |
| `LazyIdleSpec.AdvancesCountMoves` | internal/netutil/tcp_idle.go:44-51 | the activity clock only moves forward, never past now, one counted advance per successful swap |
| `EagerIdleSpec.RunKeepsInv` | internal/netutil/netutil.go:132-146 | on every run both endpoints carry the same deadline, last refresh + timeout, once anything is in flight |
| `EagerIdleSpec.EagerRefinesReference` | internal/netutil/netutil.go:126-221 | the shared eager form on sockets that accept deadlines never times out before the reference would let it |
| `EagerIdleSpec.EagerTimesOutExactlyWhenIdle` | internal/netutil/netutil.go:132-146 | an eager operation in flight can time out if and only if now >= last refresh + timeout |
| `IdleForms.EagerTooExactlyWhenSpaced` | internal/netutil/tcp_idle.go:44-155 | for every lazy run of every tunnel: some eager run shows the same calls, instants and outcomes if and only if every refresh owed has room in what was shown |
| `IdleForms.RoomIsAMoment` | internal/netutil/netutil.go:132-146 | having room, by positions: p events on, none of them of that direction, a refresh lies a whole timeout before every later expiry |
| `IdleForms.EagerIsSpaced` | internal/netutil/netutil.go:126-221 | whatever an eager run shows is spaced |
| `IdleForms.SpacedIsEager` | internal/netutil/netutil.go:126-221 | whatever is spaced and takes its turns is shown by some eager run |
| `IdleForms.LazyIsProper` | internal/netutil/tcp_idle.go:111-155 | each direction of the lazy form shows its calls entered and ended in turn, and time does not run back |
| `IdleForms.LateRecordingIsNotEager` | internal/netutil/tcp_idle.go:44-51 | a concrete lazy run, recording a sample late, that shows what no eager run shows |
| `IdleSteps.StepFollows` | internal/netutil/tcp_idle.go:44-155 | with the refresh where the lazy form samples, the eager form can follow a step if and only if a timeout it reports comes a whole timeout after the latest sample |
| `IdleSteps.FollowsExactlyWhenRested` | internal/netutil/tcp_idle.go:44-155 | the eager form can follow a lazy run, late recordings and resumed half-moved writes included, if and only if every timeout in it does |
| `IdleSteps.RestedLazyIsEager` | internal/netutil/netutil.go:126-221 | such a run is an eager run with the same calls, instants and outcomes; the eager form then ends every operation by its deadline if and only if the lazy form does |
| `IdleSteps.GuardedIsRested` | internal/netutil/tcp_idle.go:100-109 | it is enough that each refused retry comes a whole timeout after last and after every sample still on its way |
| `IdleSteps.GuardedTunnelIsEager` | internal/netutil/tcp_idle.go:30-36 | the same from the start of any tunnel with a positive timeout |
| `TcpIdleCalls.OthersKeepRely` | internal/netutil/tcp_idle.go:44-155 | any run of the clock and the other three directions satisfies what the method proofs assume of interference |
| `TcpIdleCalls.Tunnel.Touch` | internal/netutil/tcp_idle.go:44-51 | the compare-and-swap loop ends with last at or past the call's own sample, for any interference |
| `TcpIdleCalls.Tunnel.TrySwap` | internal/netutil/tcp_idle.go:46-50 | a swap fails only if another direction has moved the clock strictly forward |
| `TcpIdleCalls.Tunnel.Arm` | internal/netutil/tcp_idle.go:78-98 | due never decreases; an arm after expiry that succeeds strictly increases it; it fails only if the socket refuses |
| `TcpIdleCalls.Tunnel.ArmLocked` | internal/netutil/tcp_idle.go:84-97 | under the direction's lock: due never decreases, and strictly increases after an expiry |
| `TcpIdleCalls.Tunnel.Install` | internal/netutil/tcp_idle.go:93-97 | due is recorded if and only if the socket took the deadline |
| `TcpIdleCalls.Tunnel.Retry` | internal/netutil/tcp_idle.go:100-109 | a refusal to retry names a state of the call in which the tunnel was idle |
| `TcpIdleCalls.Tunnel.AfterTimeout` | internal/netutil/tcp_idle.go:138-149 | the verdict is reached before the progress is recorded, so partial progress cannot revive an idle tunnel |
| `TcpIdleCalls.Tunnel.WriteOnce` | internal/netutil/tcp_idle.go:134-153 | one turn hands the socket a prefix of the rest, once; n is what the socket took; a turn that ends reports no error exactly for a completed socket call or a timeout with everything taken, the socket's error only for its failure, a deadline error only for a refused deadline, an idle timeout only for a timed-out call; one that goes on was timed out and left something |
| `TcpIdleCalls.Tunnel.Write` | internal/netutil/tcp_idle.go:129-155 | for any partial results, stale timeouts and interference the socket takes exactly payload[..total]; no error means total = len(payload); every turn but the last was timed out, and the last one explains the error as in `WriteOnce`, so with deadlines accepted and socket calls completed there is none; an idle timeout means the tunnel was idle when judged; retries <= 1 + clock advances; the clock is at or past the call's start |
| `TcpIdleCalls.Tunnel.ReadOnce` | internal/netutil/tcp_idle.go:115-125 | one turn of Read goes on only after a timeout, with nothing read and a later deadline to follow; otherwise n and the error are the socket's own |
| `TcpIdleCalls.Tunnel.Read` | internal/netutil/tcp_idle.go:111-127 | n and the error are those of the last socket call, every earlier one was timed out; an idle timeout carries no bytes and means the tunnel was idle when judged; retries <= 1 + clock advances |
| `EagerIdleCalls.IdleGroup.RefreshDeadline` | internal/netutil/netutil.go:132-146 | every endpoint that accepts gets the same new deadline even past a refusal, and the first refusal is reported |
| `EagerIdleCalls.IdleGroup.Touch` | internal/netutil/netutil.go:189-221 | on working sockets a refresh is the machine's one locked refresh step |
| `SshCacheSpec.StepKeepsInv` | internal/proxy/upstream.go:759-985 | custody, single flight, probe and channel invariants survive every step |
| `SshCacheSpec.RunKeepsInv` | internal/proxy/upstream.go:759-985 | on every run an evicted client is never cached again and closed stays closed |
| `SshCacheSpec.EvictedStaysOut` | internal/proxy/upstream.go:955-962 | a published client that is not current never becomes current again |
| `SshCacheSpec.ClosedDialerLeaksNothing` | internal/proxy/upstream.go:966-984 | once Close has run and all goroutines are done, every transport ever dialled is closed and the cache is empty |
| `SshCacheSpec.ExactlyOneCustody` | internal/proxy/upstream.go:787-818 | in every reachable state each dialled transport is cached, unpublished in one dialler's hands, waiting for its close, or closed: exactly one of the four |
| `SshCacheSpec.SingleFlight` | internal/proxy/upstream.go:771-796 | at most one handshake is in progress, and while one is the cache is empty |
| `SshCacheSpec.PublicationNeverOverwrites` | internal/proxy/upstream.go:789-796 | the cache changes to a client only by a publication into an empty, open cache, of a client never published before |
| `SshCacheSpec.NoLostWakeup` | internal/proxy/upstream.go:771-796 | a waiter can go on now or a live dialler's publication will let it |
| `SshCacheSpec.StaleDiscardIsHarmless` | internal/proxy/upstream.go:955-962 | discarding a client that is not current changes nothing but who must close it, and on no run from there does that client come back |
| `SshCacheSpec.OnlyEvictedTransportsAreClosed` | internal/proxy/upstream.go:955-984 | no step closes the cached transport or one still to be published |
| `SshCacheSpec.OneProbePerClient` | internal/proxy/upstream.go:627-649 | revalidation starts a probe only for the current client and only when nobody probes it, even after the marker was overwritten |
| `SshCacheSpec.OpenDialerReconnects` | internal/proxy/upstream.go:759-818 | from every reachable state of an open dialer some run ends with a client cached |
| `SshCacheSpec.DiscardedIsReplaced` | internal/proxy/upstream.go:955-962 | after a discard on an open dialer some run caches a client, and it is not the discarded one |
| `SshCache.SshDialer.GetClient` | internal/proxy/upstream.go:759-785 | third block: a cached client is handed out; otherwise, while a handshake is under way, its channel to wait on; otherwise, unless closed, the caller becomes the dialler with a fresh channel; closed hands out nothing |
| `SshCache.SshDialer.PublishDial` | internal/proxy/upstream.go:787-806 | clears the marker and closes its channel; publishes the client unless the dialer is closed, and then leaves the transport with its dialler to close |
| `SshCache.SshDialer.Discard` | internal/proxy/upstream.go:955-962 | clears the cache only if the client is still current; the caller always closes the client |
| `SshCache.SshDialer.RevalidateAfterTimeout` | internal/proxy/upstream.go:627-634 | a probe starts exactly when the client is current, the dialer open and the client not marked as being probed; then the marker is set |
| `SshCache.SshDialer.FinishProbe` | internal/proxy/upstream.go:643-647 | clears the marker exactly if it is this client's |
| `SshCache.SshDialer.Close` | internal/proxy/upstream.go:966-976 | takes the client out for closing; exactly the first call signals done |
| `AgentKeyringSpec.StepKeepsInv` | internal/proxy/upstream.go:442-492 | every open agent connection has exactly one keeper |
| `AgentKeyringSpec.ClosedKeyringLeaksNothing` | internal/proxy/upstream.go:482-492 | after Close and the last callback, every agent connection ever dialled is closed |
| `AgentKeyringSpec.OneIdleConnection` | internal/proxy/upstream.go:466-480 | an open connection nobody handles is the current one of an open keyring |
| `AgentKeyring.Keyring.BeginSigners` | internal/proxy/upstream.go:442-448 | a call after Close is refused at once, any other goes on to dial |
| `AgentKeyring.Keyring.SwapIn` | internal/proxy/upstream.go:466-480 | swaps in, or after Close hands the offered connection back to be closed |
| `AgentKeyring.Keyring.Close` | internal/proxy/upstream.go:482-492 | empties and closes the keyring, handing out what must be closed |
| `ServerConnsSpec.RunKeepsInv` | internal/proxy/server.go:319-428 | on every run, for every client, the three sets, its sockets, its stamps and the wait group agree with how far its handler has got |
| `ServerConnsSpec.NothingIsAdmittedAfterClosing` | internal/proxy/server.go:319-388 | on every run from closing on, conns, handshakes, remotes and the wait group only shrink |
| `ServerConnsSpec.NoUntrackedRemoteIsOpen` | internal/proxy/http.go:152-158 | an open remote that is not tracked is in the hands of a handler that has yet to track or close it |
| `ServerConnsSpec.NothingEscapesShutdown` | internal/proxy/server.go:342-403 | after stopAccepting and a finished closeActiveConns, a socket still open is held by the accept loop or a handler whose next tracking step is refused and closes it |
| `ServerConnsSpec.IdleWaitGroup` | internal/proxy/server.go:334-340 | a wait group at zero means conns, handshakes and remotes are empty and only the accept loop can hold a socket |
| `ServerConnsSpec.CloseReturnsClean` | internal/proxy/server.go:182-188 | from the start, when Close's wait is over the server is closing, swept and tracks nothing |
| `ServerConnsSpec.TrackingNests` | internal/proxy/server.go:319-362 | on every run handshakes and remotes are among conns, conns within the limit, and the wait group is never below conns |
| `ServerConnsSpec.HandshakesAreExpired` | internal/proxy/server.go:364-376 | once closing is set every handshake carries a deadline between the shutdown instant and now |
| `ServerConnsSpec.ShutdownDeadlineIsExtendedExactly` | internal/proxy/server.go:294-376 | along any run from closing on, a connection still in handshakes has had its deadline extended if and only if stopAccepting was called again after that deadline; it never moves back |
| `ServerConnsSpec.PromotedIsNeverStamped` | internal/proxy/server.go:407-428 | a connection promoted to a relay was stamped by no shutdown, and on no run from there is it stamped or a handshake again, nor does a stopAccepting touch its deadline |
| `ServerConnsSpec.ExtendedExactly` | internal/proxy/server.go:364-376 | one step moves a handshake's deadline during shutdown if and only if it is a stopAccepting later than that deadline |
| `ServerConnsSpec.SecondStopExtends` | internal/proxy/server.go:364-376 | a reachable state in which a second stopAccepting moves a handshake's deadline from 0 to 5 |
| `ServerConnsSpec.PastHandshakeRun` | internal/proxy/server.go:407-418 | a connection that has left the handshakes unstamped stays so on every run |
| `ServerConnsSpec.RunKeepsTimed` | internal/proxy/server.go:294-317 | on every run, under a handshake timeout, a handler reads its request with a deadline set and is past the handshake without one, unless a shutdown stamped it |
| `ServerConnsSpec.ReadingIsTimed` | internal/proxy/server.go:297-304 | under a handshake timeout no reachable handler reads a request without a deadline on its client's socket |
| `ServerConnsSpec.CompletedIsUntimed` | internal/proxy/server.go:306-317 | from the end of the handshake to the relay the client has no deadline but one a shutdown gave it |
| `ServerConnsProgress.ComesToRest` | internal/proxy/server.go:182-220 | from every reachable state, with any handlers, refused sockets and calls of Close or Shutdown under way, some run without a new shutdown ends with nothing tracked, the wait group at zero, every call returned and every socket closed |
| `ServerConnsProgress.HandlerFinishes` | internal/proxy/server.go:319-362 | any handler, wherever it stands, can go to its end and leave the wait group, nothing else moving |
| `ServerConnsProgress.CloserFinishes` | internal/proxy/server.go:390-403 | a call of Close or Shutdown, wherever it stands, can return once the handlers are done |
| `ServerConnsProgress.OpenServerRelays` | internal/proxy/server.go:294-428 | from every reachable state before closing some run relays a new client: promoted, tracked with its remote, both sockets open, no deadline left |
| `ServerConns.Server.TrackConn` | internal/proxy/server.go:319-332 | admits exactly when not closing and below the limit, into conns and handshakes both |
| `ServerConns.Server.UntrackConn` | internal/proxy/server.go:334-338 | leaves conns and handshakes with the client's socket closed and its remote gone |
| `ServerConns.Server.ReleaseWaitGroup` | internal/proxy/server.go:339 | the last Done means nothing is tracked |
| `ServerConns.Server.TrackOutbound` | internal/proxy/server.go:345-356 | refused once closing is set, with the remote left to its handler |
| `ServerConns.Server.UntrackOutbound` | internal/proxy/server.go:358-362 | a remote leaves the set only after it was closed |
| `ServerConns.Server.SetInitialDeadline` | internal/proxy/server.go:297-304 | succeeds exactly before closing on a socket that accepts, and then the client's deadline is the one given; otherwise no deadline changes |
| `ServerConns.Server.ClearHandshakeDeadline` | internal/proxy/server.go:310-317 | succeeds exactly before closing on a socket that accepts, and then the client has no deadline; the connection stays a handshake |
| `ServerConns.Server.Promote` | internal/proxy/server.go:407-418 | leaves the handshakes only before closing, unstamped |
| `ServerConns.Server.StampHandshakes` | internal/proxy/server.go:372-375 | the loop gives every handshake, and nobody else, the present instant |
| `ServerConns.Server.StopAccepting` | internal/proxy/server.go:364-376 | one block: closing raised and every handshake stamped, all other deadlines untouched |
| `ServerConns.Server.SnapshotActive` | internal/proxy/server.go:390-399 | the list holds exactly the tracked clients and remotes, once each |
| `ServerSetupSpec.StepKeepsInv` | internal/proxy/server.go:555-605 | one constructor at a time; a published dialer is never replaced; every open dialer or listener has someone who closes it |
| `ServerSetupSpec.NoDialerOutlivesShutdown` | internal/proxy/server.go:182-220 | once a shutdown has finished and no constructor is under way, every dialer is closed |
| `ServerSetupSpec.LateConstructorCleansUp` | internal/proxy/server.go:591-605 | a constructor that finishes after shutdown began keeps its dialer, which is never published on any run from there, and closes it next |
| `ServerSetupSpec.DialerIsSettledByClosing` | internal/proxy/server.go:593-605 | once closing is set no run publishes a dialer |
| `ServerSetupSpec.NoContextOutlivesShutdown` | internal/proxy/server.go:282-292 | with closing set and no cancel outstanding, a context is cancelled or will be created cancelled |
| `ServerSetupSpec.ContextIsLiveUntilClosing` | internal/proxy/server.go:282-292 | on every run, until closing is set the context handed out is live |
| `ServerSetupSpec.OpenServerGetsDialer` | internal/proxy/server.go:555-605 | an open server that nobody is initializing can publish a dialer |
| `ServerSetupSpec.NoListenerOutlivesShutdown` | internal/proxy/server.go:132-180 | with closing set and no stop or start in between, no listener is open |
| `ServerSetupSpec.OneServer` | internal/proxy/server.go:146-178 | no two goroutines serve at once, and the one that does serves the published listener |
| `ServerSetup.Setup.InstallDialer` | internal/proxy/server.go:593-605 | publishes exactly when not closing; otherwise the dialer stays with its constructor |
| `ServerSetup.Setup.ServerContext` | internal/proxy/server.go:282-292 | creates the context if there is none, cancelled exactly during shutdown, and else hands out the one there is: live before closing, cancelled or with its cancel on the way during shutdown |
| `ServerSetup.Setup.Publish` | internal/proxy/server.go:146-167 | one listener at a time, none during shutdown |
| `ServerSetup.Setup.StopAccepting` | internal/proxy/server.go:364-388 | takes down what this call must cancel and close |
| `UdpSessionsSpec.StepKeepsInv` | internal/forward/udp.go:129-311 | tokens, table, sockets and relays stay consistent under every step |
| `UdpSessionsSpec.ActiveWithinTokens` | internal/forward/udp.go:138-174 | tokens in use = gets between acquiring and publishing + sessions not yet released, and active <= tokens <= MaxConns |
| `UdpSessionsSpec.QuiescentIsEmpty` | internal/forward/udp.go:195-215 | from the start: with every get returned and every relay done, no token, no active session, empty table, no open socket |
| `UdpSessionsSpec.FreeTokenOpensSession` | internal/forward/udp.go:129-174 | with a token free, a packet of a client without a session opens one, listed and counted, on a new socket |
| `UdpSessionsSpec.FailedWriteRebuilds` | internal/forward/udp.go:289-303 | a first failed write takes its own session off the table and, once that is done, looks its key up a second time |
| `UdpProgress.ComesToRest` | internal/forward/udp.go:129-311 | from every reachable state some run ends with no get, no token, no active session, an empty table and no open socket |
| `UdpProgress.NeverRunsDry` | internal/forward/udp.go:129-174 | unless the limit is zero, from every reachable state some run serves any given client, on a socket no session had before |
| `UdpSessionsSpec.OnlyItsOwnExitUnlists` | internal/forward/udp.go:249-258 | an entry leaves the table only through its own relay, the failed writer that holds it, or closeAll, and is never overwritten |
| `UdpSessionsSpec.RebuildRefusedOnlyBeforeRelease` | internal/forward/udp.go:289-303 | with the single dispatcher, the second get finds the semaphore full if and only if the old session still keeps its token and the others hold all the rest; after its done it is never refused |
| `UdpSessionsSpec.SingleDispatcherNeverBacksOut` | internal/forward/udp.go:159-169 | with the single dispatcher the second look at the table never finds a rival |
| `UdpSessionsSpec.FallbackCanBeRefused` | internal/forward/udp.go:298-301 | a concrete schedule in which the two-second fallback makes the rebuild fail |
| `UdpSessions.Sessions.Find` | internal/forward/udp.go:130-136 | the first look |
| `UdpSessions.Sessions.Acquire` | internal/forward/udp.go:138-145 | takes a token exactly when the semaphore is not full, without waiting |
| `UdpSessions.Sessions.AbandonDial` | internal/forward/udp.go:147-153 | a failed dial gives back the token it took, which is there to give |
| `UdpSessions.Sessions.Publish` | internal/forward/udp.go:159-174 | inserts, counts and lists the session, or finds the earlier one |
| `UdpSessions.Sessions.RemoveForWriter` | internal/forward/udp.go:249-258 | removes this very session only |
| `UdpSessions.Sessions.RemoveForRelay` | internal/forward/udp.go:196-198 | a dying relay removes this very session only |
| `UdpSessions.Sessions.ReleaseForRelay` | internal/forward/udp.go:199-202 | a dying relay gives back its token, which is there to give |
| `UdpSessions.Sessions.CloseAll` | internal/forward/udp.go:261-268 | empties the table into the list of sessions to close |
| `SamplerSpec.ReservoirKeepsLast` | cmd/loadtest/main.go:458-460 | the sequential reservoir keeps in each slot exactly the last sample aimed at it |
| `SamplerSpec.CasSlotsStep` | cmd/loadtest/main.go:500-508 | a swap never lowers the sequence in a slot, empties none, and loses no pending sample |
| `SamplerSpec.StepKeepsInv` | cmd/loadtest/main.go:480-525 | slots, tickets and extrema stay consistent under every atomic operation |
| `SamplerSpec.QuiescentSlots` | cmd/loadtest/main.go:480-509 | once all calls have finished the slots equal the sequential reservoir of the samples in ticket order |
| `SamplerSpec.QuiescentFilled` | cmd/loadtest/main.go:483-491 | exactly the first min(seen, limit) slots are filled |
| `SamplerSpec.QuiescentExtrema` | cmd/loadtest/main.go:511-532 | the minimum is exact; the maximum is exact if and only if some sample is not negative, and 0 otherwise |
| `SamplerSpec.NegativeMaximumIsMissed` | cmd/loadtest/main.go:519-532 | a run at rest whose one sample is -1 and whose stored maximum is 0 |
| `SamplerSpec.RunDrawsOneTicketPerCall` | cmd/loadtest/main.go:480-484 | on every run each call draws one ticket, and every value is on as many new tickets and waiting calls as calls were made with it |
| `SamplerSpec.TicketsAreTheCalls` | cmd/loadtest/main.go:480-484 | at rest the values on the tickets are, as a multiset, exactly the values handed to add |
| `SamplerSpec.EverySchedule` | cmd/loadtest/main.go:480-542 | all of the above from the initial state, for any schedule that has come to rest |
| `SamplerFairness.EachSlotOnce` | cmd/loadtest/main.go:485-487 | past the limit, of the random numbers below the sequence exactly one leads to each slot |
| `SamplerFairness.ChoiceRepeats` | cmd/loadtest/main.go:485-487 | the choice repeats with the sequence as its period and stays below it |
| `SamplerFairness.EverySampleAlike` | cmd/loadtest/main.go:483-509 | the reservoir is fair: of the n! ways n samples can draw their random numbers each sample, early or late, is in the reservoir in exactly min(limit, n) (n - 1)! |
| `SamplerFairness.AliveIsKept` | cmd/loadtest/main.go:500-508 | an admitted sample at whose slot no later one was aimed is in the reservoir |
| `SamplerFairness.KeptIsAlive` | cmd/loadtest/main.go:500-508 | and only such a sample is |
| `SamplerProgress.FailuresArePaidFor` | cmd/loadtest/main.go:500-525 | on every run the failed swaps of one call are at most the successful swaps of the others, and one more if it starts out late |
| `SamplerProgress.ComesToRest` | cmd/loadtest/main.go:480-525 | whatever schedule led there, the calls under way can finish, and the slots are then the sequential reservoir's |
| `Sampler.LatencySampler.LoadMinimum` | cmd/loadtest/main.go:511-512 | the loaded value, and whether a swap is needed |
| `Sampler.LatencySampler.LoadMaximum` | cmd/loadtest/main.go:519-520 | the same for the maximum |
| `Sampler.LatencySampler.SwapMinimum` | cmd/loadtest/main.go:511-517 | the swap writes exactly when the minimum is still what was loaded |
| `Sampler.LatencySampler.SwapMaximum` | cmd/loadtest/main.go:519-525 | the same for the maximum |
| `Sampler.LatencySampler.DrawTicket` | cmd/loadtest/main.go:483-498 | the next sequence number, and the slot it is aimed at: its own up to the limit, past it the remainder of the random number by the sequence; a slot past the limit ends the call |
| `Sampler.LatencySampler.ReadSlot` | cmd/loadtest/main.go:501-504 | gives way exactly to a later sample |
| `Sampler.LatencySampler.SwapSlot` | cmd/loadtest/main.go:505-507 | the swap writes exactly when the slot is still what was loaded |
| `Sampler.LatencySampler.Extrema` | cmd/loadtest/main.go:527-532 | at rest: zeroes for no samples, else the exact minimum, and the exact maximum or 0 when all samples are negative |
| `Sampler.LatencySampler.Values` | cmd/loadtest/main.go:534-542 | at rest: min(seen, limit) values, those of the sequential reservoir, in slot order |
| `HttpHead.FirstBlankIsFirst` | internal/proxy/http.go:120-124 | the framing function finds the first blank line (section 2.2 of RFC 9112: CRLF or bare LF), or there is none |
| `HttpHead.FramedExactly` | internal/proxy/http.go:104-126 | head, too large and ended, each characterised on the stream alone: too large if and only if no blank line ends within the limit and the stream exceeds it |
| `HttpHead.NextFragment` | internal/proxy/http.go:107-125 | what one more line, full buffer or end of stream settles, including a long line whose last fragment looks blank |
| `HttpHead.HeadIgnoresWhatFollows` | internal/proxy/http.go:104-126 | a head does not depend on what follows it and is a head by itself |
| `HttpStream.Reader.ReadSource` | internal/proxy/http.go:278-285 | the prefix first, then the source; nothing lost or reordered |
| `HttpStream.Reader.ReadSlice` | internal/proxy/http.go:108-119 | the bytes up to a line end, a full buffer, or all there was; the unread stream is exactly the rest |
| `HttpStream.Reader.ReadHead` | internal/proxy/http.go:104-126 | for any chunking and any buffer of at least two bytes the outcome is the stream's own, and exactly the rest is left unread |
| `HttpStream.Reader.PutBackHead` | internal/proxy/http.go:333-348 | the unread stream comes out exactly as it went in, and what is held stays within one head and one buffer |
| `HttpStream.Reader.Drive` | internal/proxy/http.go:273-366 | for any number of heads put back, refills, consumption, and reads into a caller's own space that may bypass the buffer: consumed ++ unread is the original stream, and held bytes stay within limit + buffer |
| `HttpStream.ReadProxyRequest` | internal/proxy/http.go:91-102 | the replay reader delivers the very stream the first reader had |
| `HttpStream.ReadProxyResponse` | internal/proxy/http.go:333-348 | the same with the response limit, however many interim responses came before |
| `HeaderListSpec.RawSplitIsExact` | internal/proxy/http.go:479-499 | the pieces joined with commas are the text, and no piece holds a comma outside quotes |
| `HeaderListSpec.SplitOfJoin` | internal/proxy/http.go:479-499 | pieces without such commas, all but the last with closed quotes, are exactly what their join splits into |
| `HeaderListSpec.SplitIsSplittable` | internal/proxy/http.go:488-498 | every member is trimmed, uncut, and only the last can leave a quote open |
| `HeaderListSpec.UncutIsText` | internal/proxy/http.go:484-496 | a piece has no comma outside quotes if and only if it consists of quoted strings (section 5.6.4 of RFC 9110) and characters that are neither a quote nor a comma, perhaps with a last string left open |
| `HeaderListSpec.TrimIsTheInside` | internal/proxy/http.go:493-498 | trimming gives the stretch between the outer spaces and nothing else, empty if and only if all is spaces |
| `HeaderListSpec.SplitExactly` | internal/proxy/http.go:479-499 | the members are the split if and only if they are, one by one, the insides of uncut pieces, closed but for the last, that joined with commas are the text |
| `HeaderListSpec.SplitOfSpacedJoin` | internal/proxy/http.go:464-466 | joining kept members with comma and space and splitting again gives them back |
| `HeaderListSpec.RebuiltKeepsMembers` | internal/proxy/http.go:449-477 | the rewritten header holds the original members in order, minus the empty ones and minus the match (sections 5.6.1 and 10.1.1 of RFC 9110) |
| `HeaderListSpec.KeptHasNoMatch` | internal/proxy/http.go:456-462 | a member survives if and only if it was there, is not empty and does not match |
| `HeaderListSpec.SecondRemovalFindsNothing` | internal/proxy/http.go:449-477 | a second removal finds nothing |
| `HeaderList.SplitHeaderList` | internal/proxy/http.go:479-499 | the scanning loop computes the split, with quotes and escapes and an unterminated last member; `HeaderListSpec.SplitExactly` says what that is |
| `HeaderList.KeepTokens` | internal/proxy/http.go:453-463 | the inner loop keeps exactly the members to keep and reports a match if and only if there is one |
| `HeaderList.KeepValues` | internal/proxy/http.go:450-467 | the outer loop, over all values of the header |
| `HeaderList.Header.RemoveToken` | internal/proxy/http.go:449-477 | found if and only if a member matches; then the header holds the rewritten values and nothing else changes; otherwise nothing changes at all |
| `Socks5Spec.RoundTrip` | internal/proxy/socks5.go:183-232 | for every method list, command, address, port and suffix: the request is recovered and exactly its bytes consumed, or refused with the right reply (sections 3 to 5 of RFC 1928) |
| `Socks5Spec.AcceptedIsEncoded` | internal/proxy/socks5.go:183-232 | whatever is accepted is an encoded CONNECT that offers no authentication, followed by what is left |
| `Socks5Spec.AcceptedWithMore` | internal/proxy/socks5.go:183-232 | bytes after an accepted request change nothing but what is left |
| `Socks5Spec.OnlyTheWholeIsAccepted` | internal/proxy/socks5.go:183-232 | a prefix of an encoded request is accepted if and only if it is the whole of an acceptable one |
| `Socks5Spec.CutShort` | internal/proxy/socks5.go:183-225 | where a request is cut short decides what it is refused for, for every request and every cut |
| `Socks5Spec.BadHeader` | internal/proxy/socks5.go:208-223 | a header of another version, or of an unknown address type, is refused as it stands and what follows it is left |
| `Socks5Spec.RequestOnTheWire` | internal/proxy/socks5.go:183-225 | an encoded request byte by byte, with literal codes and the port big-endian (sections 3 to 5 of RFC 1928) |
| `Socks5Spec.AddrRoundTrip` | internal/proxy/socks5.go:130-157 | every IPv4, IPv6 and domain address is read back |
| `Socks5Spec.AddrConverse` | internal/proxy/socks5.go:130-157 | whatever address is read is the encoding of a valid one |
| `Socks5Spec.RestIsASuffix` | internal/proxy/socks5.go:183-232 | accepted or refused, what is left is a suffix of what came in |
| `Socks5.ContainsByte` | internal/proxy/socks5.go:174-181 | membership |
| `Socks5.TakeAddr` | internal/proxy/socks5.go:130-157 | for any chunking, the address and what is left are those of the stream |
| `Socks5.TakeRequest` | internal/proxy/socks5.go:202-231 | for any chunking, the request half: header, version, address, port, command, in that order of refusal |
| `Socks5.TakeNegotiationAndRequest` | internal/proxy/socks5.go:183-232 | for any chunking, outcome, replies written and what is left are those of the stream, with a failing reply write as an input; the replies are, byte by byte, the ones that go with the outcome |
| `AdminMergeSpec.OrderDoesNotMatter` | main.go:583-611 | two orders of the same instances succeed together, with the same addresses, and the same log capacity wherever a web panel uses it |
| `AdminMergeSpec.UnusedCapacityFollowsOrder` | main.go:600-610 | a successful merge without a web panel gives the same result in every order if and only if the instances agree on the log capacity |
| `AdminMergeSpec.RefusedOverStats` | main.go:588-593 | some order is refused over the stats address if and only if two instances differ on it |
| `AdminMergeSpec.RefusedOverWeb` | main.go:594-599 | some order is refused over the web address if and only if two instances differ on it and not on the stats address too |
| `AdminMerge.RefusalFollowsOrder` | main.go:583-611 | three forwarders that are refused over either address, depending on their order |
| `AdminMergeSpec.OneResult` | main.go:583-611 | one list of instances has one result |
| `AdminMergeSpec.AgreedInAnyOrder` | main.go:588-599 | agreement and the agreed value depend on the set of instances alone |
| `AdminMerge.CollectForward` | main.go:583-611 | succeeds if and only if all set values agree (log capacity only if a web panel is set), with those values; a refusal names the option whose clash comes first, log capacity last |
| `AdminMerge.ForwardsAreTold` | main.go:583-611 | each forwarder finds its own trimmed addresses in a successful merge, and its log capacity if a web panel uses it; nothing comes from nowhere but the default of 1000; a refusal names an option that two of them set differently |
| `AdminMerge.Endpoint.Merge` | main.go:1276-1289 | keeps the first declaration; a clash names the address, or the access flag when the addresses agree |
| `AdminMerge.CollectProxy` | main.go:1043-1071 | the same as for forwarders, an endpoint being an address with its access flag |
| `AdminMerge.ProxiesAreTold` | main.go:1043-1071 | the same for proxies, each address with its own access flag |

## Left out

- Sockets, DNS, SSH handshakes, the ssh-agent protocol, timers and clocks: environment steps and parameters. A socket write takes 0 <= n <= len(p) bytes, all of them when it reports no error.
- Idle timeout: one operation per direction at a time and no deadline changes from outside the tunnel. With two operations in one direction a deadline installed between the wake-up and the retry test can make `retry` report a timeout early, because the test reads the newer deadline.
- EagerIdleSpec.EagerRefinesReference: covers the shared mode on sockets that accept deadlines; the unshared mode of `IdleConn`, and the error of a refresh that a socket refuses after I/O, are not modelled.
- EagerIdleCalls.IdleGroup.Touch: speaks of sockets that accept the deadline; what a refusal leaves behind is in `EagerIdleCalls.IdleGroup.RefreshDeadline`.
- `time.Since` is taken to saturate at 2^63-1, as the source's arithmetic does.
- SSH: which callers call what and when (`DialContext`'s retry, the supervisor's failure count, reconnect backoff) is over-approximated: any goroutine may make any call on any client it was handed. `dialThrough` and the per-channel connections are not part of this model.
- UDP: idle expiry, byte counters, the wait group and the fatal read error that leaves sessions running (internal/forward/udp.go:95) are not modelled; a relay may start its exit at any time.
- Server: loopback and self-target checks, protocol detection, statistics and events; a handler dials at most once, so its remote is named by its client.
- Sampler: the slot choice takes the random number as an input, the xorshift generator is not modelled, and the fairness theorem counts random numbers below the sequence, which 64-bit numbers meet evenly only up to a last incomplete period; comparing pointers is comparing sequences, which are unique; the ticket counter does not wrap at 2^64.
- HTTP: parsing and writing by net/http, hop-by-hop stripping and trailers; a source that keeps returning empty reads; header names are taken as canonical already.
- HeaderListSpec.EqualFold: folds ASCII case only. The one token it is used for, "100-continue", has no letter with a non-ASCII fold.
- SOCKS5: rendering an address as text, and the reply for a failed dial; addresses stay the bytes on the wire.
- AdminMerge: the wording of the error. Trimming of addresses is a parameter, so the results hold for any trimming.
- CLI parsing, configuration merging, web panel, metrics, socat commands, translation tables and load-test reports are not modelled.
