/** The notification socket and its reconnects, as steps over the page's variables. */
module Realtime {
  import opened Text

  /** The ready states of section 3.1 of the WHATWG WebSockets Standard. */
  datatype Ready = Connecting | Open | Closing | Closed

  /**
   A socket, with the generation that its event handlers captured. `opening`
   says that the connection is established and the task that sets OPEN and fires
   the open event is queued; closing the socket does not take that task back.
   */
  datatype Socket = Socket(ready: Ready, generation: nat, opening: bool)

  /** A pending timeout; `attempt` counts the reconnects scheduled before it since the last reset. */
  datatype Timer = Timer(generation: nat, delay: int, attempt: nat)

  datatype State = State(
    sockets: seq<Socket>,      // every socket ever opened
    current: Option<nat>,      // realtimeSocket, as an index
    generation: nat,
    backoff: int,
    timers: map<nat, Timer>,   // the timeouts still pending, by handle
    handle: Option<nat>,       // realtimeReconnectTimer
    nextHandle: nat,
    attempts: nat              // reconnects scheduled since the backoff was reset
  )

  /** What a handler reads of the page and the browser while it runs. */
  datatype Env = Env(shell: bool, onLine: bool, throws: bool, random: real)

  datatype Event =
    | Mount(env: Env)                  // start, navigation or mutation of the page
    | Online(env: Env)
    | Leave                            // offline, unload, or a refresh that finds the user signed out
    | Establishes(socket: nat)         // the connection is established, and its task queued
    | Opens(socket: nat)               // that task runs
    | PeerCloses(socket: nat)          // the closing handshake is started by the other end
    | Fails(socket: nat)               // an error event
    | Closes(socket: nat, env: Env)    // a close event
    | Fires(timer: nat, env: Env)      // a timeout runs out

  const RESET_BACKOFF := 1000
  const MAX_BACKOFF := 30000
  const MAX_JITTER := 1000.0

  function Min(a: int, b: int): int { if a < b then a else b }

  function Init(): State {
    State([], None, 0, RESET_BACKOFF, map[], None, 0, 0)
  }

  predicate IsLive(socket: Socket) { socket.ready.Connecting? || socket.ready.Open? }

  predicate MayConnect(s: State, generation: nat, env: Env) {
    generation == s.generation && env.shell && env.onLine
  }

  /** `clearTimeout(realtimeReconnectTimer)` */
  function Cleared(s: State): State {
    if s.handle.None? then s else s.(timers := s.timers - {s.handle.value})
  }

  function JitterCap(backoff: int): real {
    if backoff as real / 3.0 < MAX_JITTER then backoff as real / 3.0 else MAX_JITTER
  }

  function Jitter(random: real, backoff: int): int { (random * JitterCap(backoff)).Floor }

  /** `scheduleRealtimeReconnect` */
  function Schedule(s: State, generation: nat, env: Env): State {
    var t := Cleared(s);
    if !MayConnect(t, generation, env) then t
    else
      var timer := Timer(generation, t.backoff + Jitter(env.random, t.backoff), t.attempts);
      t.(timers := t.timers[t.nextHandle := timer], handle := Some(t.nextHandle), nextHandle := t.nextHandle + 1,
         backoff := Min(MAX_BACKOFF, t.backoff * 2), attempts := t.attempts + 1)
  }

  /** `socket.close()` */
  function Shut(s: State, i: nat): State {
    if i < |s.sockets| && IsLive(s.sockets[i]) then
      s.(sockets := s.sockets[i := s.sockets[i].(ready := Closing)])
    else s
  }

  /** `closeRealtimeSocket` */
  function CloseSocket(s: State): State {
    var t := Cleared(s.(generation := s.generation + 1)).(current := None);
    if s.current.None? then t else Shut(t, s.current.value)
  }

  predicate HasLiveSocket(s: State) {
    s.current.Some? && s.current.value < |s.sockets| && IsLive(s.sockets[s.current.value])
  }

  /** `connectRealtimeNotifications` */
  function Connect(s: State, generation: nat, env: Env): State {
    if !MayConnect(s, generation, env) || HasLiveSocket(s) then s
    else if env.throws then Schedule(s, generation, env)
    else s.(sockets := s.sockets + [Socket(Connecting, generation, false)], current := Some(|s.sockets|))
  }

  function Reset(s: State): State { s.(backoff := RESET_BACKOFF, attempts := 0) }

  function WithSocket(s: State, i: nat, socket: Socket): State
    requires i < |s.sockets|
  {
    s.(sockets := s.sockets[i := socket])
  }

  /** A connection is not established any more once the socket was told to close. */
  predicate CanEstablish(s: State, i: nat) {
    i < |s.sockets| && s.sockets[i].ready.Connecting? && !s.sockets[i].opening
  }

  /** The tasks of a socket run in order, so nothing else comes of it before its open event. */
  predicate CanHear(s: State, i: nat) { i < |s.sockets| && !s.sockets[i].opening }

  predicate IsOpening(s: State, i: nat) { i < |s.sockets| && s.sockets[i].opening }

  /** The open event that is queued will find that its generation has passed. */
  predicate IsStaleOpen(s: State, i: nat) { IsOpening(s, i) && s.sockets[i].generation != s.generation }

  /** The task sets OPEN and fires the event, and the handler closes a socket that is stale. */
  function OnOpen(s: State, i: nat): State {
    if IsOpening(s, i) then
      var t := WithSocket(s, i, s.sockets[i].(ready := Open, opening := false));
      if IsStaleOpen(s, i) then Shut(t, i) else Reset(t)
    else s
  }

  function OnEstablish(s: State, i: nat): State {
    if CanEstablish(s, i) then WithSocket(s, i, s.sockets[i].(opening := true)) else s
  }

  function OnPeerClose(s: State, i: nat): State {
    if CanHear(s, i) && s.sockets[i].ready.Open? then WithSocket(s, i, s.sockets[i].(ready := Closing)) else s
  }

  function OnError(s: State, i: nat): State { if CanHear(s, i) then Shut(s, i) else s }

  function OnClose(s: State, i: nat, env: Env): State {
    if CanHear(s, i) && !s.sockets[i].ready.Closed? then
      var t := WithSocket(s, i, s.sockets[i].(ready := Closed)).(current := if s.current == Some(i) then None else s.current);
      Schedule(t, s.sockets[i].generation, env)
    else s
  }

  function OnTimer(s: State, h: nat, env: Env): State {
    if h in s.timers then Connect(s.(timers := s.timers - {h}), s.timers[h].generation, env) else s
  }

  /** One event; one that the socket or the timer cannot deliver changes nothing. */
  function Step(s: State, e: Event): State {
    match e
    case Mount(env) => if env.shell then Connect(s, s.generation, env) else CloseSocket(s)
    case Online(env) => Connect(Reset(s), s.generation, env)
    case Leave => CloseSocket(s)
    case Establishes(i) => OnEstablish(s, i)
    case Opens(i) => OnOpen(s, i)
    case PeerCloses(i) => OnPeerClose(s, i)
    case Fails(i) => OnError(s, i)
    case Closes(i, env) => OnClose(s, i, env)
    case Fires(h, env) => OnTimer(s, h, env)
  }

  /** The state after any events in any order. */
  function Run(events: seq<Event>): State {
    if events == [] then Init() else Step(Run(events[..|events| - 1]), events[|events| - 1])
  }

  // ----- the page's variables

  class Client {
    var sockets: seq<Socket>
    var current: Option<nat>
    var generation: nat
    var backoff: int
    var timers: map<nat, Timer>
    var handle: Option<nat>
    var nextHandle: nat
    var attempts: nat

    function View(): State
      reads this
    {
      State(sockets, current, generation, backoff, timers, handle, nextHandle, attempts)
    }

    constructor ()
      ensures View() == Init()
    {
      sockets, current, generation, backoff := [], None, 0, RESET_BACKOFF;
      timers, handle, nextHandle, attempts := map[], None, 0, 0;
    }

    method ClearTimer()
      modifies this
      ensures View() == Cleared(old(View()))
    {
      if handle.Some? {
        timers := timers - {handle.value};
      }
    }

    method ScheduleReconnect(captured: nat, env: Env)
      modifies this
      ensures View() == Schedule(old(View()), captured, env)
    {
      ClearTimer();
      if captured != generation || !env.shell || !env.onLine { return; }
      var jitter := Jitter(env.random, backoff);
      handle := Some(nextHandle);
      timers := timers[nextHandle := Timer(captured, backoff + jitter, attempts)];
      nextHandle := nextHandle + 1;
      backoff := Min(MAX_BACKOFF, backoff * 2);
      attempts := attempts + 1;
    }

    method ShutSocket(i: nat)
      modifies this
      ensures View() == Shut(old(View()), i)
    {
      if i < |sockets| && IsLive(sockets[i]) {
        sockets := sockets[i := sockets[i].(ready := Closing)];
      }
    }

    method CloseCurrent()
      modifies this
      ensures View() == CloseSocket(old(View()))
    {
      generation := generation + 1;
      ClearTimer();
      var socket := current;
      current := None;
      if socket.Some? { ShutSocket(socket.value); }
    }

    method ConnectSocket(captured: nat, env: Env)
      modifies this
      ensures View() == Connect(old(View()), captured, env)
    {
      if captured != generation || !env.shell || !env.onLine { return; }
      if current.Some? && current.value < |sockets| && IsLive(sockets[current.value]) { return; }
      if env.throws {
        ScheduleReconnect(captured, env);
        return;
      }
      sockets := sockets + [Socket(Connecting, captured, false)];
      current := Some(|sockets| - 1);
    }

    /** The open event, behind the change of the ready state that comes with it. */
    method OnOpenEvent(i: nat)
      requires IsOpening(View(), i)
      modifies this
      ensures View() == OnOpen(old(View()), i)
    {
      sockets := sockets[i := sockets[i].(ready := Open, opening := false)];
      if sockets[i].generation != generation {
        ShutSocket(i);
        return;
      }
      backoff, attempts := RESET_BACKOFF, 0;
    }

    method OnCloseEvent(i: nat, env: Env)
      requires CanHear(View(), i) && !View().sockets[i].ready.Closed?
      modifies this
      ensures View() == OnClose(old(View()), i, env)
    {
      sockets := sockets[i := sockets[i].(ready := Closed)];
      if current == Some(i) { current := None; }
      ScheduleReconnect(sockets[i].generation, env);
    }

    /** One event; one that the socket or the timer cannot deliver changes nothing. */
    method Handle(e: Event)
      modifies this
      ensures View() == Step(old(View()), e)
    {
      match e {
        case Mount(env) =>
          if !env.shell { CloseCurrent(); } else { ConnectSocket(generation, env); }
        case Online(env) =>
          backoff, attempts := RESET_BACKOFF, 0;
          ConnectSocket(generation, env);
        case Leave => CloseCurrent();
        case Establishes(i) =>
          if CanEstablish(View(), i) { sockets := sockets[i := sockets[i].(opening := true)]; }
        case Opens(i) => if IsOpening(View(), i) { OnOpenEvent(i); }
        case PeerCloses(i) =>
          if CanHear(View(), i) && sockets[i].ready.Open? { sockets := sockets[i := sockets[i].(ready := Closing)]; }
        case Fails(i) => if CanHear(View(), i) { ShutSocket(i); }
        case Closes(i, env) => if CanHear(View(), i) && !sockets[i].ready.Closed? { OnCloseEvent(i, env); }
        case Fires(h, env) =>
          if h in timers {
            var captured := timers[h].generation;
            timers := timers - {h};
            ConnectSocket(captured, env);
          }
      }
    }
  }

  // ----- what every run keeps

  function Pow2(k: nat): nat { if k == 0 then 1 else 2 * Pow2(k - 1) }

  /** The backoff after `k` reconnects scheduled in a row. */
  function BackoffAfter(k: nat): int { Min(MAX_BACKOFF, RESET_BACKOFF * Pow2(k)) }

  /** Live sockets: only the current one, and of the current generation. */
  ghost predicate SocketsInv(s: State) {
    && (s.current.Some? ==> s.current.value < |s.sockets| && s.sockets[s.current.value].generation == s.generation)
    && (forall i :: 0 <= i < |s.sockets| && IsLive(s.sockets[i]) ==> s.current == Some(i))
    && (forall i :: 0 <= i < |s.sockets| ==> s.sockets[i].generation <= s.generation)
    && (forall i :: 0 <= i < |s.sockets| && s.sockets[i].opening ==>
          s.sockets[i].ready.Connecting? || (s.sockets[i].ready.Closing? && s.sockets[i].generation < s.generation))
  }

  /** Pending timeouts: only the stored one, of the current generation, with its delay in bounds. */
  ghost predicate TimersInv(s: State) {
    forall h :: h in s.timers ==>
      && s.handle == Some(h) && h < s.nextHandle && s.timers[h].generation == s.generation
      && BackoffAfter(s.timers[h].attempt) <= s.timers[h].delay < BackoffAfter(s.timers[h].attempt) + 1000
  }

  ghost predicate BackoffInv(s: State) { s.backoff == BackoffAfter(s.attempts) }

  ghost predicate Inv(s: State) { SocketsInv(s) && TimersInv(s) && BackoffInv(s) }

  ghost predicate IsEnv(env: Env) { 0.0 <= env.random < 1.0 }

  ghost predicate IsEvent(e: Event) {
    (e.Mount? || e.Online? || e.Closes? || e.Fires?) ==> IsEnv(e.env)
  }

  lemma Doubles(k: nat)
    ensures Min(MAX_BACKOFF, BackoffAfter(k) * 2) == BackoffAfter(k + 1)
    ensures BackoffAfter(k) > 0
  {
    PowPositive(k);
  }

  lemma {:induction false} PowPositive(k: nat)
    ensures Pow2(k) > 0
  {
    if k > 0 {
      PowPositive(k - 1);
    }
  }

  lemma CapBounds(backoff: int)
    requires backoff > 0
    ensures 0.0 < JitterCap(backoff) <= 1000.0
  {
  }

  lemma CapIs(backoff: int)
    ensures JitterCap(backoff) == if backoff < 3000 then backoff as real / 3.0 else 1000.0
  {
  }

  /** The jitter is the random share of a third of the backoff, or of a second if that is less, in whole milliseconds. */
  lemma JitterBounds(random: real, backoff: int)
    requires 0.0 <= random < 1.0 && backoff > 0
    ensures 0 <= Jitter(random, backoff) < 1000
    ensures var share := random * if backoff < 3000 then backoff as real / 3.0 else 1000.0;
            Jitter(random, backoff) as real <= share < Jitter(random, backoff) as real + 1.0
  {
    hide JitterCap;
    CapIs(backoff);
    CapBounds(backoff);
    ShareOf(random, JitterCap(backoff));
    var share := random * JitterCap(backoff);
    assert share.Floor as real <= share < share.Floor as real + 1.0;
  }

  lemma ShareOf(random: real, cap: real)
    requires 0.0 <= random < 1.0 && 0.0 < cap
    ensures 0.0 <= random * cap < cap
  {
    assert (1.0 - random) * cap > 0.0;
  }

  lemma ScheduleKeeps(s: State, generation: nat, env: Env)
    requires Inv(s) && IsEnv(env)
    ensures Inv(Schedule(s, generation, env))
  {
    hide Pow2, Jitter, BackoffAfter;
    Doubles(s.attempts);
    JitterBounds(env.random, s.backoff);
    ResetBackoff();
  }

  lemma ResetBackoff()
    ensures BackoffAfter(0) == RESET_BACKOFF
  {
  }

  lemma CloseKeeps(s: State)
    requires Inv(s)
    ensures Inv(CloseSocket(s)) && IsQuiet(CloseSocket(s))
    ensures |CloseSocket(s).sockets| == |s.sockets|
  {
    hide BackoffAfter;
  }

  lemma ShutKeeps(s: State, i: nat)
    requires Inv(s) && CanHear(s, i)
    ensures Inv(Shut(s, i))
  {
    hide BackoffAfter;
  }

  lemma OpenKeeps(s: State, i: nat)
    requires Inv(s)
    ensures Inv(OnOpen(s, i))
  {
    hide BackoffAfter;
    ResetBackoff();
  }

  lemma ConnectKeeps(s: State, generation: nat, env: Env)
    requires Inv(s) && IsEnv(env)
    ensures Inv(Connect(s, generation, env))
  {
    hide BackoffAfter;
    ScheduleKeeps(s, generation, env);
  }

  lemma StepKeeps(s: State, e: Event)
    requires Inv(s) && IsEvent(e)
    ensures Inv(Step(s, e))
  {
    hide BackoffAfter, Connect, Schedule, CloseSocket;
    ResetBackoff();
    match e {
      case Mount(env) =>
        ConnectKeeps(s, s.generation, env);
        CloseKeeps(s);
      case Online(env) => ConnectKeeps(Reset(s), s.generation, env);
      case Leave => CloseKeeps(s);
      case Establishes(i) =>
      case Opens(i) => OpenKeeps(s, i);
      case PeerCloses(i) =>
      case Fails(i) => if CanHear(s, i) { ShutKeeps(s, i); }
      case Closes(i, env) =>
        if CanHear(s, i) && !s.sockets[i].ready.Closed? {
          var t := WithSocket(s, i, s.sockets[i].(ready := Closed)).(current := if s.current == Some(i) then None else s.current);
          ScheduleKeeps(t, s.sockets[i].generation, env);
        }
      case Fires(h, env) =>
        if h in s.timers {
          ConnectKeeps(s.(timers := s.timers - {h}), s.timers[h].generation, env);
        }
    }
  }

  lemma {:induction false} RunKeeps(events: seq<Event>)
    requires forall e <- events :: IsEvent(e)
    ensures Inv(Run(events))
  {
    hide Inv, Step;
    if events == [] {
      InitInv();
    } else {
      RunKeeps(events[..|events| - 1]);
      StepKeeps(Run(events[..|events| - 1]), events[|events| - 1]);
    }
  }

  lemma InitInv()
    ensures Inv(Init())
  {
  }

  /** Between events at most one socket is connecting or open: the current one, of the current generation. */
  lemma OneLiveSocket(events: seq<Event>, i: nat)
    requires forall e <- events :: IsEvent(e)
    requires var s := Run(events); i < |s.sockets| && IsLive(s.sockets[i])
    ensures var s := Run(events);
            && s.current == Some(i) && s.sockets[i].generation == s.generation && !IsStaleOpen(s, i)
            && forall j :: 0 <= j < |s.sockets| && IsLive(s.sockets[j]) ==> j == i
  {
    hide Run, BackoffAfter;
    RunKeeps(events);
  }

  /**
   The handler of an open event takes its stale branch exactly when the socket
   was told to close after its connection was established; the branch closes it
   again, and nothing else is changed.
   */
  lemma StaleOpenExactly(events: seq<Event>, i: nat)
    requires (forall e <- events :: IsEvent(e)) && IsOpening(Run(events), i)
    ensures var s := Run(events);
            && (IsStaleOpen(s, i) <==> s.sockets[i].ready.Closing?)
            && (IsStaleOpen(s, i) ==> Step(s, Opens(i)) == WithSocket(s, i, s.sockets[i].(opening := false)))
            && (!IsStaleOpen(s, i) ==> s.current == Some(i) && Step(s, Opens(i)).backoff == RESET_BACKOFF)
  {
    hide Run, BackoffAfter;
    RunKeeps(events);
  }

  /** Such an event occurs: the page is left between the two. */
  lemma StaleOpenOccurs(env: Env)
    requires env.shell && env.onLine && !env.throws
    ensures IsStaleOpen(Run([Mount(env), Establishes(0), Leave]), 0)
  {
    assert [Mount(env), Establishes(0), Leave][..2] == [Mount(env), Establishes(0)];
    assert [Mount(env), Establishes(0)][..1] == [Mount(env)] && [Mount(env)][..0] == [];
    assert Run([Mount(env)]).sockets == [Socket(Connecting, 0, false)];
    assert Run([Mount(env), Establishes(0)]).sockets == [Socket(Connecting, 0, true)];
  }

  /** At most one reconnect is pending: the stored one, which will pass the generation check. */
  lemma OneTimer(events: seq<Event>, h: nat)
    requires forall e <- events :: IsEvent(e)
    requires h in Run(events).timers
    ensures var s := Run(events);
            && s.handle == Some(h) && s.timers.Keys == {h}
            && s.timers[h].generation == s.generation
            && BackoffAfter(s.timers[h].attempt) <= s.timers[h].delay < BackoffAfter(s.timers[h].attempt) + 1000
  {
    hide BackoffAfter;
    RunKeeps(events);
  }

  lemma BackoffDoubles(events: seq<Event>)
    requires forall e <- events :: IsEvent(e)
    ensures var s := Run(events); s.backoff == Min(30000, 1000 * Pow2(s.attempts))
  {
    hide Pow2;
    RunKeeps(events);
  }

  // ----- what each event does

  lemma RunGrows(events: seq<Event>, e: Event)
    ensures Run(events + [e]) == Step(Run(events), e)
  {
    assert (events + [e])[..|events|] == events;
  }

  ghost predicate NoneLive(sockets: seq<Socket>) { forall i :: 0 <= i < |sockets| ==> !IsLive(sockets[i]) }

  /** A mount, the network, or a pending timeout asks for a socket while there is none, and the page may have one. */
  ghost predicate Asks(s: State, e: Event) {
    && (e.Mount? || e.Online? || (e.Fires? && e.timer in s.timers))
    && e.env.shell && e.env.onLine && NoneLive(s.sockets)
  }

  /** A close event arrives from a socket of this generation, and the page may reconnect. */
  ghost predicate Loses(s: State, e: Event) {
    && Ends(s, e) && s.sockets[e.socket].generation == s.generation && e.env.shell && e.env.onLine
  }

  /** The close event of this socket arrives. */
  ghost predicate Ends(s: State, e: Event) { e.Closes? && CanHear(s, e.socket) && s.sockets[e.socket].ready != Closed }

  ghost predicate Quits(e: Event) { e.Leave? || (e.Mount? && !e.env.shell) }

  lemma LiveIsCurrent(s: State)
    requires SocketsInv(s)
    ensures HasLiveSocket(s) <==> !NoneLive(s.sockets)
  {
  }

  /**
   A socket is opened exactly when one is asked for and the browser makes it; it
   belongs to the current generation and becomes the current one.
   */
  lemma OpensExactly(events: seq<Event>, e: Event)
    requires (forall other <- events :: IsEvent(other)) && IsEvent(e)
    ensures var s, t := Run(events), Run(events + [e]);
            if Asks(s, e) && !e.env.throws then
              t.sockets == s.sockets + [Socket(Connecting, s.generation, false)] && t.current == Some(|s.sockets|)
            else |t.sockets| == |s.sockets|
  {
    hide Run, BackoffAfter, NoneLive;
    RunKeeps(events);
    RunGrows(events, e);
    LiveIsCurrent(Run(events));
  }

  /**
   A reconnect is scheduled exactly when a socket is lost, or is asked for and
   the browser throws. It replaces the pending one and waits for the backoff,
   which starts again at one second when the network is back and when a socket
   opens, and a jitter.
   */
  lemma SchedulesExactly(events: seq<Event>, e: Event)
    requires (forall other <- events :: IsEvent(other)) && IsEvent(e)
    ensures var s, t := Run(events), Run(events + [e]);
            var base := Base(s, e);
            if Loses(s, e) || (Asks(s, e) && e.env.throws) then
              && t.timers == map[s.nextHandle := Timer(s.generation, base + Jitter(e.env.random, base), if e.Online? then 0 else s.attempts)]
              && t.handle == Some(s.nextHandle) && t.backoff == (if base * 2 < 30000 then base * 2 else 30000)
            else
              && t.timers == (if Quits(e) || Ends(s, e) || (e.Fires? && e.timer in s.timers) then map[] else s.timers)
              && t.backoff == base
  {
    hide Run, Inv, Loses, Ends, Quits, Jitter, Step, NoneLive;
    RunKeeps(events);
    RunGrows(events, e);
    var s := Run(events);
    if Loses(s, e) || (Asks(s, e) && e.env.throws) {
      Scheduled(s, e);
    } else {
      NotScheduled(s, e);
    }
  }

  /** What a reconnect starts from when this event arrives. */
  function Base(s: State, e: Event): int {
    if e.Online? || (e.Opens? && IsOpening(s, e.socket) && s.sockets[e.socket].ready == Connecting) then 1000 else s.backoff
  }

  lemma Scheduled(s: State, e: Event)
    requires Inv(s) && (Loses(s, e) || (Asks(s, e) && e.env.throws))
    ensures var t, base := Step(s, e), Base(s, e);
            && t.timers == map[s.nextHandle := Timer(s.generation, base + Jitter(e.env.random, base), if e.Online? then 0 else s.attempts)]
            && t.handle == Some(s.nextHandle) && t.backoff == (if base * 2 < 30000 then base * 2 else 30000)
  {
    hide BackoffAfter, NoneLive, Jitter;
    LiveIsCurrent(s);
    OnlyTimer(s);
  }

  lemma NotScheduled(s: State, e: Event)
    requires Inv(s) && !Loses(s, e) && !(Asks(s, e) && e.env.throws)
    ensures var t := Step(s, e);
            && t.timers == (if Quits(e) || Ends(s, e) || (e.Fires? && e.timer in s.timers) then map[] else s.timers)
            && t.backoff == Base(s, e)
  {
    hide BackoffAfter, NoneLive, Jitter;
    LiveIsCurrent(s);
    OnlyTimer(s);
    if e.Opens? && IsOpening(s, e.socket) { OpeningIsCurrent(s, e.socket); }
  }

  /** What happens to the sockets that are there. */
  lemma SocketsFollow(events: seq<Event>, e: Event)
    requires (forall other <- events :: IsEvent(other)) && IsEvent(e)
    ensures var s, t := Run(events), Run(events + [e]);
            && t.generation == s.generation + (if Quits(e) then 1 else 0)
            && (Quits(e) ==>
                  t.current == None && |t.sockets| == |s.sockets|
                  && forall i :: 0 <= i < |s.sockets| ==>
                       t.sockets[i] == if IsLive(s.sockets[i]) then s.sockets[i].(ready := Closing) else s.sockets[i])
            && (e.Fails? && CanHear(s, e.socket) && IsLive(s.sockets[e.socket]) ==>
                  t == s.(sockets := s.sockets[e.socket := s.sockets[e.socket].(ready := Closing)]))
            && (Ends(s, e) ==>
                  t.sockets == s.sockets[e.socket := s.sockets[e.socket].(ready := Closed)]
                  && t.current == if s.current == Some(e.socket) then None else s.current)
  {
    hide Run, Schedule, Connect, CloseSocket, TimersInv, BackoffInv;
    RunKeeps(events);
    RunGrows(events, e);
    var s := Run(events);
    QuitSockets(s);
    match e {
      case Mount(env) => ConnectStays(s, s.generation, env);
      case Online(env) => ConnectStays(Reset(s), s.generation, env);
      case Fires(h, env) => if h in s.timers { ConnectStays(s.(timers := s.timers - {h}), s.timers[h].generation, env); }
      case Closes(i, env) =>
        if Ends(s, e) {
          var t := WithSocket(s, i, s.sockets[i].(ready := Closed)).(current := if s.current == Some(i) then None else s.current);
          ScheduleStays(t, s.sockets[i].generation, env);
        }
      case _ =>
    }
  }

  lemma QuitSockets(s: State)
    requires SocketsInv(s)
    ensures var t := CloseSocket(s);
            && t.generation == s.generation + 1 && t.current == None && |t.sockets| == |s.sockets|
            && forall i :: 0 <= i < |s.sockets| ==>
                 t.sockets[i] == if IsLive(s.sockets[i]) then s.sockets[i].(ready := Closing) else s.sockets[i]
  {
  }

  lemma ScheduleStays(s: State, generation: nat, env: Env)
    ensures var t := Schedule(s, generation, env); t.sockets == s.sockets && t.current == s.current && t.generation == s.generation
  {
    hide Jitter;
  }

  lemma ConnectStays(s: State, generation: nat, env: Env)
    ensures Connect(s, generation, env).generation == s.generation
  {
    hide Schedule;
    ScheduleStays(s, generation, env);
  }

  lemma OnlyTimer(s: State)
    requires TimersInv(s)
    ensures Cleared(s).timers == map[] && forall h <- s.timers :: s.timers - {h} == map[]
  {
    hide BackoffAfter;
  }

  lemma OpeningIsCurrent(s: State, i: nat)
    requires SocketsInv(s) && IsOpening(s, i)
    ensures IsStaleOpen(s, i) <==> s.sockets[i].ready != Connecting
  {
  }

  // ----- after leaving

  /** Nothing is open, connecting or scheduled, and every socket is of a past generation. */
  ghost predicate IsQuiet(s: State) {
    && s.timers == map[]
    && (forall i :: 0 <= i < |s.sockets| ==> !IsLive(s.sockets[i]) && s.sockets[i].generation < s.generation)
  }

  /** An event that the page did not ask for: it comes from a socket or a timer. */
  predicate IsLate(e: Event) { e.Establishes? || e.Opens? || e.PeerCloses? || e.Fails? || e.Closes? || e.Fires? }

  lemma LateKeepsQuiet(s: State, e: Event)
    requires IsQuiet(s) && IsLate(e)
    ensures IsQuiet(Step(s, e)) && |Step(s, e).sockets| == |s.sockets|
  {
  }

  function RunFrom(s: State, events: seq<Event>): State {
    if events == [] then s else Step(RunFrom(s, events[..|events| - 1]), events[|events| - 1])
  }

  /** Once the page is left, no late event opens a socket or schedules a reconnect. */
  lemma {:induction false} LeavingIsFinal(events: seq<Event>, late: seq<Event>)
    requires (forall e <- events :: IsEvent(e)) && (forall e <- late :: IsLate(e))
    ensures var s := RunFrom(Run(events + [Leave]), late);
            && s.timers == map[] && |s.sockets| == |Run(events).sockets|
            && forall i :: 0 <= i < |s.sockets| ==> !IsLive(s.sockets[i])
  {
    hide Inv, CloseSocket, BackoffAfter, Connect, Schedule;
    RunKeeps(events);
    assert (events + [Leave])[..|events|] == events;
    CloseKeeps(Run(events));
    QuietRun(Run(events + [Leave]), late);
  }

  lemma {:induction false} QuietRun(s: State, late: seq<Event>)
    requires IsQuiet(s) && forall e <- late :: IsLate(e)
    ensures IsQuiet(RunFrom(s, late)) && |RunFrom(s, late).sockets| == |s.sockets|
  {
    hide Step;
    if late != [] {
      QuietRun(s, late[..|late| - 1]);
      LateKeepsQuiet(RunFrom(s, late[..|late| - 1]), late[|late| - 1]);
    }
  }
}
