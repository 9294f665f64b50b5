/** How often the page may ask for the number of unread notifications. */
module NotificationFloor {
  import opened Text

  const SUMMARY_MIN_INTERVAL := 15000

  /** A request for the summary, with the time in milliseconds at which it was sent. */
  datatype Request = Request(at: int, forced: bool)

  datatype State = State(
    lastAt: int,         // lastNotificationSummaryAt
    scheduled: bool,     // notificationScheduled
    frames: nat,         // mounts that wait for an animation frame
    polls: nat,          // intervals set up so far; notificationPoll is set if there is one
    log: seq<Request>    // every request sent
  )

  /** `shell` says that the page shows the signed-in application. */
  datatype Kind =
    | Mutated                     // the page changes, for any reason, or its address does
    | Frame(shell: bool)          // the second animation frame after that
    | Poll(shell: bool)           // an interval fires
    | Answered(changes: bool)     // a request succeeds and may change the page, or it fails

  datatype Event = Event(now: int, kind: Kind)

  function Init(): State { State(0, true, 1, 0, []) }

  /** `refreshNotificationSummary` */
  function Refresh(s: State, now: int, shell: bool, force: bool): State {
    if !shell || (!force && now - s.lastAt < SUMMARY_MIN_INTERVAL) then s
    else s.(lastAt := now, log := s.log + [Request(now, force)])
  }

  /** `mountNotifications` */
  function Mount(s: State, now: int, shell: bool): State {
    var t := Refresh(s.(scheduled := false), now, shell, false);
    t.(polls := if t.polls == 0 then 1 else t.polls)
  }

  /** `scheduleNotifications` */
  function Schedule(s: State): State {
    if s.scheduled then s else s.(scheduled := true, frames := s.frames + 1)
  }

  function Step(s: State, e: Event): State {
    match e.kind
    case Mutated => Schedule(s)
    case Frame(shell) => if s.frames == 0 then s else Mount(s.(frames := s.frames - 1), e.now, shell)
    case Poll(shell) => if s.polls == 0 then s else Refresh(s, e.now, shell, true)
    case Answered(changes) => if changes then Schedule(s) else s
  }

  function Run(events: seq<Event>): State {
    if events == [] then Init() else Step(Run(events[..|events| - 1]), events[|events| - 1])
  }

  class Bell {
    var lastAt: int
    var scheduled: bool
    var frames: nat
    var polls: nat
    var log: seq<Request>

    function View(): State
      reads this
    {
      State(lastAt, scheduled, frames, polls, log)
    }

    constructor ()
      ensures View() == Init()
    {
      lastAt, scheduled, frames, polls, log := 0, true, 1, 0, [];
    }

    method RefreshSummary(now: int, shell: bool, force: bool)
      modifies this
      ensures View() == Refresh(old(View()), now, shell, force)
    {
      if !shell { return; }
      if !force && now - lastAt < SUMMARY_MIN_INTERVAL { return; }
      lastAt := now;
      log := log + [Request(now, force)];
    }

    method MountNotifications(now: int, shell: bool)
      modifies this
      ensures View() == Mount(old(View()), now, shell)
    {
      scheduled := false;
      RefreshSummary(now, shell, false);
      if polls == 0 { polls := 1; }
    }

    method ScheduleNotifications()
      modifies this
      ensures View() == Schedule(old(View()))
    {
      if scheduled { return; }
      scheduled := true;
      frames := frames + 1;
    }

    method Handle(e: Event)
      modifies this
      ensures View() == Step(old(View()), e)
    {
      match e.kind {
        case Mutated => ScheduleNotifications();
        case Frame(shell) =>
          if frames > 0 {
            frames := frames - 1;
            MountNotifications(e.now, shell);
          }
        case Poll(shell) => if polls > 0 { RefreshSummary(e.now, shell, true); }
        case Answered(changes) => if changes { ScheduleNotifications(); }
      }
    }
  }

  // ----- the floor

  /** An unforced request keeps its distance from the request before it, however that one was caused. */
  ghost predicate KeepsFloor(log: seq<Request>) {
    forall i :: 0 < i < |log| && !log[i].forced ==> log[i].at - log[i - 1].at >= SUMMARY_MIN_INTERVAL
  }

  ghost predicate Inv(s: State) {
    && KeepsFloor(s.log) && s.lastAt == (if s.log == [] then 0 else s.log[|s.log| - 1].at)
    && s.frames == (if s.scheduled then 1 else 0) && s.polls <= 1
  }

  lemma StepKeeps(s: State, e: Event)
    requires Inv(s)
    ensures Inv(Step(s, e))
  {
  }

  /**
   In every run unforced requests keep the floor, whatever the answers and the
   mutations; mutations never pile up more than one mount, and there is at
   most one poll.
   */
  lemma {:induction false} FloorKept(events: seq<Event>)
    ensures Inv(Run(events))
  {
    hide Step;
    if events == [] {
    } else {
      FloorKept(events[..|events| - 1]);
      StepKeeps(Run(events[..|events| - 1]), events[|events| - 1]);
    }
  }

  // ----- what each event does

  lemma RunGrows(events: seq<Event>, e: Event)
    ensures Run(events + [e]) == Step(Run(events), e)
  {
    assert (events + [e])[..|events|] == events;
  }

  /** The last request is so far back that another one may go out unforced. */
  predicate IsDue(log: seq<Request>, now: int) {
    if log == [] then now >= 15_000 else now - log[|log| - 1].at >= 15_000
  }

  /** A change of the page, or of its address. */
  predicate Disturbs(e: Event) { e.kind == Mutated || e.kind == Answered(true) }

  /** The page was mounted and has not changed since. */
  ghost predicate IsSettled(events: seq<Event>) {
    exists n :: 0 <= n < |events| && events[n].kind.Frame? && forall m :: n < m < |events| ==> !Disturbs(events[m])
  }

  ghost predicate WasMounted(events: seq<Event>) { exists n :: 0 <= n < |events| && events[n].kind.Frame? }

  lemma SettledStep(events: seq<Event>, e: Event)
    ensures IsSettled(events + [e]) <==> e.kind.Frame? || (IsSettled(events) && !Disturbs(e))
    ensures WasMounted(events + [e]) <==> e.kind.Frame? || WasMounted(events)
  {
    var all := events + [e];
    assert all[|events|] == e;
    if IsSettled(events) && !Disturbs(e) {
      var n :| 0 <= n < |events| && events[n].kind.Frame? && forall m :: n < m < |events| ==> !Disturbs(events[m]);
      assert all[n] == events[n];
    }
    if IsSettled(all) && !e.kind.Frame? {
      var n :| 0 <= n < |all| && all[n].kind.Frame? && forall m :: n < m < |all| ==> !Disturbs(all[m]);
      assert events[n] == all[n] && forall m :: n < m < |events| ==> events[m] == all[m];
    }
    if WasMounted(events) {
      var n :| 0 <= n < |events| && events[n].kind.Frame?;
      assert all[n] == events[n];
    }
    if WasMounted(all) && !e.kind.Frame? {
      var n :| 0 <= n < |all| && all[n].kind.Frame?;
      assert events[n] == all[n];
    }
  }

  /** One mount waits for its frame unless the page is settled, and the first mount starts the poll. */
  lemma {:induction false} MountsAndPolls(events: seq<Event>)
    ensures Run(events).frames == (if IsSettled(events) then 0 else 1)
    ensures Run(events).polls == (if WasMounted(events) then 1 else 0)
    ensures IsSettled(events) ==> WasMounted(events)
  {
    hide IsSettled, WasMounted;
    if events == [] {
      NothingMounted();
    } else {
      var before, e := events[..|events| - 1], events[|events| - 1];
      MountsAndPolls(before);
      FloorKept(before);
      SettledStep(before, e);
      assert before + [e] == events;
    }
  }

  lemma NothingMounted()
    ensures !IsSettled([]) && !WasMounted([]) && Run([]).log == []
  {
  }

  /**
   A poll of the signed-in application, which runs from the first mount on,
   always sends a request; a mount of it that follows a change sends one exactly
   if one is due; nothing else does.
   */
  lemma SendsExactly(events: seq<Event>, e: Event)
    ensures Run([]).log == []
    ensures var log := Run(events).log;
            Run(events + [e]).log
            == match e.kind
               case Poll(shell) => if WasMounted(events) && shell then log + [Request(e.now, true)] else log
               case Frame(shell) => if !IsSettled(events) && shell && IsDue(log, e.now) then log + [Request(e.now, false)] else log
               case Mutated => log
               case Answered(_) => log
  {
    hide Run, IsSettled, WasMounted;
    RunGrows(events, e);
    FloorKept(events);
    MountsAndPolls(events);
    NothingMounted();
  }

  // ----- requests in a window of time

  /** The clock does not run backwards. */
  ghost predicate IsClock(events: seq<Event>) {
    forall i, j :: 0 <= i < j < |events| ==> events[i].now <= events[j].now
  }

  ghost predicate Sorted(log: seq<Request>) {
    forall i, j :: 0 <= i < j < |log| ==> log[i].at <= log[j].at
  }

  lemma StepLogs(s: State, e: Event)
    ensures Step(s, e).log == s.log || exists forced :: Step(s, e).log == s.log + [Request(e.now, forced)]
  {
  }

  lemma {:induction false} LogSorted(events: seq<Event>)
    requires IsClock(events)
    ensures Sorted(Run(events).log)
    ensures forall r <- Run(events).log :: events != [] && r.at <= events[|events| - 1].now
  {
    hide Step;
    if events != [] {
      var before, last := events[..|events| - 1], events[|events| - 1];
      LogSorted(before);
      StepLogs(Run(before), last);
      assert before != [] ==> before[|before| - 1].now <= last.now;
    }
  }

  predicate InWindow(r: Request, from: int, to: int) { from <= r.at <= to }

  /** The requests sent from `from` to `to`. */
  function Sent(log: seq<Request>, from: int, to: int): nat {
    if log == [] then 0
    else Sent(log[..|log| - 1], from, to) + if InWindow(log[|log| - 1], from, to) then 1 else 0
  }

  /** Those of them that were forced. */
  function Forced(log: seq<Request>, from: int, to: int): nat {
    if log == [] then 0
    else
      var last := log[|log| - 1];
      Forced(log[..|log| - 1], from, to) + if InWindow(last, from, to) && last.forced then 1 else 0
  }

  lemma {:induction false} Spread(log: seq<Request>, from: int, to: int)
    requires Sorted(log) && KeepsFloor(log)
    ensures var unforced := Sent(log, from, to) - Forced(log, from, to);
            unforced > 0 ==> log != [] && (unforced - 1) * SUMMARY_MIN_INTERVAL <= to - from
                             && (unforced - 1) * SUMMARY_MIN_INTERVAL <= log[|log| - 1].at - from
  {
    if log != [] {
      var before := log[..|log| - 1];
      Spread(before, from, to);
      assert before != [] ==> before[|before| - 1] == log[|log| - 2];
    }
  }

  /**
   A window of `to - from` milliseconds holds, besides its forced requests, at
   most one for each full fifteen seconds and one more.
   */
  lemma WindowBound(events: seq<Event>, from: int, to: int)
    requires IsClock(events) && from <= to
    ensures var log := Run(events).log;
            Sent(log, from, to) <= Forced(log, from, to) + (to - from) / SUMMARY_MIN_INTERVAL + 1
  {
    hide Run, Sent, Forced;
    FloorKept(events);
    LogSorted(events);
    Spread(Run(events).log, from, to);
  }
}
