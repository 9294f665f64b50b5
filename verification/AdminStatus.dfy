/** The question whether this session administers the instance, asked once. */
module AdminStatus {
  import opened Text

  /** What the server says: a status, an empty body, "not signed in", or another refusal. */
  datatype Reply = Granted(status: string) | Empty | Unauthorized | Denied

  /** What is remembered, and what a caller is told. */
  datatype Answer = Administrator(status: string) | NotAdministrator

  /** Somebody who asked: which request was joined, if any, and the answer so far. */
  datatype Caller = Caller(joined: Option<nat>, answer: Option<Answer>)

  datatype State = State(
    status: Option<Answer>,      // kgAdminStatus
    request: Option<nat>,        // kgAdminStatusRequest
    inflight: set<nat>,          // requests sent and not answered
    sent: nat,
    replies: seq<Reply>,
    callers: seq<Caller>,
    queued: bool                 // kgAdminObserverQueued
  )

  datatype Event =
    | Mutated                        // the page or its address changes
    | Microtask(shell: bool)         // the queued pass; `shell` says that the navigation is on the page
    | Ask                            // any other caller
    | Replied(id: nat, reply: Reply)

  function Init(): State { State(None, None, {}, 0, [], [], true) }

  /** What a reply leaves in memory: 401 means not known yet, and so does a body that is null. */
  function Memory(reply: Reply): Option<Answer> {
    match reply
    case Granted(status) => Some(Administrator(status))
    case Denied => Some(NotAdministrator)
    case _ => None
  }

  /** A session was recognised, as an administrator's or not. */
  predicate IsDefinitive(reply: Reply) { reply.Granted? || reply.Denied? }

  /** `kgAdminStatus ?? false` */
  function Told(status: Option<Answer>): Answer { if status.Some? then status.value else NotAdministrator }

  /** `loadKgAdminStatus`, up to the request */
  function Load(s: State): State {
    if s.status.Some? then s.(callers := s.callers + [Caller(None, Some(s.status.value))])
    else if s.request.Some? then s.(callers := s.callers + [Caller(s.request, None)])
    else s.(request := Some(s.sent), inflight := s.inflight + {s.sent}, sent := s.sent + 1,
            callers := s.callers + [Caller(Some(s.sent), None)])
  }

  function Tell(callers: seq<Caller>, id: nat, answer: Answer): (told: seq<Caller>)
    ensures |told| == |callers|
  {
    seq(|callers|, k requires 0 <= k < |callers| =>
      if callers[k].joined == Some(id) then callers[k].(answer := Some(answer)) else callers[k])
  }

  /** `loadKgAdminStatus`, once request `id` is answered */
  function Settle(s: State, id: nat, reply: Reply): State {
    s.(status := Memory(reply), request := None, inflight := s.inflight - {id}, replies := s.replies + [reply],
       callers := Tell(s.callers, id, Told(Memory(reply))))
  }

  function Step(s: State, e: Event): State {
    match e
    case Mutated => s.(queued := true)
    case Microtask(shell) => if !s.queued then s else if shell then Load(s.(queued := false)) else s.(queued := false)
    case Ask => Load(s)
    case Replied(id, reply) => if id in s.inflight then Settle(s, id, reply) else s
  }

  function RunFrom(s: State, events: seq<Event>): State {
    if events == [] then s else Step(RunFrom(s, events[..|events| - 1]), events[|events| - 1])
  }

  class Status {
    var status: Option<Answer>
    var request: Option<nat>
    var inflight: set<nat>
    var sent: nat
    var replies: seq<Reply>
    var callers: seq<Caller>
    var queued: bool

    function View(): State
      reads this
    {
      State(status, request, inflight, sent, replies, callers, queued)
    }

    constructor ()
      ensures View() == Init()
    {
      status, request, inflight, sent, replies, callers, queued := None, None, {}, 0, [], [], true;
    }

    method LoadStatus()
      modifies this
      ensures View() == Load(old(View()))
    {
      if status.Some? {
        callers := callers + [Caller(None, status)];
        return;
      }
      if request.None? {
        request := Some(sent);
        inflight := inflight + {sent};
        sent := sent + 1;
      }
      callers := callers + [Caller(request, None)];
    }

    method OnReply(id: nat, reply: Reply)
      requires id in inflight
      modifies this
      ensures View() == Step(old(View()), Replied(id, reply))
    {
      inflight := inflight - {id};
      replies := replies + [reply];
      match reply {
        case Granted(value) => status := Some(Administrator(value));
        case Denied => status := Some(NotAdministrator);
        case _ => status := None;
      }
      request := None;
      callers := Tell(callers, id, Told(status));
    }

    method Reconcile(shell: bool)
      modifies this
      ensures View() == Step(old(View()), Microtask(shell))
    {
      if queued {
        queued := false;
        if shell { LoadStatus(); }
      }
    }
  }

  // ----- what every run keeps

  /** One request at a time; the memory is that of the only definitive reply, which is the last one. */
  ghost predicate FlightInv(s: State) {
    && s.inflight == (if s.request.Some? then {s.request.value} else {})
    && (s.request.Some? ==> s.status.None? && s.request.value == |s.replies|)
    && s.sent == |s.replies| + |s.inflight|
    && (forall k :: 0 <= k < |s.replies| - 1 ==> !IsDefinitive(s.replies[k]))
    && s.status == if s.replies == [] then None else Memory(s.replies[|s.replies| - 1])
  }

  /** Who joined request k was told what reply k amounts to, and nobody is told before. */
  ghost predicate CallersInv(callers: seq<Caller>, replies: seq<Reply>, sent: nat) {
    forall c <- callers :: c.joined.Some? ==>
      && c.joined.value < sent
      && c.answer == if c.joined.value < |replies| then Some(Told(Memory(replies[c.joined.value]))) else None
  }

  /** Who joined no request was told what is remembered. */
  ghost predicate MemoryInv(callers: seq<Caller>, status: Option<Answer>) {
    forall c <- callers :: c.joined.None? ==> status.Some? && c.answer == status
  }

  ghost predicate Inv(s: State) {
    FlightInv(s) && CallersInv(s.callers, s.replies, s.sent) && MemoryInv(s.callers, s.status)
  }

  lemma LoadKeeps(s: State)
    requires Inv(s)
    ensures Inv(Load(s))
  {
    hide Memory;
  }

  lemma TellKeeps(callers: seq<Caller>, replies: seq<Reply>, sent: nat, reply: Reply)
    requires CallersInv(callers, replies, sent)
    ensures CallersInv(Tell(callers, |replies|, Told(Memory(reply))), replies + [reply], sent)
  {
    hide Memory;
    var told := Tell(callers, |replies|, Told(Memory(reply)));
    forall c | c in told && c.joined.Some?
      ensures c.joined.value < sent
      ensures c.answer == if c.joined.value < |replies + [reply]| then Some(Told(Memory((replies + [reply])[c.joined.value]))) else None
    {
      var k :| 0 <= k < |told| && told[k] == c;
      assert callers[k] in callers;
    }
  }

  lemma SettleKeeps(s: State, id: nat, reply: Reply)
    requires Inv(s) && id in s.inflight
    ensures Inv(Settle(s, id, reply))
  {
    hide CallersInv, MemoryInv, Tell;
    assert s.request == Some(id);
    TellKeeps(s.callers, s.replies, s.sent, reply);
    TellAlone(s.callers, id, Told(Memory(reply)));
    assert s.inflight - {id} == {};
  }

  lemma TellAlone(callers: seq<Caller>, id: nat, answer: Answer)
    requires MemoryInv(callers, None)
    ensures forall status: Option<Answer> :: MemoryInv(Tell(callers, id, answer), status)
  {
    var told := Tell(callers, id, answer);
    forall c | c in told ensures c.joined.Some? {
      var k :| 0 <= k < |told| && told[k] == c;
      assert callers[k] in callers;
    }
  }

  lemma {:induction false} RunKeeps(s: State, events: seq<Event>)
    requires Inv(s)
    ensures Inv(RunFrom(s, events))
  {
    hide Load, Settle, FlightInv, CallersInv, MemoryInv;
    if events != [] {
      var t := RunFrom(s, events[..|events| - 1]);
      RunKeeps(s, events[..|events| - 1]);
      QueueKeeps(t);
      LoadKeeps(t);
      LoadKeeps(t.(queued := false));
      match events[|events| - 1] {
        case Replied(id, reply) => if id in t.inflight { SettleKeeps(t, id, reply); }
        case _ =>
      }
    }
  }

  lemma QueueKeeps(s: State)
    requires Inv(s)
    ensures Inv(s.(queued := false)) && Inv(s.(queued := true))
  {
  }

  lemma InitInv()
    ensures Inv(Init())
  {
  }

  /** At most one request is in flight, and a new one is sent only if every one before it was answered with nothing to remember. */
  lemma SingleFlight(events: seq<Event>)
    ensures var s := RunFrom(Init(), events);
            && |s.inflight| <= 1 && (s.status.Some? ==> s.inflight == {})
            && s.sent <= |s.replies| + 1
            && (forall k :: 0 <= k < s.sent - 1 ==> k < |s.replies| && (s.replies[k] == Unauthorized || s.replies[k] == Empty))
  {
    hide RunFrom;
    InitInv();
    RunKeeps(Init(), events);
  }

  /** Whoever joins the same request is told the same. */
  lemma JoinedAlike(events: seq<Event>, a: nat, b: nat)
    requires var s := RunFrom(Init(), events);
             a < |s.callers| && b < |s.callers| && s.callers[a].joined.Some? && s.callers[a].joined == s.callers[b].joined
    ensures var s := RunFrom(Init(), events); s.callers[a].answer == s.callers[b].answer
  {
    hide Memory, RunFrom, FlightInv;
    InitInv();
    RunKeeps(Init(), events);
    var s := RunFrom(Init(), events);
    assert s.callers[a] in s.callers && s.callers[b] in s.callers;
  }

  /**
   An administrator is remembered if and only if some reply granted it, another
   session if and only if some reply refused it, and nothing if and only if all
   replies were 401 or empty.
   */
  lemma RememberedExactly(events: seq<Event>)
    ensures var s := RunFrom(Init(), events);
            && (forall v: string :: s.status == Some(Administrator(v)) <==> Granted(v) in s.replies)
            && (s.status == Some(NotAdministrator) <==> Denied in s.replies)
            && (s.status == None <==> forall reply <- s.replies :: reply == Unauthorized || reply == Empty)
  {
    hide RunFrom, CallersInv, MemoryInv;
    InitInv();
    RunKeeps(Init(), events);
    LastDecides(RunFrom(Init(), events));
  }

  lemma LastDecides(s: State)
    requires FlightInv(s)
    ensures forall v: string :: s.status == Some(Administrator(v)) <==> Granted(v) in s.replies
    ensures s.status == Some(NotAdministrator) <==> Denied in s.replies
    ensures s.status == None <==> forall reply <- s.replies :: reply == Unauthorized || reply == Empty
  {
    if s.replies != [] {
      var last := s.replies[|s.replies| - 1];
      assert last in s.replies;
      forall reply | reply in s.replies && reply != last ensures reply == Unauthorized || reply == Empty {
        var k :| 0 <= k < |s.replies| && s.replies[k] == reply;
        assert !IsDefinitive(s.replies[k]);
      }
    }
  }

  /**
   Who joined a request learns its reply, once it is there, and takes 401 and an
   empty one for a refusal; who joined none learns what had been granted or refused.
   */
  lemma ToldExactly(events: seq<Event>, caller: Caller)
    requires caller in RunFrom(Init(), events).callers
    ensures var replies := RunFrom(Init(), events).replies;
            match caller.joined
            case Some(k) =>
              caller.answer == (if k >= |replies| then None
                                else if replies[k].Granted? then Some(Administrator(replies[k].status)) else Some(NotAdministrator))
            case None =>
              (exists v: string :: caller.answer == Some(Administrator(v)) && Granted(v) in replies)
              || (caller.answer == Some(NotAdministrator) && Denied in replies)
  {
    hide RunFrom;
    InitInv();
    RunKeeps(Init(), events);
    RememberedExactly(events);
    var s := RunFrom(Init(), events);
    if caller.joined.None? && caller.answer.value.Administrator? {
      assert Granted(caller.answer.value.status) in s.replies;
    }
  }

  // ----- when a request is sent

  /** A pass is queued: the page has changed, or was loaded, since the last one. */
  ghost predicate PassWaits(events: seq<Event>) {
    forall n :: 0 <= n < |events| && events[n].Microtask? ==> exists m :: n < m < |events| && events[m].Mutated?
  }

  lemma PassWaitsStep(events: seq<Event>, e: Event)
    ensures PassWaits(events + [e]) <==> e.Mutated? || (PassWaits(events) && !e.Microtask?)
  {
    var all := events + [e];
    assert all[|events|] == e;
    if PassWaits(events) && !e.Microtask? {
      forall n | 0 <= n < |all| && all[n].Microtask? ensures exists m :: n < m < |all| && all[m].Mutated? {
        assert events[n] == all[n];
        var m :| n < m < |events| && events[m].Mutated?;
        assert all[m].Mutated?;
      }
    }
    if PassWaits(all) && !e.Mutated? {
      forall n | 0 <= n < |events| && events[n].Microtask? ensures exists m :: n < m < |events| && events[m].Mutated? {
        assert all[n] == events[n];
        var m :| n < m < |all| && all[m].Mutated?;
        assert events[m].Mutated?;
      }
    }
  }

  lemma RunGrows(events: seq<Event>, e: Event)
    ensures RunFrom(Init(), events + [e]) == Step(RunFrom(Init(), events), e)
  {
    assert (events + [e])[..|events|] == events;
  }

  lemma {:induction false} QueuedExactly(events: seq<Event>)
    ensures RunFrom(Init(), events).queued <==> PassWaits(events)
  {
    hide PassWaits;
    if events == [] {
      NothingRan();
    } else {
      var before, e := events[..|events| - 1], events[|events| - 1];
      QueuedExactly(before);
      PassWaitsStep(before, e);
      assert before + [e] == events;
    }
  }

  lemma NothingRan()
    ensures PassWaits([]) && RunFrom(Init(), []) == Init()
  {
  }

  /** Somebody wants the status: a caller, or the queued pass if the navigation is on the page. */
  ghost predicate Wants(events: seq<Event>, e: Event) { e == Ask || (e == Microtask(true) && PassWaits(events)) }

  /**
   A request is sent exactly when somebody wants the status, none is in flight,
   and every reply so far was 401 or empty; a reply to it is kept, and nothing
   else touches the requests.
   */
  lemma RequestsExactly(events: seq<Event>, e: Event)
    ensures var s, t := RunFrom(Init(), events), RunFrom(Init(), events + [e]);
            var unknown := forall reply <- s.replies :: reply == Unauthorized || reply == Empty;
            if Wants(events, e) && s.inflight == {} && unknown then
              t.sent == s.sent + 1 && t.inflight == {s.sent} && t.replies == s.replies
              && t.callers == s.callers + [Caller(Some(s.sent), None)]
            else if Wants(events, e) && unknown then
              t.sent == s.sent && t.inflight == s.inflight && t.replies == s.replies
              && exists id <- s.inflight :: t.callers == s.callers + [Caller(Some(id), None)]
            else if Wants(events, e) then
              t.sent == s.sent && t.inflight == s.inflight && t.replies == s.replies
              && t.callers == s.callers + [Caller(None, s.status)]
            else if e.Replied? && e.id in s.inflight then
              t.sent == s.sent && t.inflight == {} && t.replies == s.replies + [e.reply] && |t.callers| == |s.callers|
            else t.sent == s.sent && t.inflight == s.inflight && t.replies == s.replies && t.callers == s.callers
  {
    hide RunFrom, PassWaits, CallersInv, MemoryInv, Memory, Tell;
    InitInv();
    RunKeeps(Init(), events);
    RunGrows(events, e);
    QueuedExactly(events);
    var s := RunFrom(Init(), events);
    RememberedExactly(events);
    assert s.request.Some? ==> s.request.value in s.inflight;
  }

  /** What is remembered never changes, is told to everybody, and ends the requests. */
  lemma {:induction false} RememberedForGood(s: State, events: seq<Event>)
    requires Inv(s) && s.status.Some?
    ensures var t := RunFrom(s, events);
            && t.status == s.status && t.sent == s.sent && t.replies == s.replies && s.callers <= t.callers
            && forall k :: |s.callers| <= k < |t.callers| ==> t.callers[k] == Caller(None, s.status)
  {
    hide CallersInv;
    if events != [] {
      RememberedForGood(s, events[..|events| - 1]);
      RunKeeps(s, events[..|events| - 1]);
    }
  }

  // ----- drawing the administration pages

  /**
   `renderKgAdminRoute` looks at its flag, waits for the status, compares the
   address with the key of what is drawn, and only then sets the flag. `checked`
   passes have looked and are waiting; `active` holds the addresses that are
   being drawn; `shell` says that a drawn page is in the content.
   */
  datatype Drawing = Drawing(hash: string, rendering: bool, renderKey: string, shell: bool, checked: nat, active: seq<string>)

  datatype Turn =
    | Check                        // a pass looks at the flag and begins to wait
    | Proceed                      // a waiting pass goes on
    | GiveUp                       // a waiting pass is no administrator, finds no content, or a section of another module
    | Done(k: nat, drawn: bool)    // the k-th drawing is finished, with the page or with an error
    | Redraw                       // the application writes the content
    | Navigate(hash: string)       // the address changes, and its event forgets the key

  function Turned(d: Drawing, turn: Turn): Drawing {
    match turn
    case Check => if d.rendering then d else d.(checked := d.checked + 1)
    case Proceed =>
      if d.checked == 0 then d
      else if d.renderKey == d.hash && d.shell then d.(checked := d.checked - 1)
      else d.(checked := d.checked - 1, rendering := true, shell := false, active := d.active + [d.hash])
    case GiveUp => if d.checked == 0 then d else d.(checked := d.checked - 1)
    case Done(k, drawn) =>
      if k >= |d.active| then d
      else d.(rendering := false, active := d.active[..k] + d.active[k + 1..], shell := drawn,
              renderKey := if drawn then d.active[k] else d.renderKey)
    case Redraw => d.(shell := false)
    case Navigate(hash) => d.(hash := hash, renderKey := "")
  }

  function Turns(hash: string, turns: seq<Turn>): Drawing {
    if turns == [] then Drawing(hash, false, "", false, 0, [])
    else Turned(Turns(hash, turns[..|turns| - 1]), turns[|turns| - 1])
  }

  /** A waiting pass draws the address unless its page stands in the content already. */
  predicate Draws(d: Drawing, turn: Turn) { turn == Proceed && d.checked > 0 && !(d.renderKey == d.hash && d.shell) }

  /** The k-th drawing ends. */
  predicate Ends(d: Drawing, turn: Turn) { turn.Done? && turn.k < |d.active| }

  /** What every turn leaves: which addresses are being drawn, which passes wait, and which page stands there. */
  lemma TurnExactly(d: Drawing, turn: Turn)
    ensures var t := Turned(d, turn);
            && t.active == (if Draws(d, turn) then d.active + [d.hash]
                            else if Ends(d, turn) then d.active[..turn.k] + d.active[turn.k + 1..] else d.active)
            && t.checked == d.checked + (if turn == Check && !d.rendering then 1
                                         else if (turn == Proceed || turn == GiveUp) && d.checked > 0 then -1 else 0)
            && t.rendering == (Draws(d, turn) || (d.rendering && !Ends(d, turn)))
            && t.hash == (if turn.Navigate? then turn.hash else d.hash)
            && t.renderKey == (if turn.Navigate? then "" else if Ends(d, turn) && turn.drawn then d.active[turn.k] else d.renderKey)
            && t.shell == (if Ends(d, turn) then turn.drawn else d.shell && !Draws(d, turn) && turn != Redraw)
  {
  }

  /** No pass looks at the flag while another one waits between the look and the drawing. */
  ghost predicate ChecksApart(hash: string, turns: seq<Turn>) {
    forall n :: 0 <= n < |turns| && turns[n].Check? ==> Turns(hash, turns[..n]).checked == 0 || Turns(hash, turns[..n]).rendering
  }

  lemma ChecksApartInit(hash: string, turns: seq<Turn>)
    requires turns != []
    ensures ChecksApart(hash, turns)
            <==> ChecksApart(hash, turns[..|turns| - 1])
                 && (turns[|turns| - 1].Check? ==>
                       var d := Turns(hash, turns[..|turns| - 1]); d.checked == 0 || d.rendering)
  {
    hide Turns;
    var before := turns[..|turns| - 1];
    forall n | 0 <= n < |before| ensures before[..n] == turns[..n] && before[n] == turns[n] {
    }
    assert before == turns[..|turns| - 1];
  }

  /** While that holds the flag does its work. */
  lemma {:induction false} DrawnOneAtATime(hash: string, turns: seq<Turn>)
    requires ChecksApart(hash, turns)
    ensures var d := Turns(hash, turns); d.checked + |d.active| <= 1 && d.rendering == (d.active != [])
  {
    hide ChecksApart;
    if turns != [] {
      ChecksApartInit(hash, turns);
      DrawnOneAtATime(hash, turns[..|turns| - 1]);
    }
  }

  lemma {:induction false} FirstOffence(hash: string, turns: seq<Turn>) returns (n: nat)
    requires !ChecksApart(hash, turns)
    ensures n < |turns| && turns[n].Check? && ChecksApart(hash, turns[..n])
    ensures Turns(hash, turns[..n]).checked > 0 && !Turns(hash, turns[..n]).rendering
  {
    var before := turns[..|turns| - 1];
    ChecksApartInit(hash, turns);
    if ChecksApart(hash, before) {
      n := |turns| - 1;
    } else {
      n := FirstOffence(hash, before);
      assert before[..n] == turns[..n];
    }
  }

  const TWO_PASSES: seq<Turn> := [Redraw, Proceed, Proceed]

  lemma TurnsJoin(hash: string, turns: seq<Turn>)
    ensures Turns(hash, turns + TWO_PASSES)
            == Turned(Turned(Turned(Turns(hash, turns), Redraw), Proceed), Proceed)
  {
    hide Turned;
    var a, b, c := turns + [Redraw], turns + [Redraw, Proceed], turns + TWO_PASSES;
    assert c[..|c| - 1] == b && b[..|b| - 1] == a && a[..|a| - 1] == turns;
    assert c[|c| - 1] == Proceed && b[|b| - 1] == Proceed && a[|a| - 1] == Redraw;
    assert Turns(hash, a) == Turned(Turns(hash, turns), Redraw);
    assert Turns(hash, b) == Turned(Turns(hash, a), Proceed);
    assert Turns(hash, c) == Turned(Turns(hash, b), Proceed);
  }

  lemma OffenceDraws(d: Drawing)
    requires d.checked == 1 && d.active == [] && !d.rendering
    ensures |Turned(Turned(Turned(Turned(d, Check), Redraw), Proceed), Proceed).active| == 2
  {
  }

  lemma TwoProceed(d: Drawing)
    requires d.checked + |d.active| <= 1
    ensures |Turned(Turned(Turned(d, Redraw), Proceed), Proceed).active| <= 1
  {
  }

  /**
   Pages are drawn one at a time, whatever the application writes meanwhile, if
   and only if no pass looks at the flag while another one waits: at the first
   such look two drawings are two turns away.
   */
  lemma DrawnOneAtATimeExactly(hash: string, turns: seq<Turn>)
    ensures ChecksApart(hash, turns)
            <==> forall n :: 0 <= n <= |turns| ==> |Turns(hash, turns[..n] + TWO_PASSES).active| <= 1
  {
    hide Turns, Turned, ChecksApart;
    if ChecksApart(hash, turns) {
      forall n | 0 <= n <= |turns| ensures |Turns(hash, turns[..n] + TWO_PASSES).active| <= 1 {
        ApartPrefix(hash, turns, n);
        DrawnOneAtATime(hash, turns[..n]);
        TurnsJoin(hash, turns[..n]);
        TwoProceed(Turns(hash, turns[..n]));
      }
    } else {
      var n := FirstOffence(hash, turns);
      DrawnOneAtATime(hash, turns[..n]);
      OffenceDraws(Turns(hash, turns[..n]));
      TurnsJoin(hash, turns[..n + 1]);
      OneMoreTurn(hash, turns, n);
      assert |Turns(hash, turns[..n + 1] + TWO_PASSES).active| == 2;
    }
  }

  lemma OneMoreTurn(hash: string, turns: seq<Turn>, n: nat)
    requires n < |turns|
    ensures Turns(hash, turns[..n + 1]) == Turned(Turns(hash, turns[..n]), turns[n])
  {
    hide Turned;
    assert turns[..n + 1][..n] == turns[..n];
  }

  lemma ApartPrefix(hash: string, turns: seq<Turn>, n: nat)
    requires ChecksApart(hash, turns) && n <= |turns|
    ensures ChecksApart(hash, turns[..n])
  {
    hide Turns;
    forall m | 0 <= m < n ensures turns[..n][..m] == turns[..m] && turns[..n][m] == turns[m] {
    }
  }

  /** From an empty page: two waiting passes both get past the key and draw. */
  lemma WaitingPassesBothDraw(hash: string)
    requires hash != ""
    ensures Turns(hash, [Check, Check, Proceed, Proceed]).active == [hash, hash]
  {
    assert [Check, Check, Proceed, Proceed][..3] == [Check, Check, Proceed];
    assert [Check, Check, Proceed][..2] == [Check, Check];
    assert [Check, Check][..1] == [Check] && [Check][..0] == [];
    assert Turns(hash, [Check]) == Drawing(hash, false, "", false, 1, []);
    assert Turns(hash, [Check, Check]) == Drawing(hash, false, "", false, 2, []);
    assert Turns(hash, [Check, Check, Proceed]) == Drawing(hash, true, "", false, 1, [hash]);
  }
}
