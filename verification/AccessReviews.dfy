/**
 The two panels on external access, which load whenever the page changes and
 change the page when they have loaded.
 */
module AccessReviews {
  import opened Text

  /** What a load is for: the organization or repository, and the address it was started at. */
  datatype Key = Key(place: string, hash: string)

  /**
   One panel. `place` is where it belongs on the page as it is now, `ready`
   says that the page holds the element a load needs, `shown` that the panel's
   own element is in the document. `inflight` holds the loads not yet answered
   and `loads` counts all that were started.
   */
  datatype Panel = Panel(place: Option<string>, ready: bool, shown: bool, busy: bool, key: Option<Key>,
                         answered: set<Key>, inflight: seq<Key>, loads: nat)

  datatype State = State(hash: string, queued: bool, life: Panel, camp: Panel)

  datatype Which = Life | Camp

  /**
   How a load ends. The data may arrive and go into the document, or next to an
   element that has left it, or find no parent to go into; the server may
   refuse (401, 403, 404); anything else fails.
   */
  datatype Reply = Landed | Detached | Unplaced | Refused | Failed

  datatype Around = Around(place: Option<string>, ready: bool, keeps: bool)

  datatype Event =
    | Address(hash: string, place: Option<string>)   // the address changes
    | HashChange                                     // the event for it arrives
    | Mutate(life: Around, camp: Around)             // somebody else changes the page
    | Microtask                                      // the queued pass
    | Force(which: Which)                            // reload after an edit
    | Respond(which: Which, k: nat, reply: Reply)    // the k-th load in flight ends

  function Fresh(place: Option<string>, ready: bool): Panel {
    Panel(place, ready, false, false, None, {}, [], 0)
  }

  function Init(hash: string, life: Option<string>, ready: bool, camp: Option<string>): State {
    State(hash, true, Fresh(life, ready), Fresh(camp, true))
  }

  /** `loadRepositoryLifecycle` and `loadCampaignPanel`, up to the request */
  function Load(p: Panel, hash: string, force: bool): Panel {
    if p.place.None? || p.busy then p
    else
      var key := Key(p.place.value, hash);
      if !force && p.key == Some(key) && p.shown then p
      else if !force && key in p.answered then p
      else if !p.ready then p
      else p.(busy := true, inflight := p.inflight + [key], loads := p.loads + 1)
  }

  function Without(loads: seq<Key>, k: nat): seq<Key>
    requires k < |loads|
  {
    loads[..k] + loads[k + 1..]
  }

  /** The data arrived and is still for this place. */
  predicate Arrives(p: Panel, k: nat, reply: Reply)
    requires k < |p.inflight|
  {
    !reply.Refused? && !reply.Failed? && p.place == Some(p.inflight[k].place)
  }

  /** The rest of the two functions */
  function Settle(p: Panel, k: nat, reply: Reply): Panel
    requires k < |p.inflight|
  {
    var key := p.inflight[k];
    var q := p.(inflight := Without(p.inflight, k), busy := false);
    if reply.Refused? then q.(answered := q.answered + {key})
    else if !Arrives(p, k, reply) then q
    else q.(shown := reply.Landed?, key := if reply.Unplaced? then q.key else Some(key))
  }

  /** The document changed: the old panel was removed or the new one inserted. */
  predicate Mutates(p: Panel, k: nat, reply: Reply)
    requires k < |p.inflight|
  {
    Arrives(p, k, reply) && (reply.Landed? || p.shown)
  }

  function Get(s: State, which: Which): Panel { if which.Life? then s.life else s.camp }

  function Put(s: State, which: Which, p: Panel): State {
    if which.Life? then s.(life := p) else s.(camp := p)
  }

  function Moved(p: Panel, around: Around, ready: bool): Panel {
    p.(place := around.place, ready := ready, shown := p.shown && around.keeps)
  }

  function Forgotten(p: Panel): Panel { p.(key := None, answered := {}) }

  /** One event; one that nothing in flight or queued can deliver changes nothing. */
  function Step(s: State, e: Event): State {
    match e
    case Address(hash, place) => s.(hash := hash, life := s.life.(place := place))
    case HashChange => s.(life := Forgotten(s.life), camp := Forgotten(s.camp), queued := true)
    case Mutate(life, camp) => s.(life := Moved(s.life, life, life.ready), camp := Moved(s.camp, camp, true), queued := true)
    case Microtask =>
      if s.queued then s.(queued := false, life := Load(s.life, s.hash, false), camp := Load(s.camp, s.hash, false)) else s
    case Force(which) => Put(s, which, Load(Get(s, which), s.hash, true))
    case Respond(which, k, reply) =>
      var p := Get(s, which);
      if k < |p.inflight| then Put(s, which, Settle(p, k, reply)).(queued := s.queued || Mutates(p, k, reply)) else s
  }

  function RunFrom(s: State, events: seq<Event>): State {
    if events == [] then s else Step(RunFrom(s, events[..|events| - 1]), events[|events| - 1])
  }

  // ----- the page's variables

  class AccessPanel {
    var place: Option<string>
    var ready: bool
    var shown: bool
    var busy: bool
    var key: Option<Key>
    var answered: set<Key>
    var inflight: seq<Key>
    var loads: nat

    function View(): Panel
      reads this
    {
      Panel(place, ready, shown, busy, key, answered, inflight, loads)
    }

    constructor (here: Option<string>, hasRoom: bool)
      ensures View() == Fresh(here, hasRoom)
    {
      place, ready, shown, busy := here, hasRoom, false, false;
      key, answered, inflight, loads := None, {}, [], 0;
    }

    method LoadPanel(hash: string, force: bool)
      modifies this
      ensures View() == Load(old(View()), hash, force)
    {
      if place.None? || busy { return; }
      var wanted := Key(place.value, hash);
      if !force && key == Some(wanted) && shown { return; }
      if !force && wanted in answered { return; }
      if !ready { return; }
      busy := true;
      inflight := inflight + [wanted];
      loads := loads + 1;
    }

    method OnReply(k: nat, reply: Reply) returns (mutates: bool)
      requires k < |inflight|
      modifies this
      ensures View() == Settle(old(View()), k, reply)
      ensures mutates == Mutates(old(View()), k, reply)
    {
      var wanted := inflight[k];
      mutates := false;
      inflight := Without(inflight, k);
      if reply.Refused? {
        answered := answered + {wanted};
      } else if !reply.Failed? && place == Some(wanted.place) {
        mutates := shown || reply.Landed?;
        shown := reply.Landed?;
        if !reply.Unplaced? {
          key := Some(wanted);
        }
      }
      busy := false;
    }

    method Forget()
      modifies this
      ensures View() == Forgotten(old(View()))
    {
      key, answered := None, {};
    }
  }

  class Page {
    var hash: string
    var queued: bool
    const life: AccessPanel
    const camp: AccessPanel

    predicate Valid() { life != camp }

    function View(): State
      reads this, life, camp
    {
      State(hash, queued, life.View(), camp.View())
    }

    constructor (address: string, lifePlace: Option<string>, ready: bool, campPlace: Option<string>)
      ensures Valid() && fresh(life) && fresh(camp) && View() == Init(address, lifePlace, ready, campPlace)
    {
      hash, queued := address, true;
      life := new AccessPanel(lifePlace, ready);
      camp := new AccessPanel(campPlace, true);
    }

    method OnHashChange()
      requires Valid()
      modifies this, life, camp
      ensures View() == Step(old(View()), HashChange)
    {
      life.Forget();
      camp.Forget();
      queued := true;
    }

    method OnMicrotask()
      requires Valid()
      modifies this, life, camp
      ensures View() == Step(old(View()), Microtask)
    {
      if queued {
        queued := false;
        life.LoadPanel(hash, false);
        camp.LoadPanel(hash, false);
      }
    }

    method OnReply(which: Which, k: nat, reply: Reply)
      requires Valid() && k < |Get(View(), which).inflight|
      modifies this, life, camp
      ensures View() == Step(old(View()), Respond(which, k, reply))
    {
      var panel := if which.Life? then life else camp;
      var mutates := panel.OnReply(k, reply);
      queued := queued || mutates;
    }
  }

  // ----- one load at a time

  ghost predicate Inv(p: Panel) { |p.inflight| == if p.busy then 1 else 0 }

  lemma LoadKeeps(p: Panel, hash: string, force: bool)
    requires Inv(p)
    ensures Inv(Load(p, hash, force))
  {
  }

  lemma SettleKeeps(p: Panel, k: nat, reply: Reply)
    requires Inv(p) && k < |p.inflight|
    ensures Inv(Settle(p, k, reply)) && Settle(p, k, reply).inflight == []
  {
  }

  lemma StepKeeps(s: State, e: Event)
    requires Inv(s.life) && Inv(s.camp)
    ensures Inv(Step(s, e).life) && Inv(Step(s, e).camp)
  {
    hide Load, Settle, Mutates;
    match e {
      case Address(_, _) =>
      case HashChange =>
      case Mutate(_, _) =>
      case Microtask =>
        LoadKeeps(s.life, s.hash, false);
        LoadKeeps(s.camp, s.hash, false);
      case Force(which) => LoadKeeps(Get(s, which), s.hash, true);
      case Respond(which, k, reply) =>
        if k < |Get(s, which).inflight| {
          SettleKeeps(Get(s, which), k, reply);
        }
    }
  }

  lemma {:induction false} OneInFlight(s: State, events: seq<Event>, which: Which)
    requires Inv(s.life) && Inv(s.camp)
    ensures Inv(RunFrom(s, events).life) && Inv(RunFrom(s, events).camp)
    ensures |Get(RunFrom(s, events), which).inflight| <= 1
  {
    hide Step;
    if events != [] {
      OneInFlight(s, events[..|events| - 1], which);
      StepKeeps(RunFrom(s, events[..|events| - 1]), events[|events| - 1]);
    }
  }

  // ----- what each event does

  lemma RunGrows(s: State, events: seq<Event>, e: Event)
    ensures RunFrom(s, events + [e]) == Step(RunFrom(s, events), e)
  {
    assert (events + [e])[..|events|] == events;
  }

  /** An edit, or a pass that finds the panel neither in place nor refused, calls for a load; there is room for it and none in flight. */
  predicate Calls(s: State, e: Event, which: Which) {
    var p := Get(s, which);
    && p.place.Some? && p.ready && p.inflight == []
    && (e == Force(which)
        || (e == Microtask && s.queued
            && Key(p.place.value, s.hash) !in p.answered && !(p.shown && p.key == Some(Key(p.place.value, s.hash)))))
  }

  /** The load in flight ends. */
  predicate Ends(s: State, e: Event, which: Which) {
    e.Respond? && e.which == which && e.k < |Get(s, which).inflight|
  }

  /** In every run a load is started exactly when one is called for, and leaves exactly when it ends. */
  lemma LoadsExactly(start: State, events: seq<Event>, e: Event, which: Which)
    requires Inv(start.life) && Inv(start.camp)
    ensures var s, t := RunFrom(start, events), RunFrom(start, events + [e]);
            var p, q := Get(s, which), Get(t, which);
            if Calls(s, e, which) then q.loads == p.loads + 1 && q.inflight == [Key(p.place.value, s.hash)]
            else q.loads == p.loads && q.inflight == (if Ends(s, e, which) then [] else p.inflight)
  {
    hide RunFrom, Load, Settle, Mutates;
    OneInFlight(start, events, which);
    RunGrows(start, events, e);
    var s := RunFrom(start, events);
    var p := Get(s, which);
    PanelLoads(p, s.hash, true);
    PanelLoads(p, s.hash, false);
    if e.Respond? && e.k < |Get(s, e.which).inflight| {
      SettleKeeps(Get(s, e.which), e.k, e.reply);
      SettleLoads(Get(s, e.which), e.k, e.reply);
    }
  }

  lemma PanelLoads(p: Panel, hash: string, force: bool)
    requires Inv(p)
    ensures var q := Load(p, hash, force);
            if p.place.Some? && p.ready && p.inflight == []
               && (force || (Key(p.place.value, hash) !in p.answered && !(p.shown && p.key == Some(Key(p.place.value, hash)))))
            then q.loads == p.loads + 1 && q.inflight == [Key(p.place.value, hash)]
            else q.loads == p.loads && q.inflight == p.inflight
  {
  }

  lemma SettleLoads(p: Panel, k: nat, reply: Reply)
    requires k < |p.inflight|
    ensures Settle(p, k, reply).loads == p.loads
  {
  }

  /** The data of a load came for the place where the panel is now. */
  predicate Delivers(s: State, e: Event, which: Which) {
    && Ends(s, e, which) && (e.reply == Landed || e.reply == Detached || e.reply == Unplaced)
    && Get(s, which).place == Some(Get(s, which).inflight[e.k].place)
  }

  /** What a panel remembers, and whether it is in the document. */
  lemma RemembersExactly(s: State, e: Event, which: Which)
    ensures var p, q := Get(s, which), Get(Step(s, e), which);
            && q.answered == (if e == HashChange then {}
                              else if Ends(s, e, which) && e.reply == Refused then p.answered + {p.inflight[e.k]}
                              else p.answered)
            && q.key == (if e == HashChange then None
                         else if Delivers(s, e, which) && e.reply != Unplaced then Some(p.inflight[e.k])
                         else p.key)
            && q.shown == (if e.Mutate? then p.shown && (if which == Life then e.life else e.camp).keeps
                           else if Delivers(s, e, which) then e.reply == Landed
                           else p.shown)
  {
    hide Load, Settle, Mutates;
    LoadRemembers(Get(s, which), s.hash, true);
    LoadRemembers(Get(s, which), s.hash, false);
    if e.Respond? && e.k < |Get(s, e.which).inflight| {
      SettleRemembers(Get(s, e.which), e.k, e.reply);
    }
  }

  lemma LoadRemembers(p: Panel, hash: string, force: bool)
    ensures var q := Load(p, hash, force); q.answered == p.answered && q.key == p.key && q.shown == p.shown
  {
  }

  lemma SettleRemembers(p: Panel, k: nat, reply: Reply)
    requires k < |p.inflight|
    ensures var q := Settle(p, k, reply);
            var here := p.place == Some(p.inflight[k].place) && (reply == Landed || reply == Detached || reply == Unplaced);
            && q.answered == (if reply == Refused then p.answered + {p.inflight[k]} else p.answered)
            && q.key == (if here && reply != Unplaced then Some(p.inflight[k]) else p.key)
            && q.shown == (if here then reply == Landed else p.shown)
  {
  }

  /** A pass is queued by everything that changes the document, this panel's arrival or removal included. */
  lemma QueuedExactly(s: State, e: Event)
    ensures Step(s, e).queued
            == (e == HashChange || e.Mutate?
                || (exists which: Which :: Delivers(s, e, which) && (e.reply == Landed || Get(s, which).shown))
                || (s.queued && e != Microtask))
  {
  }

  // ----- how many loads there can be

  /** A pass over the page as it is would start a load, were none in flight. */
  predicate NeedsLoad(p: Panel, hash: string) {
    p.place.Some? && p.ready
    && var key := Key(p.place.value, hash); !(p.key == Some(key) && p.shown) && key !in p.answered
  }

  /** The load in flight is for another place or address. */
  predicate IsStale(p: Panel, hash: string) {
    p.inflight != [] && (p.place.None? || p.inflight[0] != Key(p.place.value, hash))
  }

  /** The loads still to be expected when nothing happens but passes and replies. */
  function Credit(p: Panel, hash: string): nat {
    if p.inflight == [] then (if NeedsLoad(p, hash) then 1 else 0) else if IsStale(p, hash) then 1 else 0
  }

  /** What can call for a load: navigation, an edit, a change of the panel's surroundings, a failed load. */
  predicate Disturbs(s: State, e: Event, which: Which) {
    match e
    case Address(_, _) => true
    case HashChange => true
    case Mutate(life, camp) =>
      if which.Life? then s.life != Moved(s.life, life, life.ready) else s.camp != Moved(s.camp, camp, true)
    case Microtask => false
    case Force(other) => which == other
    case Respond(other, k, reply) => which == other && k < |Get(s, which).inflight| && !reply.Landed? && !reply.Refused?
  }

  lemma CreditSmall(p: Panel, hash: string)
    ensures Credit(p, hash) <= 1
  {
  }

  lemma LoadCredit(p: Panel, hash: string, force: bool)
    requires Inv(p)
    ensures var q := Load(p, hash, force);
            p.loads <= q.loads && q.loads + Credit(q, hash) <= p.loads + Credit(p, hash) + if force then 1 else 0
  {
  }

  lemma SettleCredit(p: Panel, hash: string, k: nat, reply: Reply)
    requires Inv(p) && k < |p.inflight|
    ensures var q := Settle(p, k, reply);
            p.loads == q.loads && (reply.Landed? || reply.Refused? ==> Credit(q, hash) <= Credit(p, hash))
  {
    SettleKeeps(p, k, reply);
  }

  lemma StepCredit(s: State, e: Event, which: Which)
    requires Inv(s.life) && Inv(s.camp)
    ensures var p, q := Get(s, which), Get(Step(s, e), which);
            q.loads + Credit(q, Step(s, e).hash) <= p.loads + Credit(p, s.hash) + if Disturbs(s, e, which) then 1 else 0
    ensures Get(s, which).loads <= Get(Step(s, e), which).loads
  {
    hide Load, Settle, Mutates, Credit;
    CreditSmall(Get(Step(s, e), which), Step(s, e).hash);
    match e {
      case Address(_, _) =>
      case HashChange =>
      case Mutate(_, _) =>
      case Microtask => LoadCredit(Get(s, which), s.hash, false);
      case Force(other) => LoadCredit(Get(s, which), s.hash, true);
      case Respond(other, k, reply) =>
        if other == which && k < |Get(s, which).inflight| {
          SettleCredit(Get(s, which), s.hash, k, reply);
        }
    }
  }

  function Disturbances(s: State, events: seq<Event>, which: Which): nat {
    if events == [] then 0
    else
      var before := events[..|events| - 1];
      Disturbances(s, before, which) + if Disturbs(RunFrom(s, before), events[|events| - 1], which) then 1 else 0
  }

  lemma {:induction false} RunCredit(s: State, events: seq<Event>, which: Which)
    requires Inv(s.life) && Inv(s.camp)
    ensures var p, q := Get(s, which), Get(RunFrom(s, events), which);
            q.loads + Credit(q, RunFrom(s, events).hash) <= p.loads + Credit(p, s.hash) + Disturbances(s, events, which)
    ensures Get(s, which).loads <= Get(RunFrom(s, events), which).loads
  {
    hide Step, Credit, Disturbs;
    if events != [] {
      var before := events[..|events| - 1];
      RunCredit(s, before, which);
      OneInFlight(s, before, which);
      StepCredit(RunFrom(s, before), events[|events| - 1], which);
    }
  }

  /**
   However often the page changes, a panel starts at most one load more than
   there were disturbances of that panel.
   */
  lemma LoadsBounded(hash: string, life: Option<string>, ready: bool, camp: Option<string>, events: seq<Event>, which: Which)
    ensures var s := Init(hash, life, ready, camp);
            Get(RunFrom(s, events), which).loads <= 1 + Disturbances(s, events, which)
  {
    hide RunFrom, Disturbances;
    RunCredit(Init(hash, life, ready, camp), events, which);
  }

  /** A panel that needs no load, with no stale one in flight, loads nothing for any key undisturbed. */
  lemma SettledStays(s: State, events: seq<Event>, which: Which)
    requires Inv(s.life) && Inv(s.camp)
    requires !NeedsLoad(Get(s, which), s.hash) && !IsStale(Get(s, which), s.hash)
    requires Disturbances(s, events, which) == 0
    ensures Get(RunFrom(s, events), which).loads == Get(s, which).loads
  {
    hide RunFrom, Disturbances;
    RunCredit(s, events, which);
  }

  /** The event starts a load of the panel for this key. */
  predicate Starts(s: State, e: Event, which: Which, key: Key) {
    var p, q := Get(s, which), Get(Step(s, e), which);
    q.inflight == p.inflight + [key] && q.loads == p.loads + 1
  }

  /** Neither navigation nor an edit of this panel; the page may change in any way. */
  predicate IsUnforced(e: Event, which: Which) { !e.HashChange? && e != Force(which) }

  /** The panel of the place and the address stands in the document. */
  predicate IsInPlace(p: Panel, hash: string) {
    p.place.Some? && p.key == Some(Key(p.place.value, hash)) && p.shown
  }

  lemma LoadAnswered(p: Panel, hash: string, key: Key)
    ensures var q := Load(p, hash, false);
            && q.answered == p.answered
            && (key in p.answered ==> q.inflight != p.inflight + [key])
            && (IsInPlace(p, hash) ==> q == p)
  {
    var q := Load(p, hash, false);
    assert (p.inflight + [key])[|p.inflight|] == key;
    if q != p {
      assert q.inflight[|p.inflight|] == Key(p.place.value, hash);
    }
  }

  lemma SettleAnswered(p: Panel, k: nat, reply: Reply)
    requires k < |p.inflight|
    ensures p.answered <= Settle(p, k, reply).answered && Settle(p, k, reply).loads == p.loads
    ensures reply.Refused? ==> p.inflight[k] in Settle(p, k, reply).answered
  {
  }

  lemma AnsweredStep(s: State, e: Event, which: Which, key: Key)
    requires key in Get(s, which).answered && IsUnforced(e, which)
    ensures key in Get(Step(s, e), which).answered && !Starts(s, e, which, key)
  {
    hide Load, Settle, Mutates;
    match e {
      case Address(_, _) =>
      case Mutate(_, _) =>
      case Microtask => LoadAnswered(Get(s, which), s.hash, key);
      case Force(_) =>
      case Respond(other, k, reply) =>
        if k < |Get(s, other).inflight| {
          SettleAnswered(Get(s, other), k, reply);
        }
    }
  }

  lemma {:induction false} AnsweredStays(s: State, events: seq<Event>, which: Which, key: Key)
    requires key in Get(s, which).answered && forall e <- events :: IsUnforced(e, which)
    ensures key in Get(RunFrom(s, events), which).answered
    ensures forall n :: 0 <= n < |events| ==> !Starts(RunFrom(s, events[..n]), events[n], which, key)
    decreases |events|
  {
    hide Step, Starts;
    if events != [] {
      var init := events[..|events| - 1];
      AnsweredStays(s, init, which, key);
      AnsweredStep(RunFrom(s, init), events[|events| - 1], which, key);
      forall n | 0 <= n < |events| ensures !Starts(RunFrom(s, events[..n]), events[n], which, key) {
        assert n < |init| ==> init[..n] == events[..n] && init[n] == events[n];
      }
    }
  }

  /**
   A key that the server refused is not asked for again before the next
   navigation, unless by an edit: not in any run, however the page changes.
   */
  lemma RefusedStays(s: State, k: nat, events: seq<Event>, which: Which)
    requires k < |Get(s, which).inflight| && forall e <- events :: IsUnforced(e, which)
    ensures var key, t := Get(s, which).inflight[k], Step(s, Respond(which, k, Refused));
            && key in Get(RunFrom(t, events), which).answered
            && forall n :: 0 <= n < |events| ==> !Starts(RunFrom(t, events[..n]), events[n], which, key)
  {
    hide Settle, Starts;
    SettleAnswered(Get(s, which), k, Refused);
    AnsweredStays(Step(s, Respond(which, k, Refused)), events, which, Get(s, which).inflight[k]);
  }

  /** While a panel is in place only an edit loads it. */
  lemma InPlaceStep(s: State, e: Event, which: Which)
    requires IsInPlace(Get(s, which), s.hash) && e != Force(which)
    ensures Get(Step(s, e), which).loads == Get(s, which).loads
  {
    hide Load, Settle, Mutates;
    match e {
      case Address(_, _) =>
      case HashChange =>
      case Mutate(_, _) =>
      case Microtask => LoadAnswered(Get(s, which), s.hash, Key("", ""));
      case Force(_) =>
      case Respond(other, k, reply) =>
        if k < |Get(s, other).inflight| {
          SettleAnswered(Get(s, other), k, reply);
        }
    }
  }

  /** In every run the panel is loaded, other than by an edit, only where it is not in place. */
  lemma {:induction false} InPlaceStays(s: State, events: seq<Event>, which: Which)
    requires forall n :: 0 <= n < |events| ==>
               IsInPlace(Get(RunFrom(s, events[..n]), which), RunFrom(s, events[..n]).hash) && events[n] != Force(which)
    ensures Get(RunFrom(s, events), which).loads == Get(s, which).loads
    decreases |events|
  {
    hide Step, IsInPlace;
    if events != [] {
      var init := events[..|events| - 1];
      forall n | 0 <= n < |init|
        ensures IsInPlace(Get(RunFrom(s, init[..n]), which), RunFrom(s, init[..n]).hash) && init[n] != Force(which)
      {
        assert init[..n] == events[..n] && init[n] == events[n];
      }
      InPlaceStays(s, init, which);
      InPlaceStep(RunFrom(s, init), events[|events| - 1], which);
    }
  }

  /**
   Which replies leave the panel asking again: data that found no place in the
   document, and a failure unless the panel is there from before. A refusal and
   a panel that landed do not.
   */
  lemma RetriedExactly(p: Panel, hash: string, reply: Reply)
    requires p.place.Some? && p.ready && p.inflight == [Key(p.place.value, hash)]
    requires Key(p.place.value, hash) !in p.answered
    ensures NeedsLoad(Settle(p, 0, reply), hash)
            <==> reply.Detached? || reply.Unplaced?
                 || (reply.Failed? && !(p.key == Some(Key(p.place.value, hash)) && p.shown))
  {
  }

  /** A change of the page that touches neither panel, a pass, and a load that fails. */
  function Retry(s: State, which: Which): seq<Event> {
    [Mutate(Around(s.life.place, s.life.ready, true), Around(s.camp.place, true, true)), Microtask, Respond(which, 0, Failed)]
  }

  function Retries(s: State, which: Which, n: nat): seq<Event> {
    if n == 0 then [] else Retries(s, which, n - 1) + Retry(s, which)
  }

  /** The panel is as it was at the start, but for the loads that failed. */
  ghost predicate HasFailed(start: State, s: State, which: Which, n: nat) {
    && Get(s, which) == Get(start, which).(loads := n) && s.hash == start.hash
    && s.life.place == start.life.place && s.life.ready == start.life.ready
    && s.camp.place == start.camp.place && s.camp.ready == start.camp.ready
  }

  lemma {:induction false} RunJoin(s: State, a: seq<Event>, b: seq<Event>)
    ensures RunFrom(s, a + b) == RunFrom(RunFrom(s, a), b)
  {
    hide Step;
    if b == [] {
      assert a + b == a;
    } else {
      RunJoin(s, a, b[..|b| - 1]);
      assert (a + b)[..|a + b| - 1] == a + b[..|b| - 1];
    }
  }

  lemma ThreeSteps(s: State, a: Event, b: Event, c: Event)
    ensures RunFrom(s, [a, b, c]) == Step(Step(Step(s, a), b), c)
  {
    hide Step;
    assert [a, b, c][..2] == [a, b] && [a, b][..1] == [a] && [a][..0] == [];
    assert RunFrom(s, [a]) == Step(s, a);
    assert RunFrom(s, [a, b]) == Step(Step(s, a), b);
  }

  /** A pass over an idle panel that needs a load, and the failure of that load. */
  lemma FailedPass(p: Panel, hash: string)
    requires p.inflight == [] && !p.busy && NeedsLoad(p, hash)
    ensures Load(p, hash, false).inflight == [Key(p.place.value, hash)]
    ensures Settle(Load(p, hash, false), 0, Failed) == p.(loads := p.loads + 1)
  {
    assert Without([Key(p.place.value, hash)], 0) == [];
  }

  lemma OneFailure(start: State, s: State, which: Which, n: nat)
    requires HasFailed(start, s, which, n) && s.queued && start.camp.ready
    requires var p := Get(start, which); p.inflight == [] && !p.busy && NeedsLoad(p, start.hash)
    ensures HasFailed(start, Step(Step(s, Microtask), Respond(which, 0, Failed)), which, n + 1)
  {
    hide Load, Settle, Mutates;
    LoadStays(s.life, s.hash);
    LoadStays(s.camp, s.hash);
    FailedPass(Get(s, which), s.hash);
  }

  lemma LoadStays(p: Panel, hash: string)
    ensures Load(p, hash, false).place == p.place && Load(p, hash, false).ready == p.ready
  {
  }

  lemma StartFails(start: State, which: Which)
    requires start.queued && start.camp.ready
    requires var p := Get(start, which); p.inflight == [] && !p.busy && p.loads == 0 && NeedsLoad(p, start.hash)
    ensures HasFailed(start, RunFrom(start, [Microtask, Respond(which, 0, Failed)]), which, 1)
  {
    hide Step, NeedsLoad;
    assert [Microtask, Respond(which, 0, Failed)][..1] == [Microtask] && [Microtask][..0] == [];
    assert RunFrom(start, [Microtask]) == Step(start, Microtask);
    OneFailure(start, start, which, 0);
  }

  lemma OneRetry(start: State, s: State, which: Which, n: nat)
    requires HasFailed(start, s, which, n) && start.camp.ready
    requires var p := Get(start, which); p.inflight == [] && !p.busy && NeedsLoad(p, start.hash)
    ensures HasFailed(start, RunFrom(s, Retry(start, which)), which, n + 1)
  {
    hide Load, Settle, Mutates, NeedsLoad;
    var still := Retry(start, which)[0];
    var t := Step(s, still);
    ThreeSteps(s, still, Microtask, Respond(which, 0, Failed));
    OneFailure(start, t, which, n);
  }

  /**
   From the start of the page, for either panel: a load that fails in another way
   than 401, 403 or 404 is started again by each change of the page, however
   little it concerns the panel, so n changes make n more loads.
   */
  lemma {:induction false} FailureIsRetried(hash: string, life: Option<string>, ready: bool, camp: Option<string>, which: Which, n: nat)
    requires var p := Get(Init(hash, life, ready, camp), which); p.place.Some? && p.ready
    ensures var start := Init(hash, life, ready, camp);
            HasFailed(start, RunFrom(start, [Microtask, Respond(which, 0, Failed)] + Retries(start, which, n)), which, n + 1)
  {
    hide Step, HasFailed, Retry, RunFrom;
    var start, first := Init(hash, life, ready, camp), [Microtask, Respond(which, 0, Failed)];
    if n == 0 {
      assert first + [] == first;
      StartFails(start, which);
    } else {
      FailureIsRetried(hash, life, ready, camp, which, n - 1);
      assert first + Retries(start, which, n) == first + Retries(start, which, n - 1) + Retry(start, which);
      RunJoin(start, first + Retries(start, which, n - 1), Retry(start, which));
      OneRetry(start, RunFrom(start, first + Retries(start, which, n - 1)), which, n);
    }
  }

  // ----- the loop comes to rest

  /** The times that data can still arrive and be inserted. */
  function Landings(p: Panel, hash: string): nat {
    if p.inflight == [] then (if NeedsLoad(p, hash) then 1 else 0) else if IsStale(p, hash) then 2 else 1
  }

  function Mutations(p: Panel, hash: string): nat { 2 * Landings(p, hash) + if p.shown then 1 else 0 }

  /** Falls with every pass and every reply. */
  function Rank(s: State): nat {
    6 * (Mutations(s.life, s.hash) + Mutations(s.camp, s.hash))
    + (if s.queued then 3 else 0) + |s.life.inflight| + |s.camp.inflight|
  }

  /** A pass that is queued, or a reply to a load in flight. */
  predicate IsOwn(s: State, e: Event) {
    match e
    case Microtask => s.queued
    case Respond(which, k, _) => k < |Get(s, which).inflight|
    case _ => false
  }

  lemma LoadRank(p: Panel, hash: string)
    requires Inv(p)
    ensures Mutations(Load(p, hash, false), hash) == Mutations(p, hash)
    ensures |Load(p, hash, false).inflight| <= 1
    ensures p.inflight != [] ==> Load(p, hash, false) == p
  {
  }

  lemma SettleRank(p: Panel, hash: string, k: nat, reply: Reply)
    requires Inv(p) && k < |p.inflight|
    ensures var q := Settle(p, k, reply);
            Mutations(q, hash) + (if Mutates(p, k, reply) then 1 else 0) <= Mutations(p, hash) && q.inflight == []
  {
  }

  lemma RankFalls(s: State, e: Event)
    requires Inv(s.life) && Inv(s.camp) && IsOwn(s, e)
    ensures Rank(Step(s, e)) < Rank(s)
  {
    hide Load, Settle, Mutations, Mutates;
    LoadRank(s.life, s.hash);
    LoadRank(s.camp, s.hash);
    match e {
      case Microtask =>
      case Respond(which, k, reply) => SettleRank(Get(s, which), s.hash, k, reply);
    }
  }

  /** Every event is the page's own reaction in the state it meets. */
  predicate IsReaction(s: State, events: seq<Event>) {
    events == []
    || (IsReaction(s, events[..|events| - 1]) && IsOwn(RunFrom(s, events[..|events| - 1]), events[|events| - 1]))
  }

  lemma {:induction false} ReactionsRank(s: State, events: seq<Event>)
    requires Inv(s.life) && Inv(s.camp) && IsReaction(s, events)
    ensures |events| + Rank(RunFrom(s, events)) <= Rank(s)
  {
    hide Step, Rank, IsOwn;
    if events != [] {
      var before := events[..|events| - 1];
      ReactionsRank(s, before);
      OneInFlight(s, before, Life);
      RankFalls(RunFrom(s, before), events[|events| - 1]);
    }
  }

  /**
   Left alone, the loop of passes, loads and the changes they make to the page
   comes to rest within 65 reactions, whatever the server answers.
   */
  lemma LoopRests(s: State, events: seq<Event>, reactions: seq<Event>)
    requires Inv(s.life) && Inv(s.camp) && IsReaction(RunFrom(s, events), reactions)
    ensures |reactions| <= 65
  {
    OneInFlight(s, events, Life);
    ReactionsRank(RunFrom(s, events), reactions);
  }
}
