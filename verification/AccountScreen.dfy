/** The account screens, and the one-time token that confirms an email address. */
module AccountScreen {
  import opened Text

  datatype Name = Signup | VerifyEmail | ResetPassword | ForgotPassword

  /** `accountRoute()`: an empty token counts as none. */
  datatype Route = Route(name: Name, token: string)

  /** `rendered`: the screen last put on the page, with its token. */
  datatype Key = NoKey | Key(route: Route)

  /** What the finished screen of an attempt says. */
  datatype Outcome = Confirmed(email: string) | Refused(message: string)

  datatype Attempt = Asked | Answered(outcome: Outcome)

  datatype Screen =
    | Form(form: Name)        // signup, password reset, or the request for it
    | FormAnswer              // what one of those shows after its submission
    | NothingToConfirm
    | Confirming
    | Result(outcome: Outcome)

  /** What `#app` holds: there may be none, or the application's own content. */
  datatype Page = Absent | Foreign | Card(screen: Screen)

  datatype State = State(
    route: Option<Route>,           // what the address asks for
    rendered: Key,
    page: Page,
    scheduled: bool,
    attempts: map<string, Attempt>,
    outcome: Option<Outcome>,       // verifyOutcome
    waiting: multiset<string>,      // screens that await the answer for a token
    posts: seq<string>              // the tokens sent to the server
  )

  datatype Event =
    | Navigate(target: Option<Route>)             // a hash change
    | Redraw(content: Page)                       // the application writes or removes #app
    | Frame                                       // the second animation frame after a mutation
    | Answer(token: string, outcome: Outcome)     // the server's answer for a token
    | Resume(token: string, history: bool)        // a screen goes on after its await
    | FormDone(name: Name, history: bool)         // a submitted form of another screen is answered

  const CONFIRM := Route(VerifyEmail, "")

  function Init(route: Option<Route>): State {
    State(route, NoKey, Foreign, true, map[], None, multiset{}, [])
  }

  /** A write to the page, which the observer answers by scheduling a mount. */
  function Shown(s: State, screen: Screen): State {
    if s.page.Absent? then s else s.(page := Card(screen), scheduled := true)
  }

  /** `forgetToken` */
  function Forget(s: State, name: Name, history: bool): State {
    s.(rendered := Key(Route(name, "")), route := if history then Some(Route(name, "")) else s.route)
  }

  /** `renderVerifyEmail`, up to the await */
  function RenderVerify(s: State, token: string): State {
    if token == "" then Shown(s, if s.outcome.Some? then Result(s.outcome.value) else NothingToConfirm)
    else
      var asked := if token in s.attempts then s else s.(attempts := s.attempts[token := Asked], posts := s.posts + [token]);
      Shown(asked, Confirming).(waiting := s.waiting + multiset{token})
  }

  /** `mountAccountScreen` */
  function Mount(s: State): State {
    if s.page.Absent? then s
    else if s.route.None? then s.(rendered := NoKey)
    else
      var route := s.route.value;
      if s.rendered == Key(route) && s.page.Card? then s
      else
        var t := s.(rendered := Key(route));
        if route.name.VerifyEmail? then RenderVerify(t, route.token) else Shown(t, Form(route.name))
  }

  predicate OnVerify(s: State) { s.route.Some? && s.route.value.name.VerifyEmail? }

  /** `renderVerifyEmail`, after the await */
  function Finish(s: State, outcome: Outcome, history: bool): State {
    if !OnVerify(s) then s
    else Shown(Forget(s.(outcome := Some(outcome)), VerifyEmail, history), Result(outcome))
  }

  predicate IsReady(s: State, token: string) {
    token in s.waiting && token in s.attempts && s.attempts[token].Answered?
  }

  function Step(s: State, e: Event): State {
    match e
    case Navigate(target) => s.(route := target, scheduled := true)
    case Redraw(content) => if content.Card? then s else s.(page := content, scheduled := true)
    case Frame => if s.scheduled then Mount(s.(scheduled := false)) else s
    case Answer(token, outcome) =>
      if token in s.attempts && s.attempts[token].Asked? then s.(attempts := s.attempts[token := Answered(outcome)]) else s
    case Resume(token, history) =>
      if IsReady(s, token) then Finish(s.(waiting := s.waiting - multiset{token}), s.attempts[token].outcome, history) else s
    case FormDone(name, history) =>
      if name.VerifyEmail? then s
      else Shown(if name.ResetPassword? then Forget(s, name, history) else s, FormAnswer)
  }

  function RunFrom(s: State, events: seq<Event>): State {
    if events == [] then s else Step(RunFrom(s, events[..|events| - 1]), events[|events| - 1])
  }

  // ----- the page's variables

  class Screens {
    var route: Option<Route>
    var rendered: Key
    var page: Page
    var scheduled: bool
    var attempts: map<string, Attempt>
    var outcome: Option<Outcome>
    var waiting: multiset<string>
    var posts: seq<string>

    function View(): State
      reads this
    {
      State(route, rendered, page, scheduled, attempts, outcome, waiting, posts)
    }

    constructor (address: Option<Route>)
      ensures View() == Init(address)
    {
      route, rendered, page, scheduled := address, NoKey, Foreign, true;
      attempts, outcome, waiting, posts := map[], None, multiset{}, [];
    }

    method Show(screen: Screen)
      modifies this
      ensures View() == Shown(old(View()), screen)
    {
      if !page.Absent? {
        page := Card(screen);
        scheduled := true;
      }
    }

    method ForgetToken(name: Name, history: bool)
      modifies this
      ensures View() == Forget(old(View()), name, history)
    {
      rendered := Key(Route(name, ""));
      if history { route := Some(Route(name, "")); }
    }

    method RenderVerifyEmail(token: string)
      modifies this
      ensures View() == RenderVerify(old(View()), token)
    {
      if token == "" {
        if outcome.Some? {
          Show(Result(outcome.value));
          return;
        }
        Show(NothingToConfirm);
        return;
      }
      if token !in attempts {
        attempts := attempts[token := Asked];
        posts := posts + [token];
      }
      Show(Confirming);
      waiting := waiting + multiset{token};
    }

    method MountAccountScreen()
      modifies this
      ensures View() == Mount(old(View()))
    {
      if page.Absent? { return; }
      if route.None? {
        rendered := NoKey;
        return;
      }
      if rendered == Key(route.value) && page.Card? { return; }
      rendered := Key(route.value);
      if route.value.name.VerifyEmail? {
        RenderVerifyEmail(route.value.token);
      } else {
        Show(Form(route.value.name));
      }
    }

    method OnHashChange(target: Option<Route>)
      modifies this
      ensures View() == Step(old(View()), Navigate(target))
    {
      route, scheduled := target, true;
    }

    method OnMutation(content: Page)
      requires !content.Card?
      modifies this
      ensures View() == Step(old(View()), Redraw(content))
    {
      page, scheduled := content, true;
    }

    method OnFrame()
      modifies this
      ensures View() == Step(old(View()), Frame)
    {
      if scheduled {
        scheduled := false;
        MountAccountScreen();
      }
    }

    method OnAnswer(token: string, result: Outcome)
      modifies this
      ensures View() == Step(old(View()), Answer(token, result))
    {
      if token in attempts && attempts[token].Asked? {
        attempts := attempts[token := Answered(result)];
      }
    }

    method OnResume(token: string, history: bool)
      modifies this
      ensures View() == Step(old(View()), Resume(token, history))
    {
      if token !in waiting || token !in attempts || !attempts[token].Answered? { return; }
      waiting := waiting - multiset{token};
      if route.None? || !route.value.name.VerifyEmail? { return; }
      outcome := Some(attempts[token].outcome);
      ForgetToken(VerifyEmail, history);
      Show(Result(outcome.value));
    }

    method OnFormDone(name: Name, history: bool)
      requires !name.VerifyEmail?
      modifies this
      ensures View() == Step(old(View()), FormDone(name, history))
    {
      if name.ResetPassword? {
        ForgetToken(name, history);
      }
      Show(FormAnswer);
    }
  }

  // ----- what every run keeps

  ghost predicate Distinct(posts: seq<string>) {
    forall i, j :: 0 <= i < j < |posts| ==> posts[i] != posts[j]
  }

  ghost predicate PostsInv(posts: seq<string>, attempts: map<string, Attempt>) {
    Distinct(posts) && forall token :: token in posts <==> token in attempts
  }

  /** The server gave this outcome for some token that was sent. */
  ghost predicate WasAnswered(attempts: map<string, Attempt>, outcome: Outcome) {
    exists token :: token in attempts && attempts[token] == Answered(outcome)
  }

  ghost predicate OutcomeInv(s: State) {
    && (s.outcome.Some? ==> WasAnswered(s.attempts, s.outcome.value))
    && (s.page.Card? && s.page.screen.Result? ==> WasAnswered(s.attempts, s.page.screen.outcome))
  }

  /** A card under the finished screen's key shows the outcome, or the answer to a form. */
  ghost predicate ResultInv(s: State) {
    s.rendered == Key(CONFIRM) && s.outcome.Some? && s.page.Card? ==>
      s.page.screen == Result(s.outcome.value) || s.page.screen.FormAnswer?
  }

  ghost predicate Inv(s: State) { PostsInv(s.posts, s.attempts) && OutcomeInv(s) && ResultInv(s) }

  /** Answers are kept for good, and the log of requests only grows. */
  ghost predicate Grows(s: State, t: State) {
    s.posts <= t.posts && AnswersKept(s.attempts, t.attempts)
  }

  ghost predicate AnswersKept(a: map<string, Attempt>, b: map<string, Attempt>) {
    forall token :: token in a && a[token].Answered? ==> token in b && b[token] == a[token]
  }

  lemma AnswerKept(a: map<string, Attempt>, b: map<string, Attempt>, outcome: Outcome)
    requires AnswersKept(a, b) && WasAnswered(a, outcome)
    ensures WasAnswered(b, outcome)
  {
  }

  lemma AnswersGrow(s: State, attempts: map<string, Attempt>)
    requires OutcomeInv(s) && AnswersKept(s.attempts, attempts)
    ensures OutcomeInv(s.(attempts := attempts))
  {
    hide AnswersKept, WasAnswered;
    if s.outcome.Some? {
      AnswerKept(s.attempts, attempts, s.outcome.value);
    }
    if s.page.Card? && s.page.screen.Result? {
      AnswerKept(s.attempts, attempts, s.page.screen.outcome);
    }
  }

  lemma AskKeeps(s: State, token: string)
    requires PostsInv(s.posts, s.attempts) && OutcomeInv(s) && token !in s.attempts
    ensures var t := s.(attempts := s.attempts[token := Asked], posts := s.posts + [token]);
            PostsInv(t.posts, t.attempts) && OutcomeInv(t) && Grows(s, t)
  {
    hide WasAnswered;
    AnswersGrow(s, s.attempts[token := Asked]);
  }

  lemma VerifyKeeps(s: State, token: string)
    requires PostsInv(s.posts, s.attempts) && OutcomeInv(s) && s.rendered == Key(Route(VerifyEmail, token))
    ensures Inv(RenderVerify(s, token)) && Grows(s, RenderVerify(s, token))
  {
    hide WasAnswered, PostsInv;
    if token !in s.attempts {
      AskKeeps(s, token);
    }
  }

  lemma MountKeeps(s: State)
    requires Inv(s)
    ensures Inv(Mount(s)) && Grows(s, Mount(s))
  {
    hide RenderVerify, WasAnswered;
    if s.route.Some? {
      var t := s.(rendered := Key(s.route.value));
      assert PostsInv(t.posts, t.attempts) && OutcomeInv(t);
      if s.route.value.name.VerifyEmail? {
        VerifyKeeps(t, s.route.value.token);
      }
    }
  }

  lemma FinishKeeps(s: State, outcome: Outcome, history: bool)
    requires Inv(s) && WasAnswered(s.attempts, outcome)
    ensures Inv(Finish(s, outcome, history)) && Grows(s, Finish(s, outcome, history))
  {
    hide WasAnswered;
  }

  lemma AnswerKeeps(s: State, token: string, outcome: Outcome)
    requires Inv(s) && token in s.attempts && s.attempts[token].Asked?
    ensures var t := s.(attempts := s.attempts[token := Answered(outcome)]); Inv(t) && Grows(s, t)
  {
    hide WasAnswered;
    AnswersGrow(s, s.attempts[token := Answered(outcome)]);
  }

  lemma StepKeeps(s: State, e: Event)
    requires Inv(s)
    ensures Inv(Step(s, e)) && Grows(s, Step(s, e))
  {
    hide Mount, Finish, WasAnswered, PostsInv;
    match e {
      case Navigate(target) =>
      case Redraw(content) =>
      case Frame => MountKeeps(s.(scheduled := false));
      case Answer(token, outcome) =>
        if token in s.attempts && s.attempts[token].Asked? {
          AnswerKeeps(s, token, outcome);
        }
      case Resume(token, history) =>
        if IsReady(s, token) {
          IsAnswer(s.attempts, token);
          FinishKeeps(s.(waiting := s.waiting - multiset{token}), s.attempts[token].outcome, history);
        }
      case FormDone(name, history) =>
    }
  }

  lemma IsAnswer(attempts: map<string, Attempt>, token: string)
    requires token in attempts && attempts[token].Answered?
    ensures WasAnswered(attempts, attempts[token].outcome)
  {
  }

  lemma {:induction false} RunKeeps(s: State, events: seq<Event>)
    requires Inv(s)
    ensures Inv(RunFrom(s, events)) && Grows(s, RunFrom(s, events))
  {
    hide Step, Inv;
    if events != [] {
      RunKeeps(s, events[..|events| - 1]);
      StepKeeps(RunFrom(s, events[..|events| - 1]), events[|events| - 1]);
    }
  }

  lemma InitInv(route: Option<Route>)
    ensures Inv(Init(route))
  {
  }

  /** Whatever happens, in whatever order, a token is sent to the server at most once. */
  lemma PostedOnce(route: Option<Route>, events: seq<Event>)
    ensures Distinct(RunFrom(Init(route), events).posts)
  {
    hide RunFrom;
    InitInv(route);
    RunKeeps(Init(route), events);
  }

  /** Every result on the page is the server's answer for a token that was sent; it is never revised. */
  lemma ShownWasAnswered(route: Option<Route>, events: seq<Event>, later: seq<Event>)
    requires var s := RunFrom(Init(route), events); s.page.Card? && s.page.screen.Result?
    ensures var s, t := RunFrom(Init(route), events), RunFrom(RunFrom(Init(route), events), later);
            exists token :: token in s.posts && token in t.attempts && t.attempts[token] == Answered(s.page.screen.outcome)
  {
    hide RunFrom;
    InitInv(route);
    var s := RunFrom(Init(route), events);
    RunKeeps(Init(route), events);
    RunKeeps(s, later);
    var token :| token in s.attempts && s.attempts[token] == Answered(s.page.screen.outcome);
    assert token in s.posts;
  }

  /**
   In every reachable state with an outcome recorded, mounting the route
   without a token sends nothing and keeps the outcome. It shows that outcome
   if and only if the page does not hold, under the finished screen's key, the
   answer to another screen's form.
   */
  lemma OutcomeRestored(route: Option<Route>, events: seq<Event>)
    requires var s := RunFrom(Init(route), events);
             s.route == Some(CONFIRM) && s.outcome.Some? && !s.page.Absent?
    ensures var s := RunFrom(Init(route), events);
            var t := Mount(s);
            && t.posts == s.posts && t.attempts == s.attempts && t.outcome == s.outcome && t.route == s.route
            && (t.page == Card(Result(s.outcome.value)) <==> !(s.rendered == Key(CONFIRM) && s.page == Card(FormAnswer)))
  {
    hide RunFrom;
    InitInv(route);
    RunKeeps(Init(route), events);
  }

  // ----- what each event does

  /** The screen goes on after its await: the answer is there, and the address still asks for the verification screen. */
  predicate GoesOn(s: State, e: Event) {
    && e.Resume? && e.token in s.waiting && e.token in s.attempts && s.attempts[e.token].Answered?
    && s.route.Some? && s.route.value.name == VerifyEmail
  }

  /** A scheduled mount finds an address with a screen that is not yet on the page. */
  predicate Draws(s: State, e: Event) {
    e.Frame? && s.scheduled && s.page != Absent && s.route.Some? && !(s.rendered == Key(s.route.value) && s.page.Card?)
  }

  /** The page changes exactly when the application writes it, a screen is drawn, or an answer is shown, and to exactly this. */
  lemma PageExactly(s: State, e: Event)
    ensures Step(s, e).page
            == if e.Redraw? && !e.content.Card? then e.content
               else if GoesOn(s, e) && s.page != Absent then Card(Result(s.attempts[e.token].outcome))
               else if e.FormDone? && e.name != VerifyEmail && s.page != Absent then Card(FormAnswer)
               else if Draws(s, e) && s.route.value.name != VerifyEmail then Card(Form(s.route.value.name))
               else if Draws(s, e) && s.route.value.token != "" then Card(Confirming)
               else if Draws(s, e) then Card(if s.outcome == None then NothingToConfirm else Result(s.outcome.value))
               else s.page
  {
  }

  /** Where the address leads, which screen is taken to be drawn, and which outcome is remembered. */
  lemma AddressExactly(s: State, e: Event)
    ensures var t := Step(s, e);
            && t.route == (if e.Navigate? then e.target
                           else if GoesOn(s, e) && e.history then Some(Route(VerifyEmail, ""))
                           else if e.FormDone? && e.name == ResetPassword && e.history then Some(Route(ResetPassword, ""))
                           else s.route)
            && t.rendered == (if GoesOn(s, e) then Key(Route(VerifyEmail, ""))
                              else if e.FormDone? && e.name == ResetPassword then Key(Route(ResetPassword, ""))
                              else if Draws(s, e) then Key(s.route.value)
                              else if e.Frame? && s.scheduled && s.page != Absent && s.route == None then NoKey
                              else s.rendered)
            && t.outcome == (if GoesOn(s, e) then Some(s.attempts[e.token].outcome) else s.outcome)
  {
  }

  /** The event writes to the page, be it what stands there already. */
  predicate Writes(s: State, e: Event) {
    || (e.Redraw? && !e.content.Card?) || Draws(s, e)
    || (s.page != Absent && (GoesOn(s, e) || (e.FormDone? && e.name != VerifyEmail)))
  }

  /** A mount is scheduled by a new address and by everything that writes to the page, and awaits its frame. */
  lemma ScheduledExactly(s: State, e: Event)
    ensures Step(s, e).scheduled == (e.Navigate? || Writes(s, e) || (s.scheduled && !e.Frame?))
  {
  }

  lemma RunGrows(route: Option<Route>, events: seq<Event>, e: Event)
    ensures RunFrom(Init(route), events + [e]) == Step(RunFrom(Init(route), events), e)
  {
    assert (events + [e])[..|events|] == events;
  }

  /**
   In every run a token is sent exactly by the mount that finds it in the address
   unsent, and what the server answers first is kept.
   */
  lemma SendsExactly(route: Option<Route>, events: seq<Event>, e: Event)
    ensures var s, t := RunFrom(Init(route), events), RunFrom(Init(route), events + [e]);
            var sends := e.Frame? && s.scheduled && s.page != Absent && s.route.Some? && s.route.value.name == VerifyEmail
                         && s.route.value.token != "" && s.route.value.token !in s.posts;
            && t.posts == (if sends then s.posts + [s.route.value.token] else s.posts)
            && t.attempts == (if sends then s.attempts[s.route.value.token := Asked]
                              else if e.Answer? && e.token in s.attempts && s.attempts[e.token] == Asked
                              then s.attempts[e.token := Answered(e.outcome)] else s.attempts)
  {
    hide RunFrom, OutcomeInv, ResultInv;
    DrawnRun(route, events);
    RunGrows(route, events, e);
  }

  // ----- after leaving the screen

  /** What an address, a page and the memory of the outcome are made of. */
  predicate SameView(s: State, t: State) {
    s.route == t.route && s.page == t.page && s.rendered == t.rendered && s.outcome == t.outcome && s.posts == t.posts
  }

  /** An answer, or a screen that goes on after its answer. */
  predicate IsLate(e: Event) { e.Answer? || e.Resume? }

  lemma LateChangesNothing(s: State, e: Event)
    requires !OnVerify(s) && IsLate(e)
    ensures SameView(s, Step(s, e))
  {
  }

  /** Results that arrive after the route was left change neither the page nor the address. */
  lemma {:induction false} LeavingIsFinal(s: State, late: seq<Event>)
    requires !OnVerify(s) && forall e <- late :: IsLate(e)
    ensures SameView(s, RunFrom(s, late))
  {
    hide Step;
    if late != [] {
      LeavingIsFinal(s, late[..|late| - 1]);
      LateChangesNothing(RunFrom(s, late[..|late| - 1]), late[|late| - 1]);
    }
  }

  predicate HoldsToken(s: State) { OnVerify(s) && s.route.value.token != "" }

  lemma StaySends(s: State, e: Event)
    requires !HoldsToken(s) && !e.Navigate?
    ensures !HoldsToken(Step(s, e)) && Step(s, e).posts == s.posts
  {
  }

  /** Once the token has left the address, nothing is sent until somebody navigates. */
  lemma {:induction false} SpentTokenIsGone(s: State, events: seq<Event>)
    requires !HoldsToken(s) && forall e <- events :: !e.Navigate?
    ensures !HoldsToken(RunFrom(s, events)) && RunFrom(s, events).posts == s.posts
  {
    hide Step, HoldsToken;
    if events != [] {
      SpentTokenIsGone(s, events[..|events| - 1]);
      StaySends(RunFrom(s, events[..|events| - 1]), events[|events| - 1]);
    }
  }

  // ----- runs, one event at a time

  lemma {:induction false} RunCons(s: State, e: Event, rest: seq<Event>)
    ensures RunFrom(s, [e] + rest) == RunFrom(Step(s, e), rest)
  {
    hide Step;
    var events := [e] + rest;
    if rest == [] {
      assert events == [e] && [e][..0] == [];
      assert RunFrom(s, []) == s;
    } else {
      RunCons(s, e, rest[..|rest| - 1]);
      assert events[..|events| - 1] == [e] + rest[..|rest| - 1];
    }
  }

  lemma {:induction false} RunJoin(s: State, a: seq<Event>, b: seq<Event>)
    ensures RunFrom(s, a + b) == RunFrom(RunFrom(s, a), b)
  {
    hide Step;
    if b == [] {
      assert a + b == a;
    } else {
      RunJoin(s, a, b[..|b| - 1]);
      assert (a + b)[..|a + b| - 1] == a + b[..|b| - 1];
    }
  }

  lemma ThreeSteps(s: State, a: Event, b: Event, c: Event)
    ensures RunFrom(s, [a, b, c]) == Step(Step(Step(s, a), b), c)
  {
    hide Step;
    assert [a, b, c] == [a] + ([b] + ([c] + []));
    RunCons(s, a, [b] + ([c] + []));
    RunCons(Step(s, a), b, [c] + []);
    RunCons(Step(Step(s, a), b), c, []);
  }

  // ----- is an opened token sent?

  /** The event takes whatever token the address holds out of it. */
  predicate TakesToken(s: State, e: Event) {
    || (e.Resume? && IsReady(s, e.token) && e.history && OnVerify(s))
    || (e.FormDone? && e.name.ResetPassword? && e.history)
  }

  /** The event draws the screen of the address. */
  predicate IsMount(s: State, e: Event) { e.Frame? && s.scheduled && !s.page.Absent? }

  /** A screen is known to be drawn only if its token was sent. */
  ghost predicate DrawnInv(s: State) {
    s.rendered.Key? && s.rendered.route.name.VerifyEmail? && s.rendered.route.token != "" ==> s.rendered.route.token in s.posts
  }

  lemma DrawnKeeps(s: State, e: Event)
    requires PostsInv(s.posts, s.attempts) && DrawnInv(s)
    ensures DrawnInv(Step(s, e))
  {
  }

  lemma {:induction false} DrawnRun(route: Option<Route>, events: seq<Event>)
    ensures Inv(RunFrom(Init(route), events)) && DrawnInv(RunFrom(Init(route), events))
  {
    hide Step, Inv, DrawnInv;
    if events == [] {
      InitInv(route);
      InitDrawn(route);
    } else {
      var before := events[..|events| - 1];
      DrawnRun(route, before);
      DrawnStep(RunFrom(Init(route), before), events[|events| - 1]);
    }
  }

  lemma InitDrawn(route: Option<Route>)
    ensures DrawnInv(Init(route))
  {
  }

  lemma DrawnStep(s: State, e: Event)
    requires Inv(s) && DrawnInv(s)
    ensures Inv(Step(s, e)) && DrawnInv(Step(s, e))
  {
    hide Step, DrawnInv, OutcomeInv, ResultInv;
    StepKeeps(s, e);
    DrawnKeeps(s, e);
  }

  /** Without a navigation the token stays in the address exactly until such an event. */
  lemma TokenTaken(s: State, e: Event)
    requires HoldsToken(s) && !e.Navigate?
    ensures !HoldsToken(Step(s, e)) <==> TakesToken(s, e)
    ensures !TakesToken(s, e) ==> Step(s, e).route == s.route
  {
  }

  /** While it is there it is sent exactly when its screen is drawn. */
  lemma TokenSent(s: State, e: Event)
    requires HoldsToken(s) && !e.Navigate? && PostsInv(s.posts, s.attempts) && DrawnInv(s)
    ensures var token := s.route.value.token;
            token in Step(s, e).posts <==> token in s.posts || IsMount(s, e)
  {
  }

  /** Some event takes the token. */
  ghost predicate IsTaken(s: State, events: seq<Event>) {
    exists m :: 0 <= m < |events| && TakesToken(RunFrom(s, events[..m]), events[m])
  }

  /** Some event draws the screen, and none before it takes the token. */
  ghost predicate IsDrawnInTime(s: State, events: seq<Event>) {
    exists n :: 0 <= n < |events| && IsMount(RunFrom(s, events[..n]), events[n]) && !IsTaken(s, events[..n])
  }

  lemma TakenStep(s: State, events: seq<Event>, e: Event)
    ensures IsTaken(s, events + [e]) <==> IsTaken(s, events) || TakesToken(RunFrom(s, events), e)
  {
    hide TakesToken, RunFrom;
    var all := events + [e];
    assert all[..|events|] == events && all[|events|] == e;
    forall m | 0 <= m < |events| ensures all[..m] == events[..m] && all[m] == events[m] {
    }
  }

  lemma DrawnInTimeStep(s: State, events: seq<Event>, e: Event)
    ensures IsDrawnInTime(s, events + [e])
            <==> IsDrawnInTime(s, events) || (IsMount(RunFrom(s, events), e) && !IsTaken(s, events))
  {
    hide IsMount, IsTaken, RunFrom;
    var all := events + [e];
    assert all[..|events|] == events && all[|events|] == e;
    forall n | 0 <= n < |events| ensures all[..n] == events[..n] && all[n] == events[n] {
    }
  }

  lemma {:induction false} TokenRun(s: State, events: seq<Event>)
    requires HoldsToken(s) && s.route.value.token !in s.posts && Inv(s) && DrawnInv(s)
    requires forall e <- events :: !e.Navigate?
    ensures var token, t := s.route.value.token, RunFrom(s, events);
            && Inv(t) && DrawnInv(t)
            && (if IsTaken(s, events) then !HoldsToken(t) else t.route == s.route)
            && (token in t.posts <==> IsDrawnInTime(s, events))
  {
    hide Step, Inv, DrawnInv, TakesToken, IsMount, IsTaken, IsDrawnInTime, HoldsToken;
    if events == [] {
      NothingHappened(s);
    } else {
      var before, e := events[..|events| - 1], events[|events| - 1];
      assert events == before + [e];
      TokenRun(s, before);
      TakenStep(s, before, e);
      DrawnInTimeStep(s, before, e);
      var t := RunFrom(s, before);
      DrawnStep(t, e);
      if IsTaken(s, before) {
        StaySends(t, e);
      } else {
        TokenEvent(s, t, e);
      }
    }
  }

  lemma NothingHappened(s: State)
    requires HoldsToken(s)
    ensures !IsTaken(s, []) && !IsDrawnInTime(s, [])
  {
  }

  lemma TokenEvent(s: State, t: State, e: Event)
    requires HoldsToken(s) && t.route == s.route && !e.Navigate? && Inv(t) && DrawnInv(t)
    ensures !HoldsToken(Step(t, e)) <==> TakesToken(t, e)
    ensures !TakesToken(t, e) ==> Step(t, e).route == s.route
    ensures s.route.value.token in Step(t, e).posts <==> s.route.value.token in t.posts || IsMount(t, e)
  {
    hide Step, TakesToken, IsMount, DrawnInv;
    TokenTaken(t, e);
    TokenSent(t, e);
  }

  /**
   In every reachable state with an unsent token in the address, and until the
   next navigation, the token is sent if and only if its screen is drawn before
   a result, or a late answer to a password reset, takes it out of the address.
   */
  lemma OpenedTokenSent(route: Option<Route>, before: seq<Event>, events: seq<Event>)
    requires var s := RunFrom(Init(route), before); HoldsToken(s) && s.route.value.token !in s.posts
    requires forall e <- events :: !e.Navigate?
    ensures var s := RunFrom(Init(route), before);
            s.route.value.token in RunFrom(s, events).posts <==> IsDrawnInTime(s, events)
  {
    hide RunFrom, Inv, DrawnInv, IsDrawnInTime, HoldsToken;
    DrawnRun(route, before);
    TokenRun(RunFrom(Init(route), before), events);
  }

  /** A link that was opened and drawn: its token is sent and its screen waits. */
  function Waiting(token: string, attempt: Attempt): State {
    State(Some(Route(VerifyEmail, token)), Key(Route(VerifyEmail, token)), Card(Confirming), true,
          map[token := attempt], None, multiset{token}, [token])
  }

  lemma OpenedState(token: string)
    requires token != ""
    ensures Step(Init(Some(Route(VerifyEmail, token))), Frame) == Waiting(token, Asked)
  {
  }

  lemma AnsweredState(token: string, answer: Outcome)
    ensures Step(Waiting(token, Asked), Answer(token, answer)) == Waiting(token, Answered(answer))
  {
    assert map[token := Asked][token := Answered(answer)] == map[token := Answered(answer)];
  }

  lemma ResumedState(token: string, answer: Outcome, history: bool)
    ensures Step(Waiting(token, Answered(answer)), Resume(token, history))
            == State(Some(Route(VerifyEmail, if history then "" else token)), Key(CONFIRM), Card(Result(answer)), true,
                     map[token := Answered(answer)], Some(answer), multiset{}, [token])
  {
    assert multiset{token} - multiset{token} == multiset{};
  }

  /**
   A run in which it is not: the check after the await looks at the name of the
   route only, so a result for the first link takes the token of a second one
   that was opened while the first was asked for, and not yet drawn.
   */
  lemma NextTokenDropped(first: string, second: string, answer: Outcome)
    requires first != "" && second != "" && first != second
    ensures var events := [Frame, Navigate(Some(Route(VerifyEmail, second))), Answer(first, answer), Resume(first, true), Frame];
            var s := RunFrom(Init(Some(Route(VerifyEmail, first))), events);
            s.route == Some(CONFIRM) && s.page == Card(Result(answer)) && second !in s.posts
  {
    hide Step;
    var s := Init(Some(Route(VerifyEmail, first)));
    var start, end := [Frame, Navigate(Some(Route(VerifyEmail, second))), Answer(first, answer)], [Resume(first, true), Frame];
    assert start + end == [Frame, Navigate(Some(Route(VerifyEmail, second))), Answer(first, answer), Resume(first, true), Frame];
    RunJoin(s, start, end);
    ThreeSteps(s, Frame, Navigate(Some(Route(VerifyEmail, second))), Answer(first, answer));
    OpenedState(first);
    LateAnswer(first, second, answer);
    var a := Step(Step(Waiting(first, Asked), Navigate(Some(Route(VerifyEmail, second)))), Answer(first, answer));
    TwoSteps(a, Resume(first, true), Frame);
  }

  lemma LateAnswer(first: string, second: string, answer: Outcome)
    requires first != "" && second != "" && first != second
    ensures var a := Step(Step(Waiting(first, Asked), Navigate(Some(Route(VerifyEmail, second)))), Answer(first, answer));
            var b := Step(Step(a, Resume(first, true)), Frame);
            b.route == Some(CONFIRM) && b.page == Card(Result(answer)) && b.posts == [first]
  {
    var w := Waiting(first, Asked);
    var n := Step(w, Navigate(Some(Route(VerifyEmail, second))));
    assert n == w.(route := Some(Route(VerifyEmail, second)));
    var a := Step(n, Answer(first, answer));
    AnsweredState(first, answer);
    assert a == n.(attempts := map[first := Answered(answer)]);
    var b := Step(a, Resume(first, true));
    assert b.route == Some(CONFIRM) && b.page == Card(Result(answer)) && b.rendered == Key(CONFIRM) && b.posts == [first];
  }

  lemma TwoSteps(s: State, a: Event, b: Event)
    ensures RunFrom(s, [a, b]) == Step(Step(s, a), b)
  {
    hide Step;
    assert [a, b] == [a] + ([b] + []);
    RunCons(s, a, [b] + []);
    RunCons(Step(s, a), b, []);
  }

  /**
   Another: the answer to a password reset forgets the token of its own screen
   without looking at the address, which by then holds a link to confirm.
   */
  lemma ResetDropsToken(reset: string, second: string)
    requires reset != "" && second != ""
    ensures var events := [Frame, Navigate(Some(Route(VerifyEmail, second))), FormDone(ResetPassword, true)];
            var s := RunFrom(Init(Some(Route(ResetPassword, reset))), events);
            s.route == Some(Route(ResetPassword, "")) && s.page == Card(FormAnswer) && second !in s.posts
            && forall later: seq<Event> :: (forall e <- later :: !e.Navigate?) ==> second !in RunFrom(s, later).posts
  {
    var start := Init(Some(Route(ResetPassword, reset)));
    ThreeSteps(start, Frame, Navigate(Some(Route(VerifyEmail, second))), FormDone(ResetPassword, true));
    var s := Step(Step(Step(start, Frame), Navigate(Some(Route(VerifyEmail, second)))), FormDone(ResetPassword, true));
    forall later: seq<Event> | forall e <- later :: !e.Navigate? ensures second !in RunFrom(s, later).posts {
      SpentTokenIsGone(s, later);
    }
  }

  // ----- does the finished screen come to rest?

  /**
   When a result is shown and the mount that its showing scheduled has run, the
   result is still there and nothing is scheduled, if and only if the token has
   left the address: the history API is there, or there was none.
   */
  lemma ComesToRest(s: State, token: string, history: bool)
    requires IsReady(s, token) && OnVerify(s) && !s.page.Absent?
    ensures var t := Step(Step(s, Resume(token, history)), Frame);
            t.page == Card(Result(s.attempts[token].outcome)) && !t.scheduled <==> history || s.route.value.token == ""
  {
    var r := Step(s, Resume(token, history));
    assert r.scheduled && r.page == Card(Result(s.attempts[token].outcome));
  }

  /** A result is on the page, its token still in the address, and a mount is scheduled. */
  ghost predicate IsStuck(s: State, token: string) {
    && token != "" && s.route == Some(Route(VerifyEmail, token)) && s.rendered == Key(CONFIRM) && s.scheduled
    && token in s.attempts && s.attempts[token].Answered? && token !in s.waiting
    && s.outcome == Some(s.attempts[token].outcome) && s.page == Card(Result(s.outcome.value))
  }

  lemma StuckRound(s: State, token: string)
    requires IsStuck(s, token)
    ensures Step(s, Frame).page == Card(Confirming)
    ensures Step(Step(s, Frame), Resume(token, false)) == s
  {
    assert s.waiting + multiset{token} - multiset{token} == s.waiting;
  }

  function Rounds(n: nat, token: string): seq<Event> {
    if n == 0 then [] else Rounds(n - 1, token) + [Frame, Resume(token, false)]
  }

  lemma {:induction false} StuckForever(s: State, token: string, n: nat)
    requires IsStuck(s, token)
    ensures RunFrom(s, Rounds(n, token)) == s
  {
    hide Step, IsStuck;
    if n > 0 {
      StuckForever(s, token, n - 1);
      RunJoin(s, Rounds(n - 1, token), [Frame, Resume(token, false)]);
      TwoSteps(s, Frame, Resume(token, false));
      StuckRound(s, token);
    }
  }

  /** From the start: the link is opened, answered, and its result shown. */
  lemma FirstRun(token: string, answer: Outcome, history: bool)
    requires token != ""
    ensures RunFrom(Init(Some(Route(VerifyEmail, token))), [Frame, Answer(token, answer), Resume(token, history)])
            == State(Some(Route(VerifyEmail, if history then "" else token)), Key(CONFIRM), Card(Result(answer)), true,
                     map[token := Answered(answer)], Some(answer), multiset{}, [token])
  {
    hide Step;
    var start := Init(Some(Route(VerifyEmail, token)));
    ThreeSteps(start, Frame, Answer(token, answer), Resume(token, history));
    OpenedState(token);
    AnsweredState(token, answer);
    ResumedState(token, answer, history);
  }

  /**
   From the start of a page without the history API: after any number of rounds
   the result is on the page and the screen is drawn anew, although the token
   was sent only once.
   */
  lemma WithoutHistoryRedrawsForever(token: string, answer: Outcome, n: nat)
    requires token != ""
    ensures var s := RunFrom(Init(Some(Route(VerifyEmail, token))),
                             [Frame, Answer(token, answer), Resume(token, false)] + Rounds(n, token));
            s.page == Card(Result(answer)) && Step(s, Frame).page == Card(Confirming) && s.posts == [token]
  {
    var start := Init(Some(Route(VerifyEmail, token)));
    FirstRun(token, answer, false);
    var s := RunFrom(start, [Frame, Answer(token, answer), Resume(token, false)]);
    RunJoin(start, [Frame, Answer(token, answer), Resume(token, false)], Rounds(n, token));
    StuckForever(s, token, n);
    StuckRound(s, token);
  }

  // ----- when the outcome is not restored

  /** The exception of OutcomeRestored occurs: a form sent from another screen is answered under the finished key. */
  lemma FormAnswerCoversOutcome(token: string, answer: Outcome)
    requires token != ""
    ensures var s := RunFrom(Init(Some(Route(VerifyEmail, token))),
                             [Frame, Answer(token, answer), Resume(token, true)]
                             + [Navigate(Some(Route(ForgotPassword, ""))), Frame, Navigate(Some(CONFIRM))]
                             + [Frame, FormDone(ForgotPassword, true)]);
            s.route == Some(CONFIRM) && s.outcome == Some(answer) && Mount(s).page == Card(FormAnswer)
  {
    hide Step, RunFrom;
    var start := Init(Some(Route(VerifyEmail, token)));
    var first := [Frame, Answer(token, answer), Resume(token, true)];
    var second := [Navigate(Some(Route(ForgotPassword, ""))), Frame, Navigate(Some(CONFIRM))];
    RunJoin(start, first + second, [Frame, FormDone(ForgotPassword, true)]);
    RunJoin(start, first, second);
    FirstRun(token, answer, true);
    Detour(RunFrom(start, first), answer);
  }

  lemma Detour(s: State, answer: Outcome)
    requires s.rendered == Key(CONFIRM) && s.page.Card? && s.outcome == Some(answer)
    ensures var t := RunFrom(RunFrom(s, [Navigate(Some(Route(ForgotPassword, ""))), Frame, Navigate(Some(CONFIRM))]),
                             [Frame, FormDone(ForgotPassword, true)]);
            t.route == Some(CONFIRM) && t.outcome == Some(answer) && Mount(t).page == Card(FormAnswer)
  {
    hide Step, Mount;
    ThreeSteps(s, Navigate(Some(Route(ForgotPassword, ""))), Frame, Navigate(Some(CONFIRM)));
    var b := Step(Step(Step(s, Navigate(Some(Route(ForgotPassword, "")))), Frame), Navigate(Some(CONFIRM)));
    WayOut(s, answer);
    TwoSteps(b, Frame, FormDone(ForgotPassword, true));
    WayBack(b, answer);
  }

  lemma WayOut(s: State, answer: Outcome)
    requires s.rendered == Key(CONFIRM) && s.page.Card? && s.outcome == Some(answer)
    ensures var b := Step(Step(Step(s, Navigate(Some(Route(ForgotPassword, "")))), Frame), Navigate(Some(CONFIRM)));
            b.route == Some(CONFIRM) && b.outcome == Some(answer) && b.scheduled && b.page == Card(Form(ForgotPassword))
  {
  }

  lemma WayBack(b: State, answer: Outcome)
    requires b.route == Some(CONFIRM) && b.outcome == Some(answer) && b.scheduled && b.page == Card(Form(ForgotPassword))
    ensures var t := Step(Step(b, Frame), FormDone(ForgotPassword, true));
            t.route == Some(CONFIRM) && t.outcome == Some(answer) && Mount(t).page == Card(FormAnswer)
  {
  }
}
